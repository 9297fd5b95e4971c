/**
  Grouping the lines of an OpenSSH configuration into blocks, finding the aliases it names and resolving each
  one's options.  Matching a single glob pattern answers from outside; a malformed one matches nothing.
*/
module SshResolve {
  import opened Wrappers
  import opened SshWords

  const MAX_ENTRIES: nat := 512

  type Globs = (string, string) -> bool

  datatype Block = Block(patterns: seq<string>, values: seq<(string, string)>)

  datatype Directive = Nothing | Host(patterns: seq<string>) | Match | Setting(key: string, value: string)

  const RECOGNISED: set<string> :=
    {"hostname", "user", "port", "identityfile", "identitiesonly", "proxyjump", "connecttimeout", "serveraliveinterval",
     "serveralivecountmax", "hostkeyalias", "userknownhostsfile"}

  function Parse(line: string): Directive { Directed(Words(line)) }

  function Directed(words: seq<string>): Directive {
    if words == [] then Nothing
    else
      var key := Lower(words[0]);
      if key == "host" then if |words| < 2 then Nothing else Host(words[1..])
      else if key == "match" then Match
      else if |words| < 2 then Nothing
      else Setting(key, words[1])
  }

  /** A line that says `d`. */
  function Written(d: Directive): string {
    match d
    case Nothing => ""
    case Host(patterns) => Sentence(["Host"] + patterns)
    case Match => Sentence(["Match", "all"])
    case Setting(key, value) => Sentence([key, value])
  }

  /** Every directive can be written down: quoted, it is read back as what it is. */
  lemma WrittenReadsBack(d: Directive)
    requires d.Host? ==> d.patterns != [] && d.patterns[0] != "=" && forall p | p in d.patterns :: Quotable(p)
    requires d.Setting? ==>
      && Quotable(d.key) && '=' !in d.key && Lower(d.key) == d.key && d.key != "host" && d.key != "match"
      && Quotable(d.value) && d.value != "="
    ensures Parse(Written(d)) == d
  {
    match d {
      case Nothing =>
      case Host(patterns) =>
        var words := ["Host"] + patterns;
        SentenceParses(words);
        assert Lower("Host") == "host" && words[1..] == patterns;
      case Match =>
        SentenceParses(["Match", "all"]);
        assert Lower("Match") == "match";
      case Setting(key, value) =>
        SentenceParses([key, value]);
    }
  }

  lemma SentenceParses(words: seq<string>)
    requires words != [] && '=' !in words[0] && (|words| > 1 ==> words[1] != "=")
    requires forall w | w in words :: Quotable(w)
    ensures Parse(Sentence(words)) == Directed(words)
  {
    QuotingRoundTrips(words);
  }

  lemma LowerKeeps(w: string, c: char)
    requires c in w && !('A' <= c <= 'Z')
    ensures c in Lower(w)
  {
    var i :| 0 <= i < |w| && w[i] == c;
    assert Lower(w)[i] == c;
  }

  lemma NoEqualsSign(w: string)
    requires Lower(w) == "match"
    ensures '=' !in w
  {
    if '=' in w {
      LowerKeeps(w, '=');
    }
  }

  /** However it is spelled, and whatever follows it, a line with the keyword Match is a Match directive. */
  lemma MatchIsRecognised(words: seq<string>)
    requires words != [] && forall w | w in words :: Quotable(w)
    requires Lower(words[0]) == "match" && (|words| > 1 ==> words[1] != "=")
    ensures Parse(Sentence(words)) == Match
  {
    NoEqualsSign(words[0]);
    SentenceParses(words);
  }

  function Directives(lines: seq<string>): (ds: seq<Directive>)
    ensures |ds| == |lines|
  {
    seq(|lines|, i requires 0 <= i < |lines| => Parse(lines[i]))
  }

  // ----- patterns -----

  predicate Negated(pattern: string) { pattern != "" && pattern[0] == '!' }

  function Stem(pattern: string): string { if Negated(pattern) then pattern[1..] else pattern }

  /** Some positive pattern matches and no negated one does. */
  predicate Selects(patterns: seq<string>, alias: string, globs: Globs) {
    && (exists p :: p in patterns && !Negated(p) && globs(p, alias))
    && (forall p | p in patterns && Negated(p) :: !globs(Stem(p), alias))
  }

  method MatchesAlias(patterns: seq<string>, alias: string, globs: Globs) returns (positive: bool)
    ensures positive <==> Selects(patterns, alias, globs)
  {
    positive := false;
    for i := 0 to |patterns|
      invariant positive <==> exists p :: p in patterns[..i] && !Negated(p) && globs(p, alias)
      invariant forall p | p in patterns[..i] && Negated(p) :: !globs(Stem(p), alias)
    {
      var pattern := patterns[i];
      assert patterns[..i + 1] == patterns[..i] + [pattern];
      assert pattern in patterns;
      var matches := globs(Stem(pattern), alias);
      if matches && Negated(pattern) {
        return false;
      }
      if matches {
        positive := true;
      }
    }
    assert patterns[..|patterns|] == patterns;
  }

  /** Selected is what some pattern without an exclamation mark matches, and none behind such a mark does. */
  lemma ExclamationMarkExcludes(patterns: seq<string>, alias: string, globs: Globs)
    ensures Selects(patterns, alias, globs) <==>
      && (exists p :: p in patterns && !(['!'] <= p) && globs(p, alias))
      && (forall q | ['!'] + q in patterns :: !globs(q, alias))
  {
    forall p | p in patterns && Negated(p) ensures ['!'] + Stem(p) == p && Stem(p) == p[1..] {
    }
    forall q | ['!'] + q in patterns ensures Negated(['!'] + q) && Stem(['!'] + q) == q {
      assert (['!'] + q)[1..] == q;
    }
  }

  /** The order of patterns does not matter, nor does repeating them. */
  lemma PatternOrderIsIrrelevant(a: seq<string>, b: seq<string>, alias: string, globs: Globs)
    requires forall p :: p in a <==> p in b
    ensures Selects(a, alias, globs) == Selects(b, alias, globs)
  {
    if Selects(a, alias, globs) {
      var p :| p in a && !Negated(p) && globs(p, alias);
      assert p in b;
    }
  }

  // ----- blocks -----

  function AddTo(blocks: seq<Block>, d: Directive): seq<Block>
    requires blocks != []
  {
    match d
    case Nothing => blocks
    case Host(patterns) => blocks + [Block(patterns, [])]
    case Match => blocks + [Block([], [])]
    case Setting(key, value) =>
      var last := blocks[|blocks| - 1];
      blocks[|blocks| - 1 := last.(values := last.values + [(key, value)])]
  }

  const EVERYTHING: seq<string> := ["*"]

  function Blocks(ds: seq<Directive>): (b: seq<Block>)
    ensures b != []
  {
    if ds == [] then [Block(EVERYTHING, [])]
    else AddTo(Blocks(ds[..|ds| - 1]), ds[|ds| - 1])
  }

  predicate Explicit(pattern: string) {
    !Negated(pattern) && '*' !in pattern && '?' !in pattern
  }

  function AddAliases(aliases: seq<string>, patterns: seq<string>): seq<string> {
    if patterns == [] then aliases
    else
      var before := AddAliases(aliases, patterns[..|patterns| - 1]);
      var last := patterns[|patterns| - 1];
      if Explicit(last) && |before| < MAX_ENTRIES && last !in before then before + [last] else before
  }

  function Aliases(ds: seq<Directive>): seq<string> {
    if ds == [] then []
    else
      var before, d := Aliases(ds[..|ds| - 1]), ds[|ds| - 1];
      if d.Host? then AddAliases(before, d.patterns) else before
  }

  method CollectAliases(aliases: seq<string>, patterns: seq<string>) returns (all: seq<string>)
    ensures all == AddAliases(aliases, patterns)
  {
    all := aliases;
    for i := 0 to |patterns|
      invariant all == AddAliases(aliases, patterns[..i])
    {
      var pattern := patterns[i];
      assert patterns[..i + 1][..i] == patterns[..i];
      if !Negated(pattern) && '*' !in pattern && '?' !in pattern && |all| < MAX_ENTRIES && pattern !in all {
        all := all + [pattern];
      }
    }
    assert patterns[..|patterns|] == patterns;
  }

  lemma NextLine(ds: seq<Directive>, i: nat)
    requires i < |ds|
    ensures Blocks(ds[..i + 1]) == AddTo(Blocks(ds[..i]), ds[i])
    ensures Aliases(ds[..i + 1])
            == if ds[i].Host? then AddAliases(Aliases(ds[..i]), ds[i].patterns) else Aliases(ds[..i])
  {
    assert ds[..i + 1][..i] == ds[..i];
  }

  method BuildBlocks(lines: seq<string>) returns (blocks: seq<Block>, aliases: seq<string>)
    ensures blocks == Blocks(Directives(lines)) && aliases == Aliases(Directives(lines))
  {
    ghost var ds := Directives(lines);
    blocks := [Block(EVERYTHING, [])];
    aliases := [];
    for i := 0 to |lines|
      invariant blocks == Blocks(ds[..i]) && aliases == Aliases(ds[..i])
    {
      NextLine(ds, i);
      var words := SplitWords(lines[i]);
      if words == [] {
        continue;
      }
      var key := Lower(words[0]);
      if key == "host" {
        if |words| < 2 {
          continue;
        }
        aliases := CollectAliases(aliases, words[1..]);
        blocks := blocks + [Block(words[1..], [])];
      } else if key == "match" {
        blocks := blocks + [Block([], [])];
      } else if |words| >= 2 {
        var last := blocks[|blocks| - 1];
        blocks := blocks[|blocks| - 1 := last.(values := last.values + [(key, words[1])])];
      }
    }
    assert ds[..|lines|] == ds;
  }

  // ----- resolution -----

  /** The values of the blocks that match, in order. */
  function Flatten(blocks: seq<Block>, alias: string, globs: Globs): seq<(string, string)> {
    if blocks == [] then []
    else
      var last := blocks[|blocks| - 1];
      Flatten(blocks[..|blocks| - 1], alias, globs) + if Selects(last.patterns, alias, globs) then last.values else []
  }

  function FirstOf(settings: seq<(string, string)>, key: string): Option<string> {
    if settings == [] then None
    else if settings[0].0 == key then Some(settings[0].1)
    else FirstOf(settings[1..], key)
  }

  lemma {:induction false} FirstOfConcat(a: seq<(string, string)>, b: seq<(string, string)>, key: string)
    ensures FirstOf(a + b, key) == if FirstOf(a, key).Some? then FirstOf(a, key) else FirstOf(b, key)
  {
    if a == [] {
      assert a + b == b;
    } else {
      FirstOfConcat(a[1..], b, key);
      assert (a + b)[1..] == a[1..] + b;
    }
  }

  lemma FlattenNext(blocks: seq<Block>, i: nat, alias: string, globs: Globs)
    requires i < |blocks|
    ensures Flatten(blocks[..i + 1], alias, globs)
            == Flatten(blocks[..i], alias, globs)
               + if Selects(blocks[i].patterns, alias, globs) then blocks[i].values else []
  {
    assert blocks[..i + 1][..i] == blocks[..i] && blocks[..i + 1][i] == blocks[i];
  }

  /** `values` holds the first value of every recognised option. */
  ghost predicate FirstValues(values: map<string, string>, settings: seq<(string, string)>) {
    forall key ::
      && (key in values <==> key in RECOGNISED && FirstOf(settings, key).Some?)
      && (key in values ==> values[key] == FirstOf(settings, key).value)
  }

  lemma FirstValuesNext(values: map<string, string>, settings: seq<(string, string)>, key: string, value: string)
    requires FirstValues(values, settings)
    ensures FirstValues(if key in RECOGNISED && key !in values then values[key := value] else values,
                        settings + [(key, value)])
  {
    forall k
      ensures FirstOf(settings + [(key, value)], k) ==
              if FirstOf(settings, k).Some? then FirstOf(settings, k) else if k == key then Some(value) else None
    {
      FirstOfConcat(settings, [(key, value)], k);
    }
  }

  method ResolveOptions(blocks: seq<Block>, alias: string, globs: Globs) returns (values: map<string, string>)
    ensures FirstValues(values, Flatten(blocks, alias, globs))
  {
    values := map[];
    for i := 0 to |blocks|
      invariant FirstValues(values, Flatten(blocks[..i], alias, globs))
    {
      ghost var before := Flatten(blocks[..i], alias, globs);
      FlattenNext(blocks, i, alias, globs);
      var matches := MatchesAlias(blocks[i].patterns, alias, globs);
      if !matches {
        assert before + [] == before;
        continue;
      }
      var offered := blocks[i].values;
      assert before + offered[..0] == before;
      for j := 0 to |offered|
        invariant FirstValues(values, before + offered[..j])
      {
        var (key, value) := offered[j];
        FirstValuesNext(values, before + offered[..j], key, value);
        assert before + offered[..j] + [(key, value)] == before + offered[..j + 1];
        if key in RECOGNISED && key !in values {
          values := values[key := value];
        }
      }
      assert offered[..|offered|] == offered;
    }
    assert blocks[..|blocks|] == blocks;
  }

  // ----- what resolution means, line by line -----

  /** The patterns in force at line `n`: those of the last Host line before it; a Match line leaves none. */
  function Scope(ds: seq<Directive>, n: nat): seq<string>
    requires n <= |ds|
  {
    if n == 0 then ["*"]
    else
      match ds[n - 1]
      case Host(patterns) => patterns
      case Match => []
      case _ => Scope(ds, n - 1)
  }

  /** Line `n` gives `alias` a value for `key`. */
  predicate Offers(ds: seq<Directive>, n: nat, key: string, alias: string, globs: Globs)
    requires n < |ds|
  {
    ds[n].Setting? && ds[n].key == key && Selects(Scope(ds, n), alias, globs)
  }

  /** Line `n` is the first to do so. */
  ghost predicate FirstOffer(ds: seq<Directive>, n: nat, key: string, alias: string, globs: Globs)
    requires n < |ds|
  {
    Offers(ds, n, key, alias, globs) && forall m | 0 <= m < n :: !Offers(ds, m, key, alias, globs)
  }

  function Offered(ds: seq<Directive>, n: nat, alias: string, globs: Globs): seq<(string, string)>
    requires n < |ds|
  {
    if ds[n].Setting? && Selects(Scope(ds, n), alias, globs) then [(ds[n].key, ds[n].value)] else []
  }

  /** Every value the file gives `alias`, in file order. */
  function Effective(ds: seq<Directive>, alias: string, globs: Globs): seq<(string, string)> {
    if ds == [] then []
    else Effective(ds[..|ds| - 1], alias, globs) + Offered(ds, |ds| - 1, alias, globs)
  }

  lemma {:induction false} ScopeOfPrefix(ds: seq<Directive>, m: nat, n: nat)
    requires n <= m <= |ds|
    ensures Scope(ds[..m], n) == Scope(ds, n)
  {
    if n > 0 {
      ScopeOfPrefix(ds, m, n - 1);
    }
  }

  /** The blocks give an alias just the values the lines give it. */
  lemma {:induction false} BlocksAreFaithful(ds: seq<Directive>, alias: string, globs: Globs)
    ensures Flatten(Blocks(ds), alias, globs) == Effective(ds, alias, globs)
    ensures Blocks(ds)[|Blocks(ds)| - 1].patterns == Scope(ds, |ds|)
  {
    if ds == [] {
      assert Blocks(ds)[..0] == [];
    } else {
      var n := |ds| - 1;
      BlocksAreFaithful(ds[..n], alias, globs);
      ScopeOfPrefix(ds, n, n);
      FlattenAdd(Blocks(ds[..n]), ds[n], alias, globs);
    }
  }

  lemma FlattenAdd(blocks: seq<Block>, d: Directive, alias: string, globs: Globs)
    requires blocks != []
    ensures var last := blocks[|blocks| - 1];
            Flatten(AddTo(blocks, d), alias, globs)
            == Flatten(blocks, alias, globs)
               + if d.Setting? && Selects(last.patterns, alias, globs) then [(d.key, d.value)] else []
  {
    var after := AddTo(blocks, d);
    if d.Setting? {
      assert after[..|after| - 1] == blocks[..|blocks| - 1];
    } else if d != Nothing {
      assert after[..|after| - 1] == blocks;
    }
  }

  /** The first effective value of a key is the one on its first line in scope. */
  lemma {:induction false} FirstIsFirstLine(ds: seq<Directive>, key: string, alias: string, globs: Globs)
    ensures var first := FirstOf(Effective(ds, alias, globs), key);
            && (first.None? <==> forall n | 0 <= n < |ds| :: !Offers(ds, n, key, alias, globs))
            && (first.Some? ==>
                  exists n :: 0 <= n < |ds| && FirstOffer(ds, n, key, alias, globs) && ds[n].value == first.value)
  {
    if ds != [] {
      var n := |ds| - 1;
      var init := ds[..n];
      FirstIsFirstLine(init, key, alias, globs);
      OffersInPrefix(ds, n, key, alias, globs);
      var before := FirstOf(Effective(init, alias, globs), key);
      FirstOfConcat(Effective(init, alias, globs), Offered(ds, n, alias, globs), key);
      if before.Some? {
        var k :| 0 <= k < n && FirstOffer(init, k, key, alias, globs) && init[k].value == before.value;
        assert FirstOffer(ds, k, key, alias, globs) && ds[k].value == before.value;
      } else if Offers(ds, n, key, alias, globs) {
        assert FirstOffer(ds, n, key, alias, globs);
      }
    }
  }

  lemma OffersInPrefix(ds: seq<Directive>, n: nat, key: string, alias: string, globs: Globs)
    requires n <= |ds|
    ensures forall m | 0 <= m < n :: Offers(ds[..n], m, key, alias, globs) == Offers(ds, m, key, alias, globs)
  {
    forall m | 0 <= m < n ensures Offers(ds[..n], m, key, alias, globs) == Offers(ds, m, key, alias, globs) {
      ScopeOfPrefix(ds, n, m);
    }
  }

  /** The eleven options an import looks at. */
  predicate IsOption(key: string) {
    || key == "hostname" || key == "user" || key == "port" || key == "identityfile" || key == "identitiesonly"
    || key == "proxyjump" || key == "connecttimeout" || key == "serveraliveinterval" || key == "serveralivecountmax"
    || key == "hostkeyalias" || key == "userknownhostsfile"
  }

  /**
    What resolving an alias means: an option has a value exactly when it is recognised and some line in scope sets it,
    and then the value of the first such line.
  */
  ghost predicate Resolved(ds: seq<Directive>, key: string, alias: string, globs: Globs, values: map<string, string>) {
    && (key in values <==> IsOption(key) && exists n :: 0 <= n < |ds| && Offers(ds, n, key, alias, globs))
    && (key in values ==>
          exists n :: 0 <= n < |ds| && FirstOffer(ds, n, key, alias, globs) && ds[n].value == values[key])
  }

  method ResolveAlias(lines: seq<string>, alias: string, globs: Globs) returns (values: map<string, string>)
    ensures forall key :: Resolved(Directives(lines), key, alias, globs, values)
  {
    ghost var ds := Directives(lines);
    var blocks, _ := BuildBlocks(lines);
    values := ResolveOptions(blocks, alias, globs);
    ResolvedByBlocks(ds, alias, globs, values);
  }

  /** Resolving over the blocks is resolving line by line. */
  lemma ResolvedByBlocks(ds: seq<Directive>, alias: string, globs: Globs, values: map<string, string>)
    requires FirstValues(values, Flatten(Blocks(ds), alias, globs))
    ensures forall key :: Resolved(ds, key, alias, globs, values)
  {
    BlocksAreFaithful(ds, alias, globs);
    forall key ensures Resolved(ds, key, alias, globs, values) {
      FirstIsFirstLine(ds, key, alias, globs);
    }
  }

  /** Nothing between a Match line and the next Host line reaches any alias. */
  lemma {:induction false} MatchContributesNothing(ds: seq<Directive>, m: nat, n: nat, key: string, alias: string,
                                                   globs: Globs)
    requires m < n < |ds| && ds[m].Match?
    requires forall i | m < i < n :: !ds[i].Host?
    ensures Scope(ds, n) == [] && !Offers(ds, n, key, alias, globs)
  {
    if m + 1 < n {
      MatchContributesNothing(ds, m, n - 1, key, alias, globs);
    }
  }

  // ----- aliases -----

  ghost predicate NamedBy(ds: seq<Directive>, alias: string) {
    exists n :: 0 <= n < |ds| && ds[n].Host? && alias in ds[n].patterns
  }

  lemma {:induction false} AddAliasesAdds(aliases: seq<string>, patterns: seq<string>)
    requires Distinct(aliases) && |aliases| <= MAX_ENTRIES
    ensures var all := AddAliases(aliases, patterns);
            && Distinct(all) && |all| <= MAX_ENTRIES && aliases <= all
            && (forall a | a in all :: a in aliases || (a in patterns && Explicit(a)))
            && (|all| < MAX_ENTRIES ==> forall a | a in patterns && Explicit(a) :: a in all)
  {
    if patterns != [] {
      AddAliasesAdds(aliases, patterns[..|patterns| - 1]);
      assert patterns == patterns[..|patterns| - 1] + [patterns[|patterns| - 1]];
    }
  }

  lemma NamedNext(ds: seq<Directive>, n: nat, alias: string)
    requires n < |ds|
    ensures NamedBy(ds[..n + 1], alias) <==> NamedBy(ds[..n], alias) || (ds[n].Host? && alias in ds[n].patterns)
  {
    var before, after := ds[..n], ds[..n + 1];
    if NamedBy(before, alias) {
      var i :| 0 <= i < n && before[i].Host? && alias in before[i].patterns;
      assert after[i] == before[i];
    }
    if NamedBy(after, alias) {
      var i :| 0 <= i < n + 1 && after[i].Host? && alias in after[i].patterns;
      assert i < n ==> before[i] == after[i];
    }
    assert after[n] == ds[n];
  }

  /** The aliases are the explicit patterns of the Host lines, each once: all of them unless there are 512 already. */
  lemma {:induction false} AliasesAreNamed(ds: seq<Directive>)
    ensures var all := Aliases(ds);
            && Distinct(all) && |all| <= 512
            && (forall a | a in all :: !(['!'] <= a) && '*' !in a && '?' !in a && NamedBy(ds, a))
            && (|all| < 512 ==>
                  forall a | NamedBy(ds, a) && !(['!'] <= a) && '*' !in a && '?' !in a :: a in all)
  {
    if ds != [] {
      var n := |ds| - 1;
      AliasesAreNamed(ds[..n]);
      if ds[n].Host? {
        AddAliasesAdds(Aliases(ds[..n]), ds[n].patterns);
      }
      assert ds[..n + 1] == ds;
      forall a ensures NamedBy(ds, a) <==> NamedBy(ds[..n], a) || (ds[n].Host? && a in ds[n].patterns) {
        NamedNext(ds, n, a);
      }
    }
  }
}
