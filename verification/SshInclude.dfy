/**
  Reading an OpenSSH configuration with its include files.  The file system, path canonicalisation and
  glob expansion answer from outside; limits and bookkeeping are the importer's own.

  `Read` and its companions say what reading computes; the importer does it on its fields.
*/
module SshInclude {
  import opened Wrappers
  import opened Domain
  import opened Utf8
  import opened SshWords

  const MAX_BYTES: nat := 2 * 1024 * 1024
  const MAX_FILES: nat := 32
  const MAX_WARNINGS: nat := 64
  const INCLUDE: string := "include"

  /** `glob` lists what an include word of a file matches; an entry is None where it could not be listed. */
  datatype FileSystem = FileSystem(
    canonicalize: Path -> Option<Path>,
    size: Path -> Option<nat>,
    content: Path -> Option<seq<Byte>>,
    glob: (Path, string) -> Option<seq<Option<Path>>>)

  datatype ImportError = Io | TooLarge | NotUtf8

  datatype Warning =
    | IncludeFileLimit
    | IncludeFailed(child: Path, error: ImportError)
    | EntryFailed
    | PatternFailed(pattern: string)

  /** `taken` records the files whose bytes were taken, in order. */
  datatype State = State(
    bytes: nat, files: nat, visited: set<Path>, warnings: seq<Warning>, lines: seq<string>, taken: seq<Path>)

  const EMPTY: State := State(0, 0, {}, [], [], [])

  function Warn(st: State, w: Warning): State {
    if |st.warnings| < MAX_WARNINGS then st.(warnings := st.warnings + [w]) else st
  }

  predicate IsInclude(words: seq<string>) {
    words != [] && Lower(words[0]) == INCLUDE
  }

  /** A file's bytes, if they fit what is left of the budget. */
  function Load(fs: FileSystem, p: Path, used: nat): (r: Result<seq<Byte>, ImportError>)
    ensures r.Ok? ==> fs.content(p) == Some(r.value) && (used <= MAX_BYTES ==> used + |r.value| <= MAX_BYTES)
  {
    var remaining := if used <= MAX_BYTES then MAX_BYTES - used else 0;
    var size, bytes := fs.size(p), fs.content(p);
    if size.None? then Err(Io)
    else if size.value > remaining then Err(TooLarge)
    else if bytes.None? then Err(Io)
    else if |bytes.value| > remaining then Err(TooLarge)
    else Ok(bytes.value)
  }

  function Total(fs: FileSystem, files: seq<Path>): nat {
    if files == [] then 0
    else
      var bytes := fs.content(files[|files| - 1]);
      Total(fs, files[..|files| - 1]) + if bytes.Some? then |bytes.value| else 0
  }

  /** The limits hold, nothing was read twice, and the counters are exact. */
  ghost predicate Accounted(fs: FileSystem, st: State) {
    && st.files == |st.visited| <= MAX_FILES
    && Distinct(st.taken) && (forall p | p in st.taken :: p in st.visited)
    && st.bytes == Total(fs, st.taken) <= MAX_BYTES
    && |st.warnings| <= MAX_WARNINGS
  }

  function Taken(st: State, p: Path, bytes: seq<Byte>): State {
    st.(bytes := st.bytes + |bytes|, taken := st.taken + [p])
  }

  function Entered(st: State, p: Path): State {
    st.(visited := st.visited + {p}, files := st.files + 1)
  }

  lemma TakenAccounts(fs: FileSystem, st: State, p: Path, bytes: seq<Byte>)
    requires Accounted(fs, st) && st.files < MAX_FILES && p !in st.visited && Load(fs, p, st.bytes) == Ok(bytes)
    ensures Accounted(fs, Taken(Entered(st, p), p, bytes))
  {
    var files := st.taken + [p];
    assert files[..|files| - 1] == st.taken;
  }

  function Read(fs: FileSystem, path: Path, st: State): (r: (Result<(), ImportError>, State))
    requires st.files <= MAX_FILES
    ensures r.1.files >= st.files && (st.files < MAX_FILES ==> r.1.files <= MAX_FILES)
    ensures st.files < MAX_FILES && Accounted(fs, st) ==> Accounted(fs, r.1)
    decreases MAX_FILES - st.files, 0, 0
  {
    var canonical := fs.canonicalize(path);
    if canonical.None? then (Err(Io), st)
    else if canonical.value in st.visited then (Ok(()), st)
    else
      var p := canonical.value;
      var entered := Entered(st, p);
      if entered.files > MAX_FILES then (Err(TooLarge), entered)
      else
        match Load(fs, p, st.bytes)
        case Err(e) => (Err(e), entered)
        case Ok(bytes) =>
          var now := Taken(entered, p, bytes);
          assert Accounted(fs, st) ==> Accounted(fs, now) by {
            if Accounted(fs, st) { TakenAccounts(fs, st, p, bytes); }
          }
          var text := Decode(bytes);
          if text.None? then (Err(NotUtf8), now)
          else (Ok(()), ReadAll(fs, p, Lines(text.value), now))
  }

  /** Copies the lines of file `p`, replacing each include by what it includes. */
  function ReadAll(fs: FileSystem, p: Path, lines: seq<string>, st: State): (r: State)
    requires st.files <= MAX_FILES
    ensures st.files <= r.files <= MAX_FILES && (Accounted(fs, st) ==> Accounted(fs, r))
    decreases MAX_FILES - st.files, 3, |lines|
  {
    if lines == [] then st
    else
      var words := Words(lines[0]);
      var next := if IsInclude(words) then Follow(fs, p, words[1..], st) else st.(lines := st.lines + [lines[0]]);
      ReadAll(fs, p, lines[1..], next)
  }

  function Follow(fs: FileSystem, p: Path, words: seq<string>, st: State): (r: State)
    requires st.files <= MAX_FILES
    ensures st.files <= r.files <= MAX_FILES && (Accounted(fs, st) ==> Accounted(fs, r))
    decreases MAX_FILES - st.files, 2, |words|
  {
    if words == [] then st
    else
      var matches := fs.glob(p, words[0]);
      var next := if matches.None? then Warn(st, PatternFailed(words[0])) else Visit(fs, Few(matches.value), st);
      Follow(fs, p, words[1..], next)
  }

  function Few<T>(s: seq<T>): seq<T> {
    if |s| <= MAX_FILES + 1 then s else s[..MAX_FILES + 1]
  }

  function Visit(fs: FileSystem, matches: seq<Option<Path>>, st: State): (r: State)
    requires st.files <= MAX_FILES
    ensures st.files <= r.files <= MAX_FILES && (Accounted(fs, st) ==> Accounted(fs, r))
    decreases MAX_FILES - st.files, 1, |matches|
  {
    if matches == [] then st
    else if st.files >= MAX_FILES then Warn(st, IncludeFileLimit)
    else Visit(fs, matches[1..], VisitOne(fs, matches[0], st))
  }

  function VisitOne(fs: FileSystem, found: Option<Path>, st: State): (r: State)
    requires st.files < MAX_FILES
    ensures st.files <= r.files <= MAX_FILES && (Accounted(fs, st) ==> Accounted(fs, r))
    decreases MAX_FILES - st.files, 0, 1
  {
    match found
    case None => Warn(st, EntryFailed)
    case Some(child) =>
      var (result, next) := Read(fs, child, st);
      if result.Err? then Warn(next, IncludeFailed(child, result.error)) else next
  }

  /**
    However the files include each other, reading ends; each canonical file is read at most once, at most 32 of
    them and at most 2 MiB in all.
  */
  lemma ReadingIsBounded(fs: FileSystem, path: Path)
    ensures var st := Read(fs, path, EMPTY).1;
            && |st.taken| <= |st.visited| <= 32
            && Distinct(st.taken) && Total(fs, st.taken) <= 2_097_152
  {
    var st := Read(fs, path, EMPTY).1;
    assert Accounted(fs, EMPTY);
    DistinctIsSmall(st.taken, st.visited);
  }

  lemma {:induction false} DistinctIsSmall(files: seq<Path>, within: set<Path>)
    requires Distinct(files) && forall p | p in files :: p in within
    ensures |files| <= |within|
  {
    if files != [] {
      var p := files[0];
      DistinctIsSmall(files[1..], within - {p});
    }
  }

  // ----- nothing is missed in silence -----

  /** An entry that include word `w` of a file matched has been read. */
  ghost predicate Found(fs: FileSystem, m: Option<Path>, visited: set<Path>) {
    m.Some? && fs.canonicalize(m.value).Some? && fs.canonicalize(m.value).value in visited
  }

  ghost predicate AllFound(fs: FileSystem, matches: seq<Option<Path>>, visited: set<Path>) {
    forall m | m in matches :: Found(fs, m, visited)
  }

  /** Of a word's matches only the first 33 are ever looked at. */
  ghost predicate Followed(fs: FileSystem, p: Path, words: seq<string>, visited: set<Path>) {
    forall w | w in words ::
      fs.glob(p, w).Some?
      && AllFound(fs, if |fs.glob(p, w).value| <= 33 then fs.glob(p, w).value else fs.glob(p, w).value[..33], visited)
  }

  ghost predicate Included(fs: FileSystem, p: Path, lines: seq<string>, visited: set<Path>) {
    forall line | line in lines && Words(line) != [] && Lower(Words(line)[0]) == "include" ::
      Followed(fs, p, Words(line)[1..], visited)
  }

  /** The file could be read, and so could whatever it includes. */
  ghost predicate Complete(fs: FileSystem, p: Path, visited: set<Path>) {
    && fs.content(p).Some? && Decode(fs.content(p).value).Some?
    && Included(fs, p, Lines(Decode(fs.content(p).value).value), visited)
  }

  /** From `st` to `r` no warning has been given, though there was room for one. */
  ghost predicate Silent(st: State, r: State) { r.warnings == st.warnings && |r.warnings| < MAX_WARNINGS }

  ghost predicate AddsComplete(fs: FileSystem, st: State, r: State) {
    st.visited <= r.visited && forall p | p in r.visited && p !in st.visited :: Complete(fs, p, r.visited)
  }

  lemma StillIncluded(fs: FileSystem, p: Path, lines: seq<string>, visited: set<Path>, more: set<Path>)
    requires visited <= more && Included(fs, p, lines, visited)
    ensures Included(fs, p, lines, more)
  {
  }

  lemma StillComplete(fs: FileSystem, st: State, mid: State, r: State)
    requires AddsComplete(fs, st, mid) && AddsComplete(fs, mid, r)
    ensures AddsComplete(fs, st, r)
  {
    forall p | p in mid.visited && p !in st.visited ensures Complete(fs, p, r.visited) {
      StillIncluded(fs, p, Lines(Decode(fs.content(p).value).value), mid.visited, r.visited);
    }
  }

  lemma ReadMisses(fs: FileSystem, path: Path, st: State)
    requires st.files <= MAX_FILES
    ensures var (result, r) := Read(fs, path, st);
            && st.warnings <= r.warnings
            && (result.Ok? && Silent(st, r) ==> Found(fs, Some(path), r.visited) && AddsComplete(fs, st, r))
    decreases MAX_FILES - st.files, 0, 0
  {
    var canonical := fs.canonicalize(path);
    if canonical.Some? && canonical.value !in st.visited && st.files < MAX_FILES {
      var p := canonical.value;
      var entered := Entered(st, p);
      var loaded := Load(fs, p, st.bytes);
      if loaded.Ok? && Decode(loaded.value).Some? {
        var lines, now := Lines(Decode(loaded.value).value), Taken(entered, p, loaded.value);
        ReadAllMisses(fs, p, lines, now);
        var r := ReadAll(fs, p, lines, now);
        assert Read(fs, path, st) == (Ok(()), r);
      }
    }
  }

  lemma ReadAllMisses(fs: FileSystem, p: Path, lines: seq<string>, st: State)
    requires st.files <= MAX_FILES
    ensures var r := ReadAll(fs, p, lines, st);
            st.warnings <= r.warnings
            && (Silent(st, r) ==> Included(fs, p, lines, r.visited) && AddsComplete(fs, st, r))
    decreases MAX_FILES - st.files, 3, |lines|
  {
    if lines != [] {
      var words := Words(lines[0]);
      var next := if IsInclude(words) then Follow(fs, p, words[1..], st) else st.(lines := st.lines + [lines[0]]);
      if IsInclude(words) {
        FollowMisses(fs, p, words[1..], st);
      }
      ReadAllMisses(fs, p, lines[1..], next);
      var r := ReadAll(fs, p, lines[1..], next);
      if Silent(st, r) {
        StillComplete(fs, st, next, r);
        if IsInclude(words) {
          StillFollowed(fs, p, words[1..], next.visited, r.visited);
        }
        assert forall line | line in lines :: line == lines[0] || line in lines[1..];
      }
    }
  }

  lemma StillFollowed(fs: FileSystem, p: Path, words: seq<string>, visited: set<Path>, more: set<Path>)
    requires visited <= more && Followed(fs, p, words, visited)
    ensures Followed(fs, p, words, more)
  {
  }

  lemma FollowMisses(fs: FileSystem, p: Path, words: seq<string>, st: State)
    requires st.files <= MAX_FILES
    ensures var r := Follow(fs, p, words, st);
            st.warnings <= r.warnings
            && (Silent(st, r) ==> Followed(fs, p, words, r.visited) && AddsComplete(fs, st, r))
    decreases MAX_FILES - st.files, 2, |words|
  {
    if words != [] {
      var matches := fs.glob(p, words[0]);
      var next := if matches.None? then Warn(st, PatternFailed(words[0])) else Visit(fs, Few(matches.value), st);
      if matches.Some? {
        VisitMisses(fs, Few(matches.value), st);
      }
      FollowMisses(fs, p, words[1..], next);
      var r := Follow(fs, p, words[1..], next);
      if Silent(st, r) {
        StillComplete(fs, st, next, r);
        assert forall w | w in words :: w == words[0] || w in words[1..];
      }
    }
  }

  lemma VisitMisses(fs: FileSystem, matches: seq<Option<Path>>, st: State)
    requires st.files <= MAX_FILES
    ensures var r := Visit(fs, matches, st);
            st.warnings <= r.warnings
            && (Silent(st, r) ==> AllFound(fs, matches, r.visited) && AddsComplete(fs, st, r))
    decreases MAX_FILES - st.files, 1, |matches|
  {
    if matches != [] && st.files < MAX_FILES {
      var next := VisitOne(fs, matches[0], st);
      if matches[0].Some? {
        ReadMisses(fs, matches[0].value, st);
      }
      VisitMisses(fs, matches[1..], next);
      var r := Visit(fs, matches[1..], next);
      if Silent(st, r) {
        StillComplete(fs, st, next, r);
        assert forall m | m in matches :: m == matches[0] || m in matches[1..];
      }
    }
  }

  /**
    A reading that gives no warning has missed nothing: every file it has read could be read, and whatever any of them
    includes has been read as well, in circles or not.
  */
  lemma SilenceMeansComplete(fs: FileSystem, path: Path)
    requires Read(fs, path, EMPTY).0.Ok? && Read(fs, path, EMPTY).1.warnings == []
    ensures var st := Read(fs, path, EMPTY).1;
            Found(fs, Some(path), st.visited) && forall p | p in st.visited :: Complete(fs, p, st.visited)
  {
    ReadMisses(fs, path, EMPTY);
    var st := Read(fs, path, EMPTY).1;
    assert Silent(EMPTY, st);
  }

  // ----- plain inline expansion -----

  /** A finite tree of files and what they include: for each include word, the files it names. */
  datatype Tree = File(path: Path, canonical: Path, parts: seq<Part>)

  datatype Part = Text(line: string) | Include(groups: seq<Group>)

  datatype Group = Group(trees: seq<Tree>)

  /** The files of a tree and its lines, both depth first, every include replaced by what it names. */
  datatype Unfolded = Unfolded(files: seq<Path>, lines: seq<string>)

  function Join(a: Unfolded, b: Unfolded): Unfolded { Unfolded(a.files + b.files, a.lines + b.lines) }

  function Expand(t: Tree): (u: Unfolded)
    ensures |u.files| >= 1
    decreases t
  {
    Join(Unfolded([t.canonical], []), ExpandParts(t.parts))
  }

  function ExpandParts(parts: seq<Part>): Unfolded
    decreases parts
  {
    if parts == [] then Unfolded([], [])
    else
      var first := match parts[0] case Text(line) => Unfolded([], [line]) case Include(groups) => ExpandGroups(groups);
      Join(first, ExpandParts(parts[1..]))
  }

  function ExpandGroups(groups: seq<Group>): Unfolded
    decreases groups
  {
    if groups == [] then Unfolded([], []) else Join(ExpandTrees(groups[0].trees), ExpandGroups(groups[1..]))
  }

  function ExpandTrees(trees: seq<Tree>): (u: Unfolded)
    ensures |u.files| >= |trees|
    decreases trees
  {
    if trees == [] then Unfolded([], []) else Join(Expand(trees[0]), ExpandTrees(trees[1..]))
  }

  /** The tree is what the file system holds, and nothing in it fails. */
  ghost predicate Describes(fs: FileSystem, t: Tree)
    decreases t
  {
    && fs.canonicalize(t.path) == Some(t.canonical)
    && fs.content(t.canonical).Some?
    && fs.size(t.canonical) == Some(|fs.content(t.canonical).value|)
    && Decode(fs.content(t.canonical).value).Some?
    && DescribesParts(fs, t.canonical, Lines(Decode(fs.content(t.canonical).value).value), t.parts)
  }

  ghost predicate DescribesParts(fs: FileSystem, p: Path, lines: seq<string>, parts: seq<Part>)
    decreases parts
  {
    if parts == [] || lines == [] then parts == [] && lines == []
    else
      && DescribesPart(fs, p, lines[0], parts[0])
      && DescribesParts(fs, p, lines[1..], parts[1..])
  }

  ghost predicate DescribesPart(fs: FileSystem, p: Path, line: string, part: Part)
    decreases part
  {
    match part
    case Text(l) => l == line && (Words(line) == [] || Lower(Words(line)[0]) != "include")
    case Include(groups) =>
      Words(line) != [] && Lower(Words(line)[0]) == "include" && DescribesGroups(fs, p, Words(line)[1..], groups)
  }

  ghost predicate DescribesGroups(fs: FileSystem, p: Path, words: seq<string>, groups: seq<Group>)
    decreases groups
  {
    if groups == [] || words == [] then groups == [] && words == []
    else
      && fs.glob(p, words[0]).Some?
      && DescribesTrees(fs, fs.glob(p, words[0]).value, groups[0].trees)
      && DescribesGroups(fs, p, words[1..], groups[1..])
  }

  ghost predicate DescribesTrees(fs: FileSystem, matches: seq<Option<Path>>, trees: seq<Tree>)
    decreases trees
  {
    if trees == [] || matches == [] then trees == [] && matches == []
    else
      && matches[0] == Some(trees[0].path)
      && Describes(fs, trees[0])
      && DescribesTrees(fs, matches[1..], trees[1..])
  }

  /** There is room for these files, and none of them has been read. */
  ghost predicate Fits(fs: FileSystem, st: State, files: seq<Path>) {
    && Distinct(files) && (forall p | p in files :: p !in st.visited)
    && st.files + |files| <= 32
    && st.bytes + Total(fs, files) <= 2_097_152
  }

  /** The state after reading exactly `u`, without a warning. */
  ghost function Grown(fs: FileSystem, st: State, u: Unfolded): State {
    State(st.bytes + Total(fs, u.files), st.files + |u.files|, st.visited + (set p | p in u.files), st.warnings,
          st.lines + u.lines, st.taken + u.files)
  }

  lemma {:induction false} TotalOf(fs: FileSystem, a: seq<Path>, b: seq<Path>)
    ensures Total(fs, a + b) == Total(fs, a) + Total(fs, b)
  {
    if b == [] {
      assert a + b == a;
    } else {
      TotalOf(fs, a, b[..|b| - 1]);
      assert (a + b)[..|a + b| - 1] == a + b[..|b| - 1];
    }
  }

  lemma GrownTwice(fs: FileSystem, st: State, a: Unfolded, b: Unfolded)
    ensures Grown(fs, Grown(fs, st, a), b) == Grown(fs, st, Join(a, b))
    ensures Grown(fs, st, Unfolded([], [])) == st
  {
    TotalOf(fs, a.files, b.files);
    assert st.lines + a.lines + b.lines == st.lines + (a.lines + b.lines);
    assert st.taken + a.files + b.files == st.taken + (a.files + b.files);
    assert (set p | p in a.files) + (set p | p in b.files) == set p | p in a.files + b.files;
    assert st.visited + (set p | p in a.files) + (set p | p in b.files) == st.visited + set p | p in a.files + b.files;
    assert st.lines + [] == st.lines && st.taken + [] == st.taken;
    var none: seq<Path> := [];
    assert st.visited + (set p | p in none) == st.visited;
  }

  lemma DistinctParts(a: seq<Path>, b: seq<Path>)
    requires Distinct(a + b)
    ensures Distinct(a) && Distinct(b) && forall p | p in b :: p !in a
  {
    var all := a + b;
    assert forall i | 0 <= i < |a| :: all[i] == a[i];
    assert forall i | 0 <= i < |b| :: all[|a| + i] == b[i];
  }

  lemma FitsBoth(fs: FileSystem, st: State, a: Unfolded, b: Unfolded)
    requires Fits(fs, st, Join(a, b).files)
    ensures Fits(fs, st, a.files) && Fits(fs, Grown(fs, st, a), b.files)
  {
    TotalOf(fs, a.files, b.files);
    DistinctParts(a.files, b.files);
    assert forall p | p in b.files :: p in a.files + b.files;
    assert forall p | p in a.files :: p in a.files + b.files;
  }

  /** Where nothing fails, nothing repeats and the limits suffice, reading is plain inline depth-first expansion. */
  lemma ReadExpands(fs: FileSystem, t: Tree, st: State)
    requires Describes(fs, t) && Fits(fs, st, Expand(t).files)
    ensures Read(fs, t.path, st) == (Ok(()), Grown(fs, st, Expand(t)))
    decreases t, 1
  {
    var head := Unfolded([t.canonical], []);
    FitsBoth(fs, st, head, ExpandParts(t.parts));
    var bytes := fs.content(t.canonical).value;
    HeadOf(fs, t.canonical, st);
    ReadAllExpands(fs, t.canonical, Lines(Decode(bytes).value), t.parts, Grown(fs, st, head));
    GrownTwice(fs, st, head, ExpandParts(t.parts));
  }

  lemma HeadOf(fs: FileSystem, p: Path, st: State)
    requires fs.content(p).Some?
    requires Fits(fs, st, [p])
    requires fs.size(p) == Some(|fs.content(p).value|)
    ensures Load(fs, p, st.bytes) == Ok(fs.content(p).value)
    ensures Taken(Entered(st, p), p, fs.content(p).value) == Grown(fs, st, Unfolded([p], []))
  {
    assert [p][..0] == [];
    assert Total(fs, [p]) == |fs.content(p).value|;
    assert (set q | q in [p]) == {p};
    assert st.lines + [] == st.lines;
  }

  lemma ReadAllExpands(fs: FileSystem, p: Path, lines: seq<string>, parts: seq<Part>, st: State)
    requires DescribesParts(fs, p, lines, parts) && Fits(fs, st, ExpandParts(parts).files)
    ensures ReadAll(fs, p, lines, st) == Grown(fs, st, ExpandParts(parts))
    decreases parts, 0
  {
    if parts == [] {
      GrownTwice(fs, st, Unfolded([], []), Unfolded([], []));
    } else {
      var first := match parts[0] case Text(line) => Unfolded([], [line]) case Include(groups) => ExpandGroups(groups);
      var rest := ExpandParts(parts[1..]);
      FitsBoth(fs, st, first, rest);
      if parts[0].Include? {
        FollowExpands(fs, p, Words(lines[0])[1..], parts[0].groups, st);
      } else {
        TextOf(fs, st, lines[0]);
      }
      ReadAllExpands(fs, p, lines[1..], parts[1..], Grown(fs, st, first));
      GrownTwice(fs, st, first, rest);
    }
  }

  lemma TextOf(fs: FileSystem, st: State, line: string)
    ensures st.(lines := st.lines + [line]) == Grown(fs, st, Unfolded([], [line]))
  {
    var none: seq<Path> := [];
    assert st.visited + (set p | p in none) == st.visited && st.taken + none == st.taken;
  }

  lemma FollowExpands(fs: FileSystem, p: Path, words: seq<string>, groups: seq<Group>, st: State)
    requires DescribesGroups(fs, p, words, groups) && Fits(fs, st, ExpandGroups(groups).files)
    ensures Follow(fs, p, words, st) == Grown(fs, st, ExpandGroups(groups))
    decreases groups
  {
    if groups == [] {
      GrownTwice(fs, st, Unfolded([], []), Unfolded([], []));
    } else {
      var first, rest := ExpandTrees(groups[0].trees), ExpandGroups(groups[1..]);
      FitsBoth(fs, st, first, rest);
      var matches := fs.glob(p, words[0]).value;
      OneMatchEach(fs, matches, groups[0].trees);
      VisitExpands(fs, matches, groups[0].trees, st);
      FollowExpands(fs, p, words[1..], groups[1..], Grown(fs, st, first));
      GrownTwice(fs, st, first, rest);
    }
  }

  lemma {:induction false} OneMatchEach(fs: FileSystem, matches: seq<Option<Path>>, trees: seq<Tree>)
    requires DescribesTrees(fs, matches, trees)
    ensures |matches| == |trees|
  {
    if trees != [] {
      OneMatchEach(fs, matches[1..], trees[1..]);
    }
  }

  lemma VisitExpands(fs: FileSystem, matches: seq<Option<Path>>, trees: seq<Tree>, st: State)
    requires DescribesTrees(fs, matches, trees) && Fits(fs, st, ExpandTrees(trees).files)
    ensures Visit(fs, matches, st) == Grown(fs, st, ExpandTrees(trees))
    decreases trees
  {
    if trees == [] {
      GrownTwice(fs, st, Unfolded([], []), Unfolded([], []));
    } else {
      var first, rest := Expand(trees[0]), ExpandTrees(trees[1..]);
      FitsBoth(fs, st, first, rest);
      ReadExpands(fs, trees[0], st);
      VisitExpands(fs, matches[1..], trees[1..], Grown(fs, st, first));
      GrownTwice(fs, st, first, rest);
    }
  }

  // ----- the importer -----

  class Importer {
    const fs: FileSystem
    var bytes: nat
    var files: nat
    var visited: set<Path>
    var warnings: seq<Warning>
    var lines: seq<string>
    ghost var taken: seq<Path>

    ghost function Contents(): State
      reads this
    {
      State(bytes, files, visited, warnings, lines, taken)
    }

    constructor (fs: FileSystem)
      ensures Contents() == EMPTY && this.fs == fs
    {
      this.fs := fs;
      bytes, files, visited, warnings, lines := 0, 0, {}, [], [];
      taken := [];
    }

    method AddWarning(w: Warning)
      modifies this`warnings
      ensures Contents() == Warn(old(Contents()), w)
    {
      if |warnings| < MAX_WARNINGS {
        warnings := warnings + [w];
      }
    }

    method ReadLines(path: Path) returns (r: Result<(), ImportError>)
      requires files <= MAX_FILES
      modifies this
      ensures (r, Contents()) == Read(fs, path, old(Contents()))
      decreases MAX_FILES - files, 0, 0
    {
      ghost var start := Contents();
      var canonical := fs.canonicalize(path);
      if canonical.None? {
        return Err(Io);
      }
      var p := canonical.value;
      if p in visited {
        return Ok(());
      }
      visited := visited + {p};
      files := files + 1;
      if files > MAX_FILES {
        return Err(TooLarge);
      }
      var loaded := Load(fs, p, bytes);
      if loaded.Err? {
        return Err(loaded.error);
      }
      bytes := bytes + |loaded.value|;
      taken := taken + [p];
      var text := Decode(loaded.value);
      if text.None? {
        return Err(NotUtf8);
      }
      CopyLines(p, Lines(text.value));
      return Ok(());
    }

    method CopyLines(p: Path, all: seq<string>)
      requires files <= MAX_FILES
      modifies this
      ensures Contents() == ReadAll(fs, p, all, old(Contents()))
      decreases MAX_FILES - files, 3, 0
    {
      ghost var start := Contents();
      var i := 0;
      while i < |all|
        invariant i <= |all| && start.files <= files <= MAX_FILES
        invariant ReadAll(fs, p, all[i..], Contents()) == ReadAll(fs, p, all, start)
      {
        var line := all[i];
        var words := SplitWords(line);
        assert all[i..][1..] == all[i + 1..];
        if IsInclude(words) {
          FollowIncludes(p, words[1..]);
        } else {
          lines := lines + [line];
        }
        i := i + 1;
      }
    }

    method FollowIncludes(p: Path, words: seq<string>)
      requires files <= MAX_FILES
      modifies this
      ensures Contents() == Follow(fs, p, words, old(Contents()))
      decreases MAX_FILES - files, 2, 0
    {
      ghost var start := Contents();
      var i := 0;
      while i < |words|
        invariant i <= |words| && start.files <= files <= MAX_FILES
        invariant Follow(fs, p, words[i..], Contents()) == Follow(fs, p, words, start)
      {
        var matches := fs.glob(p, words[i]);
        assert words[i..][1..] == words[i + 1..];
        if matches.None? {
          AddWarning(PatternFailed(words[i]));
        } else {
          VisitMatches(Few(matches.value));
        }
        i := i + 1;
      }
    }

    method VisitMatches(matches: seq<Option<Path>>)
      requires files <= MAX_FILES
      modifies this
      ensures Contents() == Visit(fs, matches, old(Contents()))
      decreases MAX_FILES - files, 1, 0
    {
      ghost var start := Contents();
      var i := 0;
      while i < |matches|
        invariant i <= |matches| && start.files <= files <= MAX_FILES
        invariant Visit(fs, matches[i..], Contents()) == Visit(fs, matches, start)
      {
        if files >= MAX_FILES {
          AddWarning(IncludeFileLimit);
          return;
        }
        assert matches[i..][1..] == matches[i + 1..];
        match matches[i] {
          case None => AddWarning(EntryFailed);
          case Some(child) =>
            var r := ReadLines(child);
            if r.Err? {
              AddWarning(IncludeFailed(child, r.error));
            }
        }
        i := i + 1;
      }
    }
  }
}
