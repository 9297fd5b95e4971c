/** The import preview: read the files, find the aliases, resolve each and turn its options into a host. */
module SshImport {
  import opened Wrappers
  import opened Domain
  import opened Schema
  import opened Validation
  import opened SshWords
  import SshInclude
  import opened SshResolve

  const NANOS_PER_SECOND: nat := 1_000_000_000
  const U16_MAX: nat := 0xFFFF
  const U32_MAX: nat := 0xFFFF_FFFF
  const U64_MAX: nat := 0xFFFF_FFFF_FFFF_FFFF
  const ID_PREFIX: string := "ssh-"

  /** Platform text handling: unsigned decimals, `%h`, the user's name and key paths. */
  datatype Texts = Texts(
    number: string -> Option<nat>,
    expandHost: (string, string) -> string,
    defaultUser: string,
    keyPath: string -> Path)

  function Value(values: map<string, string>, key: string, default: string): string {
    if key in values then values[key] else default
  }

  /** `parse` fails beyond the integer type's maximum. */
  function Number(values: map<string, string>, key: string, max: nat, default: nat, texts: Texts): nat {
    if key !in values then default
    else
      match texts.number(values[key])
      case Some(n) => if n <= max then n else default
      case None => default
  }

  function Clamp(n: nat, low: nat, high: nat): nat { if n < low then low else if n > high then high else n }

  function PortOf(values: map<string, string>, texts: Texts): nat {
    var port := Number(values, "port", U16_MAX, 22, texts);
    if port == 0 then 22 else port
  }

  function HostFor(alias: string, values: map<string, string>, texts: Texts): SshHost {
    SshHost(
      ID_PREFIX + alias,
      alias,
      texts.expandHost(Value(values, "hostname", alias), alias),
      PortOf(values, texts),
      Value(values, "user", texts.defaultUser),
      if "identityfile" in values then PrivateKey(texts.keyPath(values["identityfile"]), None) else Agent(None),
      Strict,
      Clamp(Number(values, "connecttimeout", U64_MAX, 10, texts), 1, U64_MAX) * NANOS_PER_SECOND,
      Clamp(Number(values, "serveraliveinterval", U64_MAX, 30, texts), 1, U64_MAX) * NANOS_PER_SECOND,
      Clamp(Number(values, "serveralivecountmax", U64_MAX, 3, texts), 1, U32_MAX),
      "")
  }

  /** `n` is what the option says within the bounds, or the default if it says nothing that fits its type. */
  ghost predicate Says(n: nat, values: map<string, string>, key: string, max: nat, low: nat, high: nat, default: nat,
                       texts: Texts)
  {
    if key in values && texts.number(values[key]).Some? && texts.number(values[key]).value <= max then
      var said := texts.number(values[key]).value;
      (said < low ==> n == low) && (said > high ==> n == high) && (low <= said <= high ==> n == said)
    else n == default
  }

  /** Every field of the host comes from its own option. */
  ghost predicate HostReads(h: SshHost, alias: string, values: map<string, string>, texts: Texts) {
    && h.id == "ssh-" + alias && h.name == alias && h.hostKeyPolicy == Strict && h.notes == ""
    && h.hostname == texts.expandHost(if "hostname" in values then values["hostname"] else alias, alias)
    && (if "port" in values && texts.number(values["port"]).Some? && 0 < texts.number(values["port"]).value <= 0xFFFF
        then h.port == texts.number(values["port"]).value else h.port == 22)
    && h.username == (if "user" in values then values["user"] else texts.defaultUser)
    && h.auth == (if "identityfile" in values then PrivateKey(texts.keyPath(values["identityfile"]), None)
                  else Agent(None))
    && h.connectTimeout % 1_000_000_000 == 0 && h.keepaliveInterval % 1_000_000_000 == 0
    && Says(h.connectTimeout / 1_000_000_000, values, "connecttimeout", U64_MAX, 1, U64_MAX, 10, texts)
    && Says(h.keepaliveInterval / 1_000_000_000, values, "serveraliveinterval", U64_MAX, 1, U64_MAX, 30, texts)
    && Says(h.keepaliveMax, values, "serveralivecountmax", U64_MAX, 1, U32_MAX, 3, texts)
  }

  lemma OptionsAreRead(alias: string, values: map<string, string>, texts: Texts)
    ensures HostReads(HostFor(alias, values, texts), alias, values, texts)
  {
    var connect := Clamp(Number(values, "connecttimeout", U64_MAX, 10, texts), 1, U64_MAX);
    var alive := Clamp(Number(values, "serveraliveinterval", U64_MAX, 30, texts), 1, U64_MAX);
    assert connect * NANOS_PER_SECOND / 1_000_000_000 == connect && alive * NANOS_PER_SECOND / 1_000_000_000 == alive;
  }

  datatype Entry = Entry(alias: string, values: map<string, string>, host: SshHost, proxyJump: Option<string>)

  function ProxyJump(values: map<string, string>): Option<string> {
    if "proxyjump" in values then Some(values["proxyjump"]) else None
  }

  ghost predicate Faithful(e: Entry, alias: string, ds: seq<Directive>, globs: Globs, texts: Texts) {
    && e.alias == alias && e.host == HostFor(alias, e.values, texts) && HostReads(e.host, alias, e.values, texts)
    && e.proxyJump == (if "proxyjump" in e.values then Some(e.values["proxyjump"]) else None)
    && forall key :: Resolved(ds, key, alias, globs, e.values)
  }

  method ResolveEntry(blocks: seq<Block>, alias: string, globs: Globs, texts: Texts, ghost ds: seq<Directive>)
    returns (entry: Entry)
    requires blocks == Blocks(ds)
    ensures Faithful(entry, alias, ds, globs, texts)
  {
    var values := ResolveOptions(blocks, alias, globs);
    ResolvedByBlocks(ds, alias, globs, values);
    OptionsAreRead(alias, values, texts);
    entry := Entry(alias, values, HostFor(alias, values, texts), ProxyJump(values));
  }

  ghost predicate AllFaithful(entries: seq<Entry>, aliases: seq<string>, ds: seq<Directive>, globs: Globs,
                              texts: Texts)
  {
    |entries| == |aliases| && forall i | 0 <= i < |entries| :: Faithful(entries[i], aliases[i], ds, globs, texts)
  }

  lemma AllFaithfulNext(entries: seq<Entry>, aliases: seq<string>, entry: Entry, ds: seq<Directive>, globs: Globs,
                        texts: Texts)
    requires |entries| < |aliases| && AllFaithful(entries, aliases[..|entries|], ds, globs, texts)
    requires Faithful(entry, aliases[|entries|], ds, globs, texts)
    ensures AllFaithful(entries + [entry], aliases[..|entries| + 1], ds, globs, texts)
  {
  }

  method ResolveEntries(lines: seq<string>, globs: Globs, texts: Texts) returns (entries: seq<Entry>)
    ensures AllFaithful(entries, Aliases(Directives(lines)), Directives(lines), globs, texts)
  {
    ghost var ds := Directives(lines);
    var blocks, aliases := BuildBlocks(lines);
    entries := [];
    for n := 0 to |aliases|
      invariant |entries| == n && AllFaithful(entries, aliases[..n], ds, globs, texts)
    {
      var entry := ResolveEntry(blocks, aliases[n], globs, texts, ds);
      AllFaithfulNext(entries, aliases, entry, ds, globs, texts);
      entries := entries + [entry];
    }
    assert aliases[..|aliases|] == aliases;
  }

  /** Every option of every alias comes from the first line in scope for it, whichever file that line is in. */
  method PreviewSshConfig(fs: SshInclude.FileSystem, path: Path, globs: Globs, texts: Texts)
    returns (r: Result<seq<Entry>, SshInclude.ImportError>)
    ensures var (result, st) := SshInclude.Read(fs, path, SshInclude.EMPTY);
            && (r.Ok? <==> result.Ok?) && (r.Err? ==> r.error == result.error)
            && (r.Ok? ==> var ds := Directives(st.lines); AllFaithful(r.value, Aliases(ds), ds, globs, texts))
  {
    var importer := new SshInclude.Importer(fs);
    var result := importer.ReadLines(path);
    if result.Err? {
      return Err(result.error);
    }
    var entries := ResolveEntries(importer.lines, globs, texts);
    return Ok(entries);
  }

  // ----- saving what was imported -----

  /** The options of an imported host can be written down and will be accepted when read. */
  predicate Savable(alias: string, values: map<string, string>, texts: Texts, home: Option<Path>) {
    var h := HostFor(alias, values, texts);
    && Number(values, "connecttimeout", U64_MAX, 10, texts) <= U64_MAX / 1000
    && Number(values, "serveraliveinterval", U64_MAX, 30, texts) <= U64_MAX / 1000
    && !Blank(alias) && !Blank(h.hostname) && !Blank(h.username)
    && (h.auth.PrivateKey? ==> ExpandHome(h.auth.keyPath, home).Some?)
  }

  /** Its number fields are always in range; a host is written and read back exactly when it is savable. */
  lemma ImportedHostIsSavedExactlyWhen(alias: string, values: map<string, string>, texts: Texts, home: Option<Path>)
    ensures var h := HostFor(alias, values, texts);
            && 1 <= h.port <= U16_MAX && 1 <= h.keepaliveMax <= U32_MAX
            && h.connectTimeout >= NANOS_PER_SECOND && h.keepaliveInterval >= NANOS_PER_SECOND
            && (HostRecordOf(h).Ok? && HostOf(HostRecordOf(h).value, home).Ok? <==> Savable(alias, values, texts, home))
  {
    var connect := Clamp(Number(values, "connecttimeout", U64_MAX, 10, texts), 1, U64_MAX);
    SecondsInMillis(connect);
    SecondsInMillis(Clamp(Number(values, "serveraliveinterval", U64_MAX, 30, texts), 1, U64_MAX));
    assert !Blank(ID_PREFIX + alias) by {
      assert !IsWhitespace((ID_PREFIX + alias)[0]);
    }
    assert connect * NANOS_PER_SECOND / NANOS_PER_MILLI == connect * 1000;
  }

  lemma SecondsInMillis(seconds: nat)
    ensures Milliseconds(seconds * NANOS_PER_SECOND).Ok? <==> seconds <= U64_MAX / 1000
  {
    assert seconds * NANOS_PER_SECOND / NANOS_PER_MILLI == seconds * 1000;
  }

  /** Importing into a configuration that saves: the same condition, besides room and a new id. */
  lemma ImportIsSavedExactlyWhen(d: DomainConfig, alias: string, values: map<string, string>, texts: Texts, m: Machine)
    requires Saves(d, m)
    ensures Saves(d.(hosts := d.hosts + [HostFor(alias, values, texts)]), m) <==>
      |d.hosts| < MAX_HOSTS && ID_PREFIX + alias !in HostIds(d.hosts) && Savable(alias, values, texts, m.home)
  {
    AddedHostIsSavedExactlyWhen(d, HostFor(alias, values, texts), m);
    ImportedHostIsSavedExactlyWhen(alias, values, texts, m.home);
  }

  // ----- one failing import for each part of the condition -----

  /** Texts taken as they are, on a machine whose user is `user` and whose numbers all read as `number`. */
  function PlainTexts(user: string, number: nat): Texts {
    Texts(_ => Some(number), (host, alias) => host, user, text => [text])
  }

  ghost predicate IsLost(alias: string, values: map<string, string>, texts: Texts, home: Option<Path>) {
    var record := HostRecordOf(HostFor(alias, values, texts));
    record.Err? || HostOf(record.value, home).Err?
  }

  lemma EmptyUserIsLost(home: Option<Path>)
    ensures Parse("User=") == Setting("user", "")
    ensures IsLost("lab", map["user" := ""], PlainTexts("me", 1), home)
  {
    UserLineReadsEmpty();
    ImportedHostIsSavedExactlyWhen("lab", map["user" := ""], PlainTexts("me", 1), home);
  }

  lemma BlankHostnameIsLost(home: Option<Path>)
    ensures IsLost("lab", map["hostname" := " "], PlainTexts("me", 1), home)
  {
    ImportedHostIsSavedExactlyWhen("lab", map["hostname" := " "], PlainTexts("me", 1), home);
  }

  lemma BlankAliasIsLost(home: Option<Path>)
    ensures IsLost(" ", map["hostname" := "lab"], PlainTexts("me", 1), home)
  {
    ImportedHostIsSavedExactlyWhen(" ", map["hostname" := "lab"], PlainTexts("me", 1), home);
  }

  lemma LongTimeoutIsLost(home: Option<Path>)
    ensures IsLost("lab", map["connecttimeout" := "18446744073709551615"], PlainTexts("me", U64_MAX), home)
    ensures IsLost("lab", map["serveraliveinterval" := "18446744073709551615"], PlainTexts("me", U64_MAX), home)
  {
    var texts := PlainTexts("me", U64_MAX);
    ImportedHostIsSavedExactlyWhen("lab", map["connecttimeout" := "18446744073709551615"], texts, home);
    ImportedHostIsSavedExactlyWhen("lab", map["serveraliveinterval" := "18446744073709551615"], texts, home);
  }

  lemma HomelessKeyIsLost()
    ensures IsLost("lab", map["identityfile" := TILDE], PlainTexts("me", 1), None)
  {
    ImportedHostIsSavedExactlyWhen("lab", map["identityfile" := TILDE], PlainTexts("me", 1), None);
  }

  lemma UserLineReadsEmpty()
    ensures Parse("User=") == Setting("user", "")
  {
    EmptyValue("User");
    assert "User" + "=" == "User=";
    assert Lower("User") == "user";
  }
}
