/** Merging what another device sent into the hosts and host key pins held here. */
module Merge {
  import opened Common
  import opened Text

  datatype SyncHost = SyncHost(
    address: string,
    port: nat,
    user: string,
    authKind: string,
    keyPath: Option<string>,
    hostKeyPolicy: string,
    refreshMs: nat)

  datatype Identity = Identity(address: string, port: nat, user: string)

  function IdentityOf(host: SyncHost): Identity {
    Identity(host.address, host.port, host.user)
  }

  datatype Payload = Payload(hosts: seq<SyncHost>, knownHosts: seq<string>)

  datatype PinConflict = PinConflict(host: string, existing: string, incoming: string)

  datatype Merged = Merged(
    hosts: seq<SyncHost>,
    knownHosts: seq<string>,
    addedHosts: nat,
    keptHosts: nat,
    addedPins: nat,
    conflicts: seq<PinConflict>)

  /** The first word of a line: which host it pins. */
  function PinHost(line: string): Option<string> {
    FirstWord(line)
  }

  /** Everything after the host field. */
  function PinKey(line: string): Option<string> {
    match AfterWhitespace(line)
    case Some(rest) => Some(Trim(rest))
    case None => None
  }

  predicate Usable(line: string) {
    Trim(line) != "" && Trim(line)[0] != '#'
  }

  /** The first held line for this host. */
  function Held(lines: seq<string>, host: Option<string>): Option<string> {
    First(lines, PinHost, host)
  }

  predicate HasIdentity(hosts: seq<SyncHost>, identity: Identity) {
    exists h :: h in hosts && IdentityOf(h) == identity
  }

  method Merge(existing: Payload, incoming: Payload) returns (out: Merged)
    ensures out == MergeOf(existing, incoming)
  {
    out := Merged(existing.hosts, existing.knownHosts, 0, 0, 0, []);
    out := MergeHosts(out, incoming.hosts);
    out := MergePins(out, incoming.knownHosts);
  }

  method MergeHosts(start: Merged, hosts: seq<SyncHost>) returns (out: Merged)
    ensures out == WithHosts(start, hosts)
  {
    out := start;
    assert hosts[..0] == [];
    for n := 0 to |hosts|
      invariant out == WithHosts(start, hosts[..n])
    {
      assert hosts[..n + 1][..n] == hosts[..n];
      if HasIdentity(out.hosts, IdentityOf(hosts[n])) {
        out := out.(keptHosts := out.keptHosts + 1);
      } else {
        out := out.(hosts := out.hosts + [hosts[n]], addedHosts := out.addedHosts + 1);
      }
    }
    assert hosts[..|hosts|] == hosts;
  }

  method MergePins(start: Merged, lines: seq<string>) returns (out: Merged)
    ensures out == WithPins(start, lines)
  {
    out := start;
    assert lines[..0] == [];
    for n := 0 to |lines|
      invariant out == WithPins(start, lines[..n])
    {
      assert lines[..n + 1][..n] == lines[..n];
      var line := Trim(lines[n]);
      if line == "" || line[0] == '#' {
        continue;
      }
      var host := PinHost(line);
      if host == None {
        continue;
      }
      var held := Held(out.knownHosts, host);
      if held == None {
        out := out.(knownHosts := out.knownHosts + [line], addedPins := out.addedPins + 1);
      } else if PinKey(held.value) != PinKey(line) {
        out := out.(conflicts := out.conflicts + [PinConflict(host.value, held.value, line)]);
      }
    }
    assert lines[..|lines|] == lines;
  }

  // ---------------------------------------------------------------------------------------
  // What a merge computes

  function WithHost(out: Merged, host: SyncHost): Merged {
    if HasIdentity(out.hosts, IdentityOf(host)) then out.(keptHosts := out.keptHosts + 1)
    else out.(hosts := out.hosts + [host], addedHosts := out.addedHosts + 1)
  }

  function WithHosts(out: Merged, hosts: seq<SyncHost>): Merged {
    if hosts == [] then out else WithHost(WithHosts(out, hosts[..|hosts| - 1]), hosts[|hosts| - 1])
  }

  function WithPin(out: Merged, raw: string): Merged {
    var line := Trim(raw);
    if !Usable(raw) || PinHost(line) == None then out
    else
      match Held(out.knownHosts, PinHost(line))
      case None => out.(knownHosts := out.knownHosts + [line], addedPins := out.addedPins + 1)
      case Some(held) =>
        if PinKey(held) == PinKey(line) then out
        else out.(conflicts := out.conflicts + [PinConflict(PinHost(line).value, held, line)])
  }

  function WithPins(out: Merged, lines: seq<string>): Merged {
    if lines == [] then out else WithPin(WithPins(out, lines[..|lines| - 1]), lines[|lines| - 1])
  }

  function MergeOf(existing: Payload, incoming: Payload): Merged {
    WithPins(WithHosts(Merged(existing.hosts, existing.knownHosts, 0, 0, 0, []), incoming.hosts), incoming.knownHosts)
  }

  function After(merged: Merged): Payload {
    Payload(merged.hosts, merged.knownHosts)
  }

  // ---------------------------------------------------------------------------------------
  // Merged lists are unions

  /** The usable lines, trimmed. */
  function Clean(lines: seq<string>): seq<string> {
    if lines == [] then []
    else
      var n := |lines| - 1;
      if Usable(lines[n]) then Clean(lines[..n]) + [Trim(lines[n])] else Clean(lines[..n])
  }

  lemma UsableHasHost(raw: string)
    requires Usable(raw)
    ensures NamesAHost(PinHost(Trim(raw)))
    ensures Usable(Trim(raw)) && Trim(Trim(raw)) == Trim(raw)
  {
    TrimTrims(raw);
    TrimmedStays(Trim(raw));
    assert TrimStart(Trim(raw)) == Trim(raw);
  }

  lemma {:induction false} PinsAreUnion(out: Merged, lines: seq<string>)
    ensures WithPins(out, lines).knownHosts == Union(out.knownHosts, Clean(lines), PinHost)
    ensures WithPins(out, lines).hosts == out.hosts
    ensures WithPins(out, lines).addedHosts == out.addedHosts && WithPins(out, lines).keptHosts == out.keptHosts
  {
    if lines != [] {
      var n := |lines| - 1;
      PinsAreUnion(out, lines[..n]);
      if Usable(lines[n]) {
        UsableHasHost(lines[n]);
        FirstIsKeyed(WithPins(out, lines[..n]).knownHosts, PinHost, PinHost(Trim(lines[n])));
        UnionSnoc(out.knownHosts, Clean(lines[..n]), Trim(lines[n]), PinHost);
      }
    }
  }

  lemma {:induction false} HostsAreUnion(out: Merged, hosts: seq<SyncHost>)
    ensures WithHosts(out, hosts).hosts == Union(out.hosts, hosts, IdentityOf)
    ensures WithHosts(out, hosts).knownHosts == out.knownHosts
    ensures WithHosts(out, hosts).addedPins == out.addedPins && WithHosts(out, hosts).conflicts == out.conflicts
    ensures WithHosts(out, hosts).addedHosts + WithHosts(out, hosts).keptHosts == out.addedHosts + out.keptHosts + |hosts|
    ensures |WithHosts(out, hosts).hosts| - |out.hosts| == WithHosts(out, hosts).addedHosts - out.addedHosts
  {
    if hosts != [] {
      HostsAreUnion(out, hosts[..|hosts| - 1]);
    }
  }

  lemma MergeIsUnion(existing: Payload, incoming: Payload)
    ensures var m := MergeOf(existing, incoming);
      && m.hosts == Union(existing.hosts, incoming.hosts, IdentityOf)
      && m.knownHosts == Union(existing.knownHosts, Clean(incoming.knownHosts), PinHost)
      && m.addedHosts + m.keptHosts == |incoming.hosts|
      && m.addedHosts == |m.hosts| - |existing.hosts|
  {
    var start := Merged(existing.hosts, existing.knownHosts, 0, 0, 0, []);
    HostsAreUnion(start, incoming.hosts);
    PinsAreUnion(WithHosts(start, incoming.hosts), incoming.knownHosts);
  }

  // ---------------------------------------------------------------------------------------
  // Associativity

  ghost predicate AllClean(lines: seq<string>) {
    forall l :: l in lines ==> Usable(l) && Trim(l) == l
  }

  lemma {:induction false} CleanIsClean(lines: seq<string>)
    ensures AllClean(Clean(lines))
  {
    if lines != [] {
      var n := |lines| - 1;
      CleanIsClean(lines[..n]);
      if Usable(lines[n]) {
        UsableHasHost(lines[n]);
      }
    }
  }

  /** A clean line's host is held by a raw list exactly when the usable lines of that list hold it. */
  lemma {:induction false} CleanKeepsHosts(lines: seq<string>, host: Option<string>)
    requires NamesAHost(host)
    ensures host in KeysOf(lines, PinHost) <==> host in KeysOf(Clean(lines), PinHost)
  {
    if lines != [] {
      var n := |lines| - 1;
      CleanKeepsHosts(lines[..n], host);
      assert lines == lines[..n] + [lines[n]];
      KeysOfSnoc(lines[..n], lines[n], PinHost);
      TrimKeepsHost(lines[n]);
      KeysOfSnoc(Clean(lines[..n]), Trim(lines[n]), PinHost);
    }
  }

  /** A host field a usable line can have. */
  predicate NamesAHost(host: Option<string>) {
    host.Some? && host.value != "" && host.value[0] != '#'
  }

  /** Trimming does not change the host field; an unusable line has none a clean line could have. */
  lemma TrimKeepsHost(raw: string)
    ensures PinHost(Trim(raw)) == PinHost(raw)
    ensures !Usable(raw) ==> !NamesAHost(PinHost(raw))
  {
    var s := TrimStart(raw);
    TrimTrims(raw);
    if s != "" {
      assert Trim(raw) != "" by { TrimEndKeepsFirst(s); }
      assert TrimStart(Trim(raw)) == Trim(raw);
      WordOfTrimEnd(s);
    }
  }

  lemma {:induction false} TrimEndKeepsFirst(s: string)
    requires s != "" && !IsWhitespace(s[0])
    ensures TrimEnd(s) != ""
  {
    if |s| > 1 && IsWhitespace(s[|s| - 1]) {
      TrimEndKeepsFirst(s[..|s| - 1]);
    }
  }

  lemma {:induction false} WordOfTrimEnd(s: string)
    ensures Word(TrimEnd(s)) == Word(s)
  {
    if s != "" && IsWhitespace(s[|s| - 1]) {
      WordOfTrimEnd(s[..|s| - 1]);
      WordOfPrefix(s[..|s| - 1], s[|s| - 1]);
      assert s == s[..|s| - 1] + [s[|s| - 1]];
    }
  }

  lemma {:induction false} WordOfPrefix(s: string, c: char)
    requires IsWhitespace(c)
    ensures Word(s + [c]) == Word(s)
  {
    if s != "" && !IsWhitespace(s[0]) {
      assert (s + [c])[1..] == s[1..] + [c];
      WordOfPrefix(s[1..], c);
    }
  }

  lemma {:induction false} CleanOfUnion(held: seq<string>, lines: seq<string>)
    requires AllClean(lines)
    ensures Clean(Union(held, lines, PinHost)) == Union(Clean(held), lines, PinHost)
  {
    if lines != [] {
      var n := |lines| - 1;
      var line := lines[n];
      assert line in lines && Usable(line) && Trim(line) == line;
      CleanOfUnion(held, lines[..n]);
      var before := Union(held, lines[..n], PinHost);
      UsableHasHost(line);
      CleanKeepsHosts(before, PinHost(line));
      CleanSnoc(before, line);
    }
  }

  lemma CleanSnoc(lines: seq<string>, line: string)
    requires Usable(line) && Trim(line) == line
    ensures Clean(lines + [line]) == Clean(lines) + [line]
  {
    assert (lines + [line])[..|lines|] == lines;
  }

  /** Three devices end up with the same hosts and pins whichever pair merges first. */
  lemma MergeIsAssociative(a: Payload, b: Payload, c: Payload)
    ensures After(MergeOf(After(MergeOf(a, b)), c)) == After(MergeOf(a, After(MergeOf(b, c))))
  {
    var ab, bc := After(MergeOf(a, b)), After(MergeOf(b, c));
    MergeIsUnion(a, b);
    MergeIsUnion(b, c);
    MergeIsUnion(ab, c);
    MergeIsUnion(a, bc);
    UnionAssociative(a.hosts, b.hosts, c.hosts, IdentityOf);
    CleanIsClean(c.knownHosts);
    CleanOfUnion(b.knownHosts, Clean(c.knownHosts));
    UnionAssociative(a.knownHosts, Clean(b.knownHosts), Clean(c.knownHosts), PinHost);
  }

  // ---------------------------------------------------------------------------------------
  // Lookup tables and accounting

  /**
   Merged pins as a first-match table: the left-biased union of what was held and the usable
   incoming lines. What was held stays a prefix, so no held answer changes.
   */
  lemma PinsAreLeftBiased(existing: Payload, incoming: Payload, host: string)
    ensures var m := MergeOf(existing, incoming);
      && existing.knownHosts <= m.knownHosts && existing.hosts <= m.hosts
      && Held(m.knownHosts, Some(host)) == if Held(existing.knownHosts, Some(host)).Some?
                                           then Held(existing.knownHosts, Some(host))
                                           else Held(Clean(incoming.knownHosts), Some(host))
  {
    MergeIsUnion(existing, incoming);
    UnionKeys(existing.knownHosts, Clean(incoming.knownHosts), PinHost);
    UnionKeys(existing.hosts, incoming.hosts, IdentityOf);
    UnionLookup(existing.knownHosts, Clean(incoming.knownHosts), PinHost, Some(host));
  }

  /** How many clean lines repeat, key and all, a line that is held by the time they come. */
  ghost function Repeats(held: seq<string>, lines: seq<string>): nat {
    if lines == [] then 0
    else
      var n := |lines| - 1;
      Repeats(held, lines[..n]) + if Matches(Union(held, lines[..n], PinHost), lines[n]) then 1 else 0
  }

  predicate Matches(table: seq<string>, line: string) {
    Held(table, PinHost(line)).Some? && PinKey(Held(table, PinHost(line)).value) == PinKey(line)
  }

  /** The clean lines the final table disagrees with. */
  function Disagreements(table: seq<string>, lines: seq<string>): seq<PinConflict> {
    if lines == [] then []
    else
      var n := |lines| - 1;
      Disagreements(table, lines[..n]) + Disagreement(table, lines[n])
  }

  function Disagreement(table: seq<string>, line: string): seq<PinConflict> {
    if Held(table, PinHost(line)).None? || Matches(table, line) then []
    else [PinConflict(if PinHost(line).Some? then PinHost(line).value else "", Held(table, PinHost(line)).value, line)]
  }

  ghost predicate AllHeld(table: seq<string>, lines: seq<string>) {
    KeysOf(lines, PinHost) <= KeysOf(table, PinHost)
  }

  lemma {:induction false} HeldStable(table: seq<string>, more: seq<string>, lines: seq<string>)
    requires AllHeld(table, lines)
    ensures Disagreements(table + more, lines) == Disagreements(table, lines)
  {
    if lines != [] {
      var n := |lines| - 1;
      assert lines == lines[..n] + [lines[n]];
      KeysOfSnoc(lines[..n], lines[n], PinHost);
      HeldStable(table, more, lines[..n]);
      FirstIsKeyed(table, PinHost, PinHost(lines[n]));
      FirstAppend(table, more, PinHost, PinHost(lines[n]));
    }
  }

  /** What one raw line does to the table and the conflicts. */
  lemma PinStep(out: Merged, raw: string)
    requires Usable(raw)
    ensures var line := Trim(raw); var after := WithPin(out, raw);
      && after.knownHosts == out.knownHosts + (if Held(out.knownHosts, PinHost(line)).None? then [line] else [])
      && after.conflicts == out.conflicts + Disagreement(after.knownHosts, line)
      && Held(after.knownHosts, PinHost(line)).Some?
      && after.addedPins == out.addedPins + |after.knownHosts| - |out.knownHosts|
  {
    var line := Trim(raw);
    UsableHasHost(raw);
    FirstAppend(out.knownHosts, [line], PinHost, PinHost(line));
    assert out.conflicts + [] == out.conflicts && out.knownHosts + [] == out.knownHosts;
  }

  /** The conflicts reported are exactly the usable lines the merged table disagrees with. */
  lemma {:induction false} ConflictsAreDisagreements(out: Merged, lines: seq<string>)
    ensures var after := WithPins(out, lines);
      && after.conflicts == out.conflicts + Disagreements(after.knownHosts, Clean(lines))
      && AllHeld(after.knownHosts, Clean(lines))
      && after.addedPins == out.addedPins + |after.knownHosts| - |out.knownHosts|
  {
    if lines == [] {
      assert out.conflicts + [] == out.conflicts;
    } else {
      var n := |lines| - 1;
      var before, after := WithPins(out, lines[..n]), WithPins(out, lines);
      var line, cleaned := Trim(lines[n]), Clean(lines[..n]);
      ConflictsAreDisagreements(out, lines[..n]);
      if Usable(lines[n]) {
        PinStep(before, lines[n]);
        var more := after.knownHosts[|before.knownHosts|..];
        assert after.knownHosts == before.knownHosts + more;
        HeldStable(before.knownHosts, more, cleaned);
        assert (cleaned + [line])[..|cleaned|] == cleaned;
        KeysOfSnoc(cleaned, line, PinHost);
        KeysOfConcat(before.knownHosts, more, PinHost);
        FirstIsKeyed(after.knownHosts, PinHost, PinHost(line));
        Associative(out.conflicts, Disagreements(before.knownHosts, cleaned), Disagreement(after.knownHosts, line));
      }
    }
  }

  /** Every usable line is added, in conflict, or a repetition. */
  lemma {:induction false} LinesAreCounted(out: Merged, lines: seq<string>)
    ensures var after := WithPins(out, lines);
      |Clean(lines)| + out.addedPins + |out.conflicts|
      == after.addedPins + |after.conflicts| + Repeats(out.knownHosts, Clean(lines))
  {
    if lines != [] {
      var n := |lines| - 1;
      LinesAreCounted(out, lines[..n]);
      PinsAreUnion(out, lines[..n]);
      if Usable(lines[n]) {
        UsableHasHost(lines[n]);
        var cleaned, line := Clean(lines[..n]), Trim(lines[n]);
        assert (cleaned + [line])[..|cleaned|] == cleaned;
      }
    }
  }

  lemma MergePinFacts(existing: Payload, incoming: Payload)
    ensures var m := MergeOf(existing, incoming); var lines := Clean(incoming.knownHosts);
      && m.conflicts == Disagreements(m.knownHosts, lines)
      && AllHeld(m.knownHosts, lines)
      && m.addedPins == |m.knownHosts| - |existing.knownHosts|
  {
    var start := Merged(existing.hosts, existing.knownHosts, 0, 0, 0, []);
    HostsAreUnion(start, incoming.hosts);
    ConflictsAreDisagreements(WithHosts(start, incoming.hosts), incoming.knownHosts);
  }

  /**
   The counts account for everything: every incoming host is added or kept, and every usable pin
   line is added, reported as a conflict, or the repetition of a line already held.
   */
  lemma EverythingIsAccountedFor(existing: Payload, incoming: Payload)
    ensures var m := MergeOf(existing, incoming); var lines := Clean(incoming.knownHosts);
      && m.addedHosts + m.keptHosts == |incoming.hosts|
      && m.addedHosts == |m.hosts| - |existing.hosts|
      && m.addedPins == |m.knownHosts| - |existing.knownHosts|
      && m.conflicts == Disagreements(m.knownHosts, lines)
      && |lines| == m.addedPins + |m.conflicts| + Repeats(existing.knownHosts, lines)
  {
    MergeIsUnion(existing, incoming);
    MergePinFacts(existing, incoming);
    var start := Merged(existing.hosts, existing.knownHosts, 0, 0, 0, []);
    HostsAreUnion(start, incoming.hosts);
    LinesAreCounted(WithHosts(start, incoming.hosts), incoming.knownHosts);
  }

  /** Merging the same payload again adds nothing and reports the same conflicts. */
  lemma MergeIsIdempotent(existing: Payload, incoming: Payload)
    ensures var once := MergeOf(existing, incoming); var twice := MergeOf(After(once), incoming);
      && After(twice) == After(once)
      && twice.addedHosts == 0 && twice.addedPins == 0 && twice.keptHosts == |incoming.hosts|
      && twice.conflicts == once.conflicts
  {
    var once := MergeOf(existing, incoming);
    MergeIsUnion(existing, incoming);
    MergeIsUnion(After(once), incoming);
    MergePinFacts(existing, incoming);
    MergePinFacts(After(once), incoming);
    UnionKeys(existing.hosts, incoming.hosts, IdentityOf);
    UnionAgain(once.hosts, incoming.hosts, IdentityOf);
    UnionAgain(once.knownHosts, Clean(incoming.knownHosts), PinHost);
  }

  // ---------------------------------------------------------------------------------------
  // What the lines and hosts say

  /** A host field: something, and no whitespace in it. */
  predicate IsField(host: string) {
    host != "" && forall c :: c in host ==> !IsWhitespace(c)
  }

  lemma {:induction false} WordUpTo(host: string, w: char, rest: string)
    requires (forall c :: c in host ==> !IsWhitespace(c)) && IsWhitespace(w)
    ensures Word(host + [w] + rest) == host
  {
    var line := host + [w] + rest;
    if host != "" {
      assert line[0] == host[0] && host[0] in host;
      assert line[1..] == host[1..] + [w] + rest;
      assert forall c :: c in host[1..] ==> c in host;
      WordUpTo(host[1..], w, rest);
      assert host == [host[0]] + host[1..];
    }
  }

  /** A pin line is a host, a whitespace character, and a key that is everything after it but the space around. */
  lemma PinFields(host: string, w: char, rest: string)
    requires IsField(host) && IsWhitespace(w)
    ensures PinHost(host + [w] + rest) == Some(host)
    ensures PinKey(host + [w] + rest) == Some(Trim(rest))
  {
    var line := host + [w] + rest;
    assert line[0] == host[0] && host[0] in host;
    WordUpTo(host, w, rest);
    assert line[|host| + 1..] == rest;
  }

  /** A line that is a host and nothing else has no key. */
  lemma BareHostHasNoKey(host: string)
    requires IsField(host)
    ensures PinHost(host) == Some(host) && PinKey(host) == None
  {
    assert host[0] in host;
    AllOneWord(host);
  }

  lemma {:induction false} AllOneWord(s: string)
    requires forall c :: c in s ==> !IsWhitespace(c)
    ensures Word(s) == s
  {
    if s != "" {
      assert s[0] in s && forall c :: c in s[1..] ==> c in s;
      AllOneWord(s[1..]);
      assert s == [s[0]] + s[1..];
    }
  }

  lemma FirstOfOne(line: string, host: Option<string>)
    ensures Held([line], host) == if PinHost(line) == host then Some(line) else None
  {
    assert [line][1..] == [] && First([], PinHost, host) == None;
  }

  lemma MergeOneLine(existing: Payload, raw: string)
    ensures MergeOf(existing, Payload([], [raw])) == WithPin(Merged(existing.hosts, existing.knownHosts, 0, 0, 0, []), raw)
  {
    var start := Merged(existing.hosts, existing.knownHosts, 0, 0, 0, []);
    assert WithHosts(start, []) == start;
    assert [raw][..0] == [] && WithPins(start, []) == start;
  }

  /** A line as it is written to the file: a host, a space, and a key without space around it. */
  function PinLine(host: string, key: string): string {
    host + [' '] + key
  }

  lemma PinLineIsUsable(host: string, key: string)
    requires IsField(host) && host[0] != '#' && key != "" && IsTrimmed(key)
    ensures Usable(PinLine(host, key)) && Trim(PinLine(host, key)) == PinLine(host, key)
    ensures PinHost(PinLine(host, key)) == Some(host) && PinKey(PinLine(host, key)) == Some(key)
  {
    var line := PinLine(host, key);
    assert line[0] == host[0] && host[0] in host && line[|line| - 1] == key[|key| - 1];
    TrimmedStays(line);
    TrimmedStays(key);
    PinFields(host, ' ', key);
  }

  /**
   A key that differs from the one held for its host is a conflict that names both lines and changes
   nothing; the same key is a repetition; and the key of a host that is not held is taken over.
   */
  lemma ConflictIffKeysDiffer(held: string, heldKey: string, host: string, key: string, hosts: seq<SyncHost>)
    requires IsField(held) && held[0] != '#' && heldKey != "" && IsTrimmed(heldKey)
    requires IsField(host) && host[0] != '#' && key != "" && IsTrimmed(key)
    ensures var mine, theirs := PinLine(held, heldKey), PinLine(host, key);
      var m := MergeOf(Payload(hosts, [mine]), Payload([], [theirs]));
      && m.hosts == hosts
      && m.conflicts == (if held == host && heldKey != key then [PinConflict(host, mine, theirs)] else [])
      && m.knownHosts == (if held == host then [mine] else [mine, theirs])
      && m.addedPins == (if held == host then 0 else 1)
  {
    PinLineIsUsable(held, heldKey);
    PinLineIsUsable(host, key);
    MergeOneLine(Payload(hosts, [PinLine(held, heldKey)]), PinLine(host, key));
    FirstOfOne(PinLine(held, heldKey), Some(host));
  }

  /** Blank lines and comments, indented or not, change nothing and are not reported. */
  lemma CommentsAreIgnored(existing: Payload, raw: string)
    requires TrimStart(raw) == "" || TrimStart(raw)[0] == '#'
    ensures var m := MergeOf(existing, Payload([], [raw]));
      After(m) == existing && m.conflicts == [] && m.addedPins == 0
  {
    MergeOneLine(existing, raw);
    TrimTrims(raw);
  }

  /** Two hosts are one exactly if address, port and user agree; the one held stays as it is. */
  lemma HostsAreOneIff(a: SyncHost, b: SyncHost)
    ensures var m := MergeOf(Payload([a], []), Payload([b], []));
      var same := a.address == b.address && a.port == b.port && a.user == b.user;
      && m.hosts == (if same then [a] else [a, b])
      && m.addedHosts == (if same then 0 else 1) && m.keptHosts == (if same then 1 else 0)
  {
    var start := Merged([a], [], 0, 0, 0, []);
    assert [b][..0] == [] && WithHosts(start, []) == start;
    assert MergeOf(Payload([a], []), Payload([b], [])) == WithHost(start, b);
    assert HasIdentity([a], IdentityOf(b)) <==> IdentityOf(a) == IdentityOf(b) by {
      assert a in [a];
    }
  }
}
