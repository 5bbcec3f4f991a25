/** Characters and tokens: a stream of words separated by white space reads back as those words. */
module JournalLayout {
  import opened Words
  import opened Numerals
  import opened RecoveryRecord
  import opened JournalTokens
  import JournalText
  import V5Text
  import V5Record
  import ScpProfile

  predicate IsSpace(c: char) { c == ' ' || '\t' <= c <= '\r' }

  predicate IsWord(t: string) { t != "" && forall i | 0 <= i < |t| :: !IsSpace(t[i]) }

  predicate AllWords(ts: seq<string>) { ts != [] ==> IsWord(ts[0]) && AllWords(ts[1..]) }

  predicate AllSpaces(gaps: string) { forall i | 0 <= i < |gaps| :: IsSpace(gaps[i]) }

  /** Each token followed by a separator. */
  function Lay(ts: seq<string>, gaps: string): string
    requires |ts| == |gaps|
  {
    if ts == [] then "" else ts[0] + [gaps[0]] + Lay(ts[1..], gaps[1..])
  }

  function WordLength(text: string): (n: nat)
    ensures n <= |text| && (text != "" && !IsSpace(text[0]) ==> n > 0)
  {
    if text == "" || IsSpace(text[0]) then 0 else 1 + WordLength(text[1..])
  }

  /** The tokens that repeated extraction reads. */
  function Split(text: string): seq<string>
    decreases |text|
  {
    if text == "" then []
    else if IsSpace(text[0]) then Split(text[1..])
    else [text[..WordLength(text)]] + Split(text[WordLength(text)..])
  }

  lemma {:induction false} WordEnds(t: string, gap: char, rest: string)
    requires IsSpace(gap) && forall i | 0 <= i < |t| :: !IsSpace(t[i])
    ensures WordLength(t + [gap] + rest) == |t|
  {
    if t != "" {
      WordEnds(t[1..], gap, rest);
      assert (t + [gap] + rest)[1..] == t[1..] + [gap] + rest;
    }
  }

  lemma SplitFirst(t: string, gap: char, rest: string)
    requires IsWord(t) && IsSpace(gap)
    ensures Split(t + [gap] + rest) == [t] + Split(rest)
  {
    var text := t + [gap] + rest;
    WordEnds(t, gap, rest);
    assert text[0] == t[0] && text[..|t|] == t;
    assert text[|t|..] == [gap] + rest && ([gap] + rest)[1..] == rest;
  }

  /** Any layout of words reads back as those words. */
  lemma {:induction false} LayRoundTrip(ts: seq<string>, gaps: string)
    requires |ts| == |gaps| && AllWords(ts) && AllSpaces(gaps)
    ensures Split(Lay(ts, gaps)) == ts
  {
    if ts != [] {
      LayRoundTrip(ts[1..], gaps[1..]);
      SplitFirst(ts[0], gaps[0], Lay(ts[1..], gaps[1..]));
    }
  }

  lemma WordThen(t: string, rest: seq<string>)
    requires IsWord(t) && AllWords(rest)
    ensures AllWords([t] + rest)
  {
  }

  lemma {:induction false} NumbersThen(ns: seq<nat>, rest: seq<string>)
    requires AllWords(rest)
    ensures AllWords(Numbers(ns) + rest)
  {
    if ns == [] {
      assert Numbers(ns) + rest == rest;
    } else {
      NumbersThen(ns[1..], rest);
      DecimalIsWord(ns[0]);
      WordThen(Decimal(ns[0]), Numbers(ns[1..]) + rest);
      NumbersApart(ns, rest);
    }
  }

  lemma DecimalIsWord(n: nat)
    ensures IsWord(Decimal(n))
  {
    var text := Decimal(n);
    assert forall i | 0 <= i < |text| :: IsDigit(text[i]);
  }

  lemma SectionThen(keyword: string, ns: seq<nat>, rest: seq<string>)
    requires IsWord(keyword) && AllWords(rest)
    ensures AllWords(Section(keyword, ns) + rest)
  {
    NumbersThen(ns, rest);
    WordThen(keyword, Numbers(ns) + rest);
    assert Section(keyword, ns) + rest == [keyword] + (Numbers(ns) + rest);
  }

  lemma BodyIsWords(r: Record, sum: nat)
    ensures AllWords(JournalText.PrintIsolated(r, sum))
  {
    SectionThen("CHECKSUM", [sum], ["END"]);
    SectionThen("STATE", JournalText.StateNumbers(r), JournalText.PrintEnd(sum));
    SectionThen("SOURCE", JournalText.SourceNumbers(r), JournalText.PrintState(r, sum));
    SectionThen("STACK", JournalText.StackNumbers(r), JournalText.PrintSource(r, sum));
    NumbersThen(r.isolated, JournalText.PrintStack(r, sum));
    SectionThen("ISOLATED", [|r.isolated|], Numbers(r.isolated) + JournalText.PrintStack(r, sum));
  }

  lemma ModulesAreWords(r: Record, sum: nat)
    ensures AllWords(JournalText.PrintMvlc(r, sum))
  {
    BodyIsWords(r, sum);
    SectionThen("MDPP", JournalText.HeadOf(r).mdpp, JournalText.PrintIsolated(r, sum));
    SectionThen("MVLC", JournalText.HeadOf(r).mvlc, JournalText.PrintMdpp(r, sum));
  }

  lemma RecordEndpointIsWords(host: string, port: u16, rest: seq<string>)
    requires ValidHost(host) && AllWords(rest)
    ensures AllWords(JournalText.PrintEndpoint(host, port, rest))
  {
    NumbersThen([port], rest);
    WordThen(host, Numbers([port]) + rest);
    WordThen("ENDPOINT", [host] + (Numbers([port]) + rest));
  }

  lemma MagicIsWord()
    ensures IsWord(MAGIC)
  {
  }

  /** The host is the only free text of a version 1 to 4 journal, and a valid one is a word. */
  lemma RecordIsWords(r: Record, sum: nat)
    requires ValidRecord(r)
    ensures AllWords(JournalText.Print(r, sum))
  {
    ModulesAreWords(r, sum);
    RecordEndpointIsWords(r.host, r.commandPort, JournalText.PrintMvlc(r, sum));
    MagicIsWord();
    SectionThen(MAGIC, [r.formatVersion], JournalText.PrintEndpoint(r.host, r.commandPort, JournalText.PrintMvlc(r, sum)));
  }

  /** The characters of a serialized record, laid out in any way, parse back to it. */
  lemma RecordTextRoundTrip(r: Record, checksum: JournalText.Hashed -> nat, gaps: string)
    requires ValidRecord(r) && checksum(JournalText.Summary(r)) <= U64
    requires |gaps| == |JournalText.Print(r, checksum(JournalText.Summary(r)))| && AllSpaces(gaps)
    ensures var text := Lay(JournalText.Serialize(r, checksum).value, gaps);
            JournalText.Parse(Split(text), checksum) == Some(JournalText.Normal(r))
  {
    var sum := checksum(JournalText.Summary(r));
    RecordIsWords(r, sum);
    LayRoundTrip(JournalText.Print(r, sum), gaps);
    JournalText.RecordRoundTrip(r, checksum);
  }

  lemma EndpointIsWords(e: V5Record.Endpoint, sum: nat, rest: seq<string>)
    requires V5Record.ValidEndpoint(e) && AllWords(rest)
    ensures AllWords(V5Text.PrintEndpoint(e, sum, rest))
  {
    NumbersThen([sum], rest);
    var t := Numbers([sum]) + rest;
    var kind := if e.kind == V5Record.DirectEthernet then "DIRECT" else "SSH_BRIDGE";
    if e.kind == V5Record.SshBridge {
      TwoWordsThen(e.destination, e.command, t);
      t := [e.destination, e.command] + t;
    }
    NumbersThen([e.port], t);
    t := Numbers([e.port]) + t;
    TwoWordsThen(kind, e.host, t);
    WordThen("ENDPOINT", [kind, e.host] + t);
    assert ["ENDPOINT", kind, e.host] + t == ["ENDPOINT"] + ([kind, e.host] + t);
  }

  lemma TwoWordsThen(s: string, t: string, rest: seq<string>)
    requires IsWord(s) && IsWord(t) && AllWords(rest)
    ensures AllWords([s, t] + rest)
  {
    WordThen(t, rest);
    WordThen(s, [t] + rest);
    assert [s, t] + rest == [s] + ([t] + rest);
  }

  lemma PhaseIsWord(p: V5Record.Phase)
    ensures IsWord(V5Text.PhaseToken(p))
  {
  }

  lemma {:induction false} QuadsAreWords(qs: seq<ScpProfile.Quad>, rest: seq<string>)
    requires AllWords(rest)
    ensures AllWords(V5Text.PrintQuads(qs, rest))
  {
    if qs != [] {
      QuadsAreWords(qs[1..], rest);
      SectionThen("QUAD", V5Text.QuadNumbers(qs[0]), V5Text.PrintQuads(qs[1..], rest));
    }
  }

  lemma DeviationIsWords(d: V5Record.Deviation, rest: seq<string>)
    requires AllWords(rest)
    ensures AllWords(V5Text.PrintDeviation(d, rest))
  {
    PhaseIsWord(d.phase);
    WordThen(V5Text.PhaseToken(d.phase), rest);
    var t3 := [V5Text.PhaseToken(d.phase)] + rest;
    NumbersThen(V5Text.DeviationNumbers(d), t3);
    var t2 := Numbers(V5Text.DeviationNumbers(d)) + t3;
    SectionThen("QUAD", [if d.quad.Some? then d.quad.value else 0], t2);
    WordThen("GLOBAL", t2);
    SectionThen("DEVIATION", [d.ordinal], V5Text.PrintScope(d, t2));
  }

  lemma {:induction false} DeviationsAreWords(ds: seq<V5Record.Deviation>, rest: seq<string>)
    requires AllWords(rest)
    ensures AllWords(V5Text.PrintDeviations(ds, rest))
  {
    if ds != [] {
      DeviationsAreWords(ds[1..], rest);
      DeviationIsWords(ds[0], V5Text.PrintDeviations(ds[1..], rest));
    }
  }

  lemma HistoryIsWords(ds: seq<V5Record.Deviation>, sum: nat, rest: seq<string>)
    requires AllWords(rest)
    ensures AllWords(V5Text.PrintHistory(ds, sum, rest))
  {
    var tail := Section("DEVIATIONS_CHECKSUM", [sum]) + rest;
    SectionThen("DEVIATIONS_CHECKSUM", [sum], rest);
    DeviationsAreWords(ds, tail);
    SectionThen("DEVIATIONS", [|ds|], V5Text.PrintDeviations(ds, tail));
  }

  lemma SnapshotIsWords(s: Option<ScpProfile.Snapshot>, sum: nat, rest: seq<string>)
    requires AllWords(rest)
    ensures AllWords(V5Text.PrintSnapshot(s, sum, rest))
  {
    var tail := Section("SNAPSHOT_CHECKSUM", [sum]) + rest;
    SectionThen("SNAPSHOT_CHECKSUM", [sum], rest);
    if s.Some? {
      var quads := V5Text.PrintQuads(s.value.quads, tail);
      QuadsAreWords(s.value.quads, tail);
      SectionThen("GLOBALS", V5Text.GlobalsNumbers(s.value), quads);
      SectionThen("RESTORE_SNAPSHOT", [1], Section("GLOBALS", V5Text.GlobalsNumbers(s.value)) + quads);
    } else {
      SectionThen("RESTORE_SNAPSHOT", [0], tail);
    }
  }

  lemma OwnershipIsWords(o: Option<V5Record.Ownership>, sum: nat, rest: seq<string>)
    requires AllWords(rest)
    ensures AllWords(V5Text.PrintOwnership(o, sum, rest))
  {
    var tail := Section("OWNERSHIP_CHECKSUM", [sum]) + rest;
    SectionThen("OWNERSHIP_CHECKSUM", [sum], rest);
    if o.Some? {
      NumbersThen(o.value.isolated, tail);
      NumbersThen(V5Text.OwnershipNumbers(o.value), Numbers(o.value.isolated) + tail);
      SectionThen("OWNERSHIP", [1], Numbers(V5Text.OwnershipNumbers(o.value)) + (Numbers(o.value.isolated) + tail));
    } else {
      SectionThen("OWNERSHIP", [0], tail);
    }
  }

  lemma SessionIsWords(phase: V5Record.Phase, parking: bool, sum: nat, rest: seq<string>)
    requires AllWords(rest)
    ensures AllWords(V5Text.PrintSession(phase, parking, sum, rest))
  {
    var t := Numbers([Bit(parking), sum]) + rest;
    PhaseIsWord(phase);
    NumbersThen([Bit(parking), sum], rest);
    WordThen(V5Text.PhaseToken(phase), t);
    WordThen("SESSION", [V5Text.PhaseToken(phase)] + t);
    assert ["SESSION", V5Text.PhaseToken(phase)] + t == ["SESSION"] + ([V5Text.PhaseToken(phase)] + t);
  }

  lemma EvidenceIsWords(d: V5Record.Data, sums: V5Text.Sums)
    ensures AllWords(V5Text.PrintEvidence(d, sums))
  {
    var t3 := V5Text.PrintEnd(sums.record(V5Text.NormalData(d)));
    SectionThen("RECORD_CHECKSUM", [sums.record(V5Text.NormalData(d))], ["END"]);
    var t2 := V5Text.PrintHistory(d.deviations, sums.deviations(d.deviations), t3);
    HistoryIsWords(d.deviations, sums.deviations(d.deviations), t3);
    SnapshotIsWords(d.snapshot, sums.snapshot(d.snapshot), t2);
    OwnershipIsWords(d.ownership, sums.ownership(d.ownership), V5Text.PrintSnapshot(d.snapshot, sums.snapshot(d.snapshot), t2));
  }

  lemma IdentityIsWords(i: V5Record.Identity, sum: nat, rest: seq<string>)
    requires AllWords(rest)
    ensures AllWords(V5Text.PrintIdentity(i, sum, rest))
  {
    NumbersThen([sum], rest);
    SectionThen("IDENTITY", V5Text.IdentityNumbers(i), Numbers([sum]) + rest);
  }

  lemma RoutingIsWords(d: V5Record.Data, endpointSum: nat, identitySum: nat, rest: seq<string>)
    requires V5Record.ValidEndpoint(d.endpoint) && AllWords(rest)
    ensures AllWords(V5Text.PrintEndpoint(d.endpoint, endpointSum, V5Text.PrintIdentity(d.identity, identitySum, rest)))
  {
    IdentityIsWords(d.identity, identitySum, rest);
    EndpointIsWords(d.endpoint, endpointSum, V5Text.PrintIdentity(d.identity, identitySum, rest));
  }

  lemma HeaderIsWords(phase: V5Record.Phase, parking: bool, sum: nat, rest: seq<string>)
    requires AllWords(rest)
    ensures AllWords(Section(MAGIC, [5]) + V5Text.PrintSession(phase, parking, sum, rest))
  {
    SessionIsWords(phase, parking, sum, rest);
    MagicIsWord();
    SectionThen(MAGIC, [5], V5Text.PrintSession(phase, parking, sum, rest));
  }

  lemma DataIsWords(d: V5Record.Data, sums: V5Text.Sums)
    requires V5Record.ValidEndpoint(d.endpoint)
    ensures AllWords(V5Text.Print(d, sums))
  {
    var evidence := V5Text.PrintEvidence(d, sums);
    EvidenceIsWords(d, sums);
    var endpointSum, identitySum := sums.endpoint(V5Text.NormalEndpoint(d.endpoint)), sums.identity(d.identity);
    RoutingIsWords(d, endpointSum, identitySum, evidence);
    HeaderIsWords(d.phase, d.parkingRequired, sums.session(d.phase, d.parkingRequired),
                  V5Text.PrintEndpoint(d.endpoint, endpointSum, V5Text.PrintIdentity(d.identity, identitySum, evidence)));
  }

  /** The characters of a serialized version 5 document, laid out in any way, parse back to its normal form. */
  lemma DocumentTextRoundTrip(d: V5Text.Document, sums: V5Text.Sums, gaps: string)
    requires V5Record.ValidData(d.data) && V5Text.SumsFit(d.data, sums)
    requires |gaps| == |V5Text.Print(d.data, sums)| && AllSpaces(gaps)
    ensures var text := Lay(V5Text.Serialize(d, sums).value, gaps);
            V5Text.Parse(Split(text), sums) == Some(V5Text.Normal(d))
  {
    DataIsWords(d.data, sums);
    LayRoundTrip(V5Text.Print(d.data, sums), gaps);
    V5Text.DocumentRoundTrip(d, sums);
  }
}
