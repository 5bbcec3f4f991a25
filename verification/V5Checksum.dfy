/** What the version 5 checksums are computed from, and what that protects. */
module V5Checksum {
  import opened Words
  import opened ScpRegistry
  import opened ScpProfile
  import opened RecoveryRecord
  import opened V5Record
  import opened JournalTokens
  import opened V5Text

  /** What one checksum hashes: the name of its section, its texts and its numbers, each in order. */
  datatype Hashed = Hashed(section: string, texts: seq<string>, numbers: seq<nat>)

  function PhaseCode(p: Phase): nat {
    match p
    case Home => 1
    case Preparing => 2
    case Goal => 3
    case Group => 4
    case AutomaticLearnSignal => 5
    case AutomaticEnergy => 6
    case AutomaticTiming => 7
    case Manual => 8
    case GroupResult => 9
    case Restoring => 10
    case NextGroup => 11
    case Finished => 12
  }

  function SessionHashed(phase: Phase, parking: bool): Hashed { Hashed("SESSION", [], [PhaseCode(phase), Bit(parking)]) }

  function EndpointHashed(e: Endpoint): Hashed {
    if e.kind == DirectEthernet then Hashed("ENDPOINT", [e.host], [1, e.port])
    else Hashed("ENDPOINT", [e.host, e.destination, e.command], [2, e.port])
  }

  function IdentityHashed(i: Identity): Hashed { Hashed("IDENTITY", [], IdentityNumbers(i)) }

  function OwnershipHashed(o: Option<Ownership>): Hashed {
    Hashed("OWNERSHIP", [], if o.None? then [0] else [1] + OwnershipNumbers(o.value) + o.value.isolated)
  }

  function QuadsHashed(qs: seq<Quad>): seq<nat> { if qs == [] then [] else QuadNumbers(qs[0]) + QuadsHashed(qs[1..]) }

  function SnapshotHashed(s: Option<Snapshot>): Hashed {
    Hashed("RESTORE_SNAPSHOT", [],
           if s.None? then [0] else [1] + GlobalsNumbers(s.value) + [|s.value.quads|] + QuadsHashed(s.value.quads))
  }

  function DeviationHashed(d: Deviation): (ns: seq<nat>)
    ensures |ns| == 9
  {
    [d.ordinal, if d.scope == GlobalScope then 1 else 2, Bit(d.quad.Some?), if d.quad.Some? then d.quad.value else 0,
     d.reg, d.original, d.previous, d.requested, PhaseCode(d.phase)]
  }

  function DeviationsHashed(ds: seq<Deviation>): seq<nat> {
    if ds == [] then [] else DeviationHashed(ds[0]) + DeviationsHashed(ds[1..])
  }

  /** The record's checksum is computed from those of its sections. */
  function RecordHashed(d: Data, sum: Hashed -> nat): Hashed {
    Hashed("MWW_TUNER_RECOVERY_V5", [],
      [5, sum(SessionHashed(d.phase, d.parkingRequired)), sum(EndpointHashed(d.endpoint)), sum(IdentityHashed(d.identity)),
       sum(OwnershipHashed(d.ownership)), sum(SnapshotHashed(d.snapshot)), sum(HistoryHashed(d.deviations))])
  }

  function HistoryHashed(ds: seq<Deviation>): Hashed { Hashed("DEVIATIONS", [], [|ds|] + DeviationsHashed(ds)) }

  /** The seven checksums that one hash function gives. */
  function SumsOf(sum: Hashed -> nat): Sums {
    Sums((phase, parking) => sum(SessionHashed(phase, parking)), e => sum(EndpointHashed(e)), i => sum(IdentityHashed(i)),
         o => sum(OwnershipHashed(o)), s => sum(SnapshotHashed(s)), ds => sum(HistoryHashed(ds)), d => sum(RecordHashed(d, sum)))
  }

  lemma SessionCovered(p: Phase, b: bool, q: Phase, c: bool)
    requires SessionHashed(p, b) == SessionHashed(q, c)
    ensures p == q && b == c
  {
    assert SessionHashed(p, b).numbers[0] == PhaseCode(q) && SessionHashed(p, b).numbers[1] == Bit(c);
  }

  lemma EndpointCovered(d: Endpoint, e: Endpoint)
    requires EndpointHashed(d) == EndpointHashed(e)
    ensures NormalEndpoint(d) == NormalEndpoint(e)
  {
    assert EndpointHashed(d).numbers[0] == EndpointHashed(e).numbers[0] && EndpointHashed(d).numbers[1] == EndpointHashed(e).numbers[1];
    assert EndpointHashed(d).texts[0] == EndpointHashed(e).texts[0];
    if d.kind == SshBridge {
      assert EndpointHashed(d).texts[1] == EndpointHashed(e).texts[1] && EndpointHashed(d).texts[2] == EndpointHashed(e).texts[2];
    }
  }

  lemma IdentityCovered(i: Identity, j: Identity)
    requires IdentityNumbers(i) == IdentityNumbers(j)
    ensures i == j
  {
    assert forall k | 0 <= k < 5 :: IdentityNumbers(i)[k] == IdentityNumbers(j)[k];
  }

  lemma OwnershipCovered(o: Option<Ownership>, p: Option<Ownership>)
    requires OwnershipHashed(o) == OwnershipHashed(p)
    ensures o == p
  {
    var ns := OwnershipHashed(o).numbers;
    assert ns[0] == if o.Some? then 1 else 0;
    assert ns[0] == if p.Some? then 1 else 0;
    if o.Some? {
      assert ns[1..8] == OwnershipNumbers(o.value) && ns[1..8] == OwnershipNumbers(p.value);
      assert ns[8..] == o.value.isolated && ns[8..] == p.value.isolated;
      assert forall k | 0 <= k < 7 :: OwnershipNumbers(o.value)[k] == OwnershipNumbers(p.value)[k];
    }
  }

  lemma QuadCovered(q: Quad, r: Quad)
    requires QuadNumbers(q) == QuadNumbers(r)
    ensures q == r
  {
    BuildQuadInverts(q);
    BuildQuadInverts(r);
  }

  lemma {:induction false} QuadsCovered(qs: seq<Quad>, rs: seq<Quad>)
    requires |qs| == |rs| && QuadsHashed(qs) == QuadsHashed(rs)
    ensures qs == rs
  {
    if qs != [] {
      var ns := QuadsHashed(qs);
      assert ns[..18] == QuadNumbers(qs[0]) && ns[..18] == QuadNumbers(rs[0]);
      assert ns[18..] == QuadsHashed(qs[1..]) && ns[18..] == QuadsHashed(rs[1..]);
      QuadCovered(qs[0], rs[0]);
      QuadsCovered(qs[1..], rs[1..]);
      assert qs == [qs[0]] + qs[1..] && rs == [rs[0]] + rs[1..];
    }
  }

  lemma SnapshotCovered(s: Option<Snapshot>, t: Option<Snapshot>)
    requires SnapshotHashed(s) == SnapshotHashed(t)
    requires s.Some? ==> s.value.complete && s.value.parked
    requires t.Some? ==> t.value.complete && t.value.parked
    ensures s == t
  {
    var ns := SnapshotHashed(s).numbers;
    assert ns[0] == if s.Some? then 1 else 0;
    assert ns[0] == if t.Some? then 1 else 0;
    if s.Some? {
      assert ns[1..6] == GlobalsNumbers(s.value) && ns[1..6] == GlobalsNumbers(t.value);
      assert ns[6] == |s.value.quads| && ns[6] == |t.value.quads|;
      assert ns[7..] == QuadsHashed(s.value.quads) && ns[7..] == QuadsHashed(t.value.quads);
      QuadsCovered(s.value.quads, t.value.quads);
      assert forall k | 0 <= k < 5 :: GlobalsNumbers(s.value)[k] == GlobalsNumbers(t.value)[k];
    }
  }

  lemma DeviationCovered(d: Deviation, e: Deviation)
    requires DeviationHashed(d) == DeviationHashed(e)
    ensures d == e
  {
    var ns, ms := DeviationHashed(d), DeviationHashed(e);
    assert ns[0] == ms[0] && ns[1] == ms[1] && ns[2] == ms[2] && ns[3] == ms[3] && ns[4] == ms[4];
    assert ns[5] == ms[5] && ns[6] == ms[6] && ns[7] == ms[7] && ns[8] == ms[8];
  }

  lemma {:induction false} DeviationsCovered(ds: seq<Deviation>, es: seq<Deviation>)
    requires |ds| == |es| && DeviationsHashed(ds) == DeviationsHashed(es)
    ensures ds == es
  {
    if ds != [] {
      var ns := DeviationsHashed(ds);
      assert ns[..9] == DeviationHashed(ds[0]) && ns[..9] == DeviationHashed(es[0]);
      assert ns[9..] == DeviationsHashed(ds[1..]) && ns[9..] == DeviationsHashed(es[1..]);
      DeviationCovered(ds[0], es[0]);
      DeviationsCovered(ds[1..], es[1..]);
      assert ds == [ds[0]] + ds[1..] && es == [es[0]] + es[1..];
    }
  }

  lemma HistoryCovered(ds: seq<Deviation>, es: seq<Deviation>)
    requires HistoryHashed(ds) == HistoryHashed(es)
    ensures ds == es
  {
    var ns := HistoryHashed(ds).numbers;
    assert ns[0] == |ds| && ns[0] == |es|;
    assert ns[1..] == DeviationsHashed(ds) && ns[1..] == DeviationsHashed(es);
    DeviationsCovered(ds, es);
  }

  /** A hash function that tells two inputs apart, if they differ. */
  predicate TellsApart(g: Hashed, h: Hashed, sum: Hashed -> nat) { sum(g) == sum(h) ==> g == h }

  /** No two corresponding sections of two records, nor the records themselves, have colliding checksums. */
  predicate NoCollision(d: Data, e: Data, sum: Hashed -> nat) {
    && TellsApart(SessionHashed(d.phase, d.parkingRequired), SessionHashed(e.phase, e.parkingRequired), sum)
    && TellsApart(EndpointHashed(d.endpoint), EndpointHashed(e.endpoint), sum)
    && TellsApart(IdentityHashed(d.identity), IdentityHashed(e.identity), sum)
    && TellsApart(OwnershipHashed(d.ownership), OwnershipHashed(e.ownership), sum)
    && TellsApart(SnapshotHashed(d.snapshot), SnapshotHashed(e.snapshot), sum)
    && TellsApart(HistoryHashed(d.deviations), HistoryHashed(e.deviations), sum)
    && TellsApart(RecordHashed(d, sum), RecordHashed(e, sum), sum)
  }

  /** The record's checksum alone covers everything that is stored. */
  lemma RecordCovered(d: Data, e: Data, sum: Hashed -> nat)
    requires ValidData(d) && ValidData(e) && NoCollision(d, e, sum)
    requires sum(RecordHashed(d, sum)) == sum(RecordHashed(e, sum))
    ensures NormalData(d) == NormalData(e)
  {
    assert RecordHashed(d, sum) == RecordHashed(e, sum);
    var ns, ms := RecordHashed(d, sum).numbers, RecordHashed(e, sum).numbers;
    assert ns[1] == ms[1] && ns[2] == ms[2] && ns[3] == ms[3] && ns[4] == ms[4] && ns[5] == ms[5] && ns[6] == ms[6];
    SessionCovered(d.phase, d.parkingRequired, e.phase, e.parkingRequired);
    EndpointCovered(d.endpoint, e.endpoint);
    IdentityCovered(d.identity, e.identity);
    OwnershipCovered(d.ownership, e.ownership);
    SnapshotCovered(d.snapshot, e.snapshot);
    HistoryCovered(d.deviations, e.deviations);
  }

  /** The seven checksums of one record, whatever they are asked for. */
  function Frozen(d: Data, sums: Sums): Sums {
    var session, endpoint := sums.session(d.phase, d.parkingRequired), sums.endpoint(NormalEndpoint(d.endpoint));
    var identity, ownership, snapshot := sums.identity(d.identity), sums.ownership(d.ownership), sums.snapshot(d.snapshot);
    var deviations, record := sums.deviations(d.deviations), sums.record(NormalData(d));
    Sums((_, _) => session, _ => endpoint, _ => identity, _ => ownership, _ => snapshot, _ => deviations, _ => record)
  }

  /** An endpoint's checksum does not see what its text does not store. */
  lemma NormalHashed(d: Data, sum: Hashed -> nat)
    ensures EndpointHashed(NormalEndpoint(d.endpoint)) == EndpointHashed(d.endpoint)
    ensures RecordHashed(NormalData(d), sum) == RecordHashed(d, sum)
  {
  }

  lemma SameRecordSum(d: Data, e: Data, sum: Hashed -> nat)
    requires SumsAgree(e, Frozen(d, SumsOf(sum)), SumsOf(sum))
    ensures sum(RecordHashed(d, sum)) == sum(RecordHashed(e, sum))
  {
    NormalHashed(d, sum);
    NormalHashed(e, sum);
  }

  lemma {:induction false} SameTextAgrees(d: Data, e: Data, sum: Hashed -> nat)
    requires NormalData(d) == NormalData(e)
    ensures SumsAgree(e, Frozen(d, SumsOf(sum)), SumsOf(sum))
  {
    assert NormalEndpoint(d.endpoint) == NormalData(d).endpoint && NormalEndpoint(e.endpoint) == NormalData(e).endpoint;
  }

  /** The text of one record under the checksums of another is accepted if and only if both store the same: short
      of a collision, no stored field can be altered unnoticed. */
  lemma AlteredIsRefused(d: Data, e: Data, sum: Hashed -> nat)
    requires ValidData(d) && ValidData(e) && NoCollision(d, e, sum) && SumsFit(d, SumsOf(sum))
    ensures ParseData(Print(e, Frozen(d, SumsOf(sum))), SumsOf(sum)).Got? <==> NormalData(d) == NormalData(e)
  {
    DataRoundTrip(e, Frozen(d, SumsOf(sum)), SumsOf(sum));
    if SumsAgree(e, Frozen(d, SumsOf(sum)), SumsOf(sum)) {
      SameRecordSum(d, e, sum);
      RecordCovered(d, e, sum);
    }
    if NormalData(d) == NormalData(e) { SameTextAgrees(d, e, sum); }
  }

  // Accepted text is written text

  lemma CheckedInverts<T>(value: T, ts: seq<string>, sum: nat, after: seq<string>)
    requires Checked(value, ts, sum).Got? && Alike(Checked(value, ts, sum).rest, after)
    ensures Alike(ts, Numbers([sum]) + after)
  {
    NumbersInvert(ts, [U64], after);
    assert ReadNumbers(ts, [U64]).value == [sum];
  }

  lemma {:induction false} PhaseSpelled(candidates: seq<Phase>, token: string)
    requires PhaseIn(candidates, token).Some?
    ensures PhaseToken(PhaseIn(candidates, token).value) == token
  {
    if PhaseToken(candidates[0]) != token { PhaseSpelled(candidates[1..], token); }
  }

  lemma TwoApart(s: string, t: string, rest: seq<string>)
    ensures [s, t] + rest == [s] + ([t] + rest)
  {
  }

  lemma SessionInverts(ts: seq<string>, sums: Sums, after: seq<string>)
    requires ParseSession(ts, sums).Got? && Alike(ParseSession(ts, sums).rest, after)
    ensures var v := ParseSession(ts, sums).value;
            Alike(ts, PrintSession(v.0, v.1, sums.session(v.0, v.1), after))
  {
    var (phase, parking) := ParseSession(ts, sums).value;
    var t1 := Expect(ts, "SESSION").rest;
    var t2 := Next(t1).rest;
    NumbersInvert(t2, [U16, U64], after);
    var ns := [Bit(parking), sums.session(phase, parking)];
    assert ReadNumbers(t2, [U16, U64]).value == ns;
    PhaseSpelled(PHASES, Next(t1).value);
    NextInverts(t1, Numbers(ns) + after);
    ExpectInverts(ts, "SESSION", [PhaseToken(phase)] + (Numbers(ns) + after));
    TwoApart("SESSION", PhaseToken(phase), Numbers(ns) + after);
  }

  lemma EndpointFieldsInvert(ts: seq<string>, sum: nat, after: seq<string>)
    requires ParseEndpointFields(ts).Got? && Alike(ParseEndpointFields(ts).rest, Numbers([sum]) + after)
    ensures Alike(ts, PrintEndpoint(ParseEndpointFields(ts).value, sum, after))
  {
    var e := ParseEndpointFields(ts).value;
    var t1 := Expect(ts, "ENDPOINT").rest;
    var t2 := Next(t1).rest;
    var t3 := Next(t2).rest;
    var t4 := ReadNumbers(t3, [U16]).rest;
    var a5 := Numbers([sum]) + after;
    var a4 := a5;
    if e.kind == SshBridge {
      NextInverts(Next(t4).rest, a5);
      NextInverts(t4, [e.command] + a5);
      TwoApart(e.destination, e.command, a5);
      a4 := [e.destination, e.command] + a5;
    }
    NumbersInvert(t3, [U16], a4);
    assert ReadNumbers(t3, [U16]).value == [e.port];
    var a3 := Numbers([e.port]) + a4;
    NextInverts(t2, a3);
    NextInverts(t1, [e.host] + a3);
    var kind := Next(t1).value;
    ExpectInverts(ts, "ENDPOINT", [kind] + ([e.host] + a3));
    assert ["ENDPOINT"] + ([kind] + ([e.host] + a3)) == ["ENDPOINT", kind, e.host] + a3;
  }

  lemma EndpointInverts(ts: seq<string>, sums: Sums, after: seq<string>)
    requires ParseEndpoint(ts, sums).Got? && Alike(ParseEndpoint(ts, sums).rest, after)
    ensures var e := ParseEndpoint(ts, sums).value;
            Alike(ts, PrintEndpoint(e, sums.endpoint(e), after)) && NormalEndpoint(e) == e
  {
    var e := ParseEndpoint(ts, sums).value;
    CheckedInverts(e, ParseEndpointFields(ts).rest, sums.endpoint(e), after);
    EndpointFieldsInvert(ts, sums.endpoint(e), after);
  }

  lemma IdentityInverts(ts: seq<string>, sums: Sums, after: seq<string>)
    requires ParseIdentity(ts, sums).Got? && Alike(ParseIdentity(ts, sums).rest, after)
    ensures var i := ParseIdentity(ts, sums).value; Alike(ts, PrintIdentity(i, sums.identity(i), after))
  {
    var i := ParseIdentity(ts, sums).value;
    var section := ReadSection(ts, "IDENTITY", IDENTITY_LIMITS);
    CheckedInverts(i, section.rest, sums.identity(i), after);
    assert section.value == IdentityNumbers(i);
    SectionInverts(ts, "IDENTITY", IDENTITY_LIMITS, Numbers([sums.identity(i)]) + after);
  }

  /** A checksum section, read. */
  lemma SummedInverts<T>(ts: seq<string>, keyword: string, value: T, sum: nat, after: seq<string>)
    requires Expect(ts, keyword).Got? && Checked(value, Expect(ts, keyword).rest, sum).Got?
    requires Alike(Checked(value, Expect(ts, keyword).rest, sum).rest, after)
    ensures Alike(ts, Section(keyword, [sum]) + after)
  {
    CheckedInverts(value, Expect(ts, keyword).rest, sum, after);
    ExpectInverts(ts, keyword, Numbers([sum]) + after);
    assert Section(keyword, [sum]) + after == [keyword] + (Numbers([sum]) + after);
  }

  lemma PresenceInverts(ts: seq<string>, keyword: string, after: seq<string>)
    requires ParsePresence(ts, keyword).Got? && Alike(ParsePresence(ts, keyword).rest, after)
    ensures Alike(ts, Section(keyword, [Bit(ParsePresence(ts, keyword).value)]) + after)
  {
    SectionInverts(ts, keyword, [U16], after);
    assert ReadSection(ts, keyword, [U16]).value == [Bit(ParsePresence(ts, keyword).value)];
  }

  lemma OwnershipFieldsInvert(ts: seq<string>, after: seq<string>)
    requires ParseOwnershipFields(ts).Got? && Alike(ParseOwnershipFields(ts).rest, after)
    ensures var o := ParseOwnershipFields(ts).value;
            Alike(ts, Numbers(OwnershipNumbers(o)) + (Numbers(o.isolated) + after))
  {
    var o := ParseOwnershipFields(ts).value;
    var numbers := ReadNumbers(ts, OWNERSHIP_LIMITS);
    NumbersInvert(numbers.rest, Repeat(U32, numbers.value[6]), after);
    assert numbers.value == OwnershipNumbers(o);
    NumbersInvert(ts, OWNERSHIP_LIMITS, Numbers(o.isolated) + after);
  }

  lemma OwnershipInverts(ts: seq<string>, sums: Sums, after: seq<string>)
    requires ParseOwnership(ts, sums).Got? && Alike(ParseOwnership(ts, sums).rest, after)
    ensures var o := ParseOwnership(ts, sums).value; Alike(ts, PrintOwnership(o, sums.ownership(o), after))
  {
    var o := ParseOwnership(ts, sums).value;
    var sum := sums.ownership(o);
    var tail := Section("OWNERSHIP_CHECKSUM", [sum]) + after;
    var t1 := ParsePresence(ts, "OWNERSHIP").rest;
    if o.Some? {
      SummedInverts(ParseOwnershipFields(t1).rest, "OWNERSHIP_CHECKSUM", o, sum, after);
      OwnershipFieldsInvert(t1, tail);
      PresenceInverts(ts, "OWNERSHIP", Numbers(OwnershipNumbers(o.value)) + (Numbers(o.value.isolated) + tail));
    } else {
      SummedInverts(t1, "OWNERSHIP_CHECKSUM", o, sum, after);
      PresenceInverts(ts, "OWNERSHIP", tail);
    }
  }

  lemma BuiltQuad(ns: seq<nat>)
    requires Fit(ns, Repeat(U16, 18))
    ensures QuadNumbers(BuildQuad(ns)) == ns
  {
  }

  lemma {:induction false} QuadsInvert(ts: seq<string>, count: nat, after: seq<string>)
    requires ParseQuads(ts, count).Got? && Alike(ParseQuads(ts, count).rest, after)
    ensures Alike(ts, PrintQuads(ParseQuads(ts, count).value, after))
    decreases count
  {
    if count > 0 {
      var section := ReadSection(ts, "QUAD", Repeat(U16, 18));
      var rest := ParseQuads(section.rest, count - 1).value;
      QuadsInvert(section.rest, count - 1, after);
      BuiltQuad(section.value);
      SectionInverts(ts, "QUAD", Repeat(U16, 18), PrintQuads(rest, after));
      assert ([BuildQuad(section.value)] + rest)[1..] == rest;
    }
  }

  lemma BuiltGlobals(ns: seq<nat>, quads: seq<Quad>)
    requires Fit(ns, GLOBALS_LIMITS)
    ensures GlobalsNumbers(Snapshot(true, true, ns[0], ns[1], ns[2], ns[3], ns[4], quads)) == ns
  {
  }

  lemma SnapshotFieldsInvert(ts: seq<string>, after: seq<string>)
    requires ParseSnapshotFields(ts).Got? && Alike(ParseSnapshotFields(ts).rest, after)
    ensures var s := ParseSnapshotFields(ts).value;
            Alike(ts, Section("GLOBALS", GlobalsNumbers(s)) + PrintQuads(s.quads, after))
  {
    var s := ParseSnapshotFields(ts).value;
    var section := ReadSection(ts, "GLOBALS", GLOBALS_LIMITS);
    QuadsInvert(section.rest, QUAD_COUNT, after);
    BuiltGlobals(section.value, s.quads);
    SectionInverts(ts, "GLOBALS", GLOBALS_LIMITS, PrintQuads(s.quads, after));
  }

  lemma SnapshotInverts(ts: seq<string>, sums: Sums, after: seq<string>)
    requires ParseSnapshot(ts, sums).Got? && Alike(ParseSnapshot(ts, sums).rest, after)
    ensures var s := ParseSnapshot(ts, sums).value; Alike(ts, PrintSnapshot(s, sums.snapshot(s), after))
  {
    var s := ParseSnapshot(ts, sums).value;
    var sum := sums.snapshot(s);
    var tail := Section("SNAPSHOT_CHECKSUM", [sum]) + after;
    var t1 := ParsePresence(ts, "RESTORE_SNAPSHOT").rest;
    if s.Some? {
      SummedInverts(ParseSnapshotFields(t1).rest, "SNAPSHOT_CHECKSUM", s, sum, after);
      SnapshotFieldsInvert(t1, tail);
      PresenceInverts(ts, "RESTORE_SNAPSHOT", Section("GLOBALS", GlobalsNumbers(s.value)) + PrintQuads(s.value.quads, tail));
    } else {
      SummedInverts(t1, "SNAPSHOT_CHECKSUM", s, sum, after);
      PresenceInverts(ts, "RESTORE_SNAPSHOT", tail);
    }
  }

  /** The scope tokens of a quad, or of none. */
  function ScopeTokens(quad: Option<nat>, after: seq<string>): seq<string> {
    if quad.None? then ["GLOBAL"] + after else Section("QUAD", [quad.value]) + after
  }

  lemma ScopeInverts(ts: seq<string>, after: seq<string>)
    requires ParseScope(ts).Got? && Alike(ParseScope(ts).rest, after)
    ensures Alike(ts, ScopeTokens(ParseScope(ts).value, after))
  {
    var t1 := Next(ts).rest;
    if Next(ts).value == "GLOBAL" {
      NextInverts(ts, after);
    } else {
      NumbersInvert(t1, [U16], after);
      var ns := ReadNumbers(t1, [U16]).value;
      NextInverts(ts, Numbers(ns) + after);
      assert Section("QUAD", ns) + after == ["QUAD"] + (Numbers(ns) + after) && ns == [ns[0]];
    }
  }

  lemma DeviationInverts(ts: seq<string>, after: seq<string>)
    requires ParseDeviation(ts).Got? && Alike(ParseDeviation(ts).rest, after)
    ensures Alike(ts, PrintDeviation(ParseDeviation(ts).value, after))
  {
    var d := ParseDeviation(ts).value;
    var ordinal := ReadSection(ts, "DEVIATION", [U32]);
    var scope := ParseScope(ordinal.rest);
    var numbers := ReadNumbers(scope.rest, DEVIATION_LIMITS);
    NextInverts(numbers.rest, after);
    PhaseSpelled(PHASES, Next(numbers.rest).value);
    assert numbers.value == DeviationNumbers(d);
    NumbersInvert(scope.rest, DEVIATION_LIMITS, [PhaseToken(d.phase)] + after);
    ScopeInverts(ordinal.rest, Numbers(DeviationNumbers(d)) + ([PhaseToken(d.phase)] + after));
    assert ordinal.value == [d.ordinal];
    SectionInverts(ts, "DEVIATION", [U32], PrintScope(d, Numbers(DeviationNumbers(d)) + ([PhaseToken(d.phase)] + after)));
  }

  lemma {:induction false} DeviationsInvert(ts: seq<string>, index: nat, count: nat, after: seq<string>)
    requires index <= count && ParseDeviations(ts, index, count).Got? && Alike(ParseDeviations(ts, index, count).rest, after)
    ensures Alike(ts, PrintDeviations(ParseDeviations(ts, index, count).value, after))
    ensures |ParseDeviations(ts, index, count).value| == count - index
    decreases count - index
  {
    if index < count {
      DeviationsInvert(ParseDeviation(ts).rest, index + 1, count, after);
      DeviationsInvertOn(ts, index, index + 1, count, after, ParseDeviation(ts).rest);
    }
  }

  lemma DeviationsInvertOn(ts: seq<string>, index: nat, next: nat, count: nat, after: seq<string>, rest: seq<string>)
    requires next == index + 1 <= count && ParseDeviations(ts, index, count).Got? && rest == ParseDeviation(ts).rest
    requires ParseDeviations(rest, next, count).Got?
    requires Alike(rest, PrintDeviations(ParseDeviations(rest, next, count).value, after))
    ensures Alike(ts, PrintDeviations(ParseDeviations(ts, index, count).value, after))
    ensures |ParseDeviations(ts, index, count).value| == |ParseDeviations(rest, next, count).value| + 1
  {
    var d, ds := ParseDeviation(ts).value, ParseDeviations(rest, next, count).value;
    DeviationInverts(ts, PrintDeviations(ds, after));
    PrintedApart(d, ds, after);
  }

  lemma PrintedApart(d: Deviation, ds: seq<Deviation>, rest: seq<string>)
    ensures PrintDeviations([d] + ds, rest) == PrintDeviation(d, PrintDeviations(ds, rest))
  {
    assert ([d] + ds)[1..] == ds;
  }

  lemma HistoryInverts(ts: seq<string>, sums: Sums, after: seq<string>)
    requires ParseHistory(ts, sums).Got? && Alike(ParseHistory(ts, sums).rest, after)
    ensures var ds := ParseHistory(ts, sums).value; Alike(ts, PrintHistory(ds, sums.deviations(ds), after))
  {
    var ds := ParseHistory(ts, sums).value;
    var count := ReadSection(ts, "DEVIATIONS", [U32]);
    var tail := Section("DEVIATIONS_CHECKSUM", [sums.deviations(ds)]) + after;
    SummedInverts(ParseDeviations(count.rest, 0, count.value[0]).rest, "DEVIATIONS_CHECKSUM", ds, sums.deviations(ds), after);
    DeviationsInvert(count.rest, 0, count.value[0], tail);
    assert count.value == [|ds|];
    SectionInverts(ts, "DEVIATIONS", [U32], PrintDeviations(ds, tail));
  }

  lemma EndInverts(ts: seq<string>)
    requires ParseEnd(ts).Got?
    ensures Alike(ts, PrintEnd(ParseEnd(ts).value))
  {
    var section := ReadSection(ts, "RECORD_CHECKSUM", [U64]);
    ExpectInverts(section.rest, "END", []);
    assert ["END"] + [] == ["END"] && section.value == [ParseEnd(ts).value];
    SectionInverts(ts, "RECORD_CHECKSUM", [U64], ["END"]);
  }

  function EvidenceTokens(e: Evidence, sums: Sums): seq<string> {
    PrintOwnership(e.ownership, sums.ownership(e.ownership),
      PrintSnapshot(e.snapshot, sums.snapshot(e.snapshot),
        PrintHistory(e.deviations, sums.deviations(e.deviations), PrintEnd(e.sum))))
  }

  lemma EvidenceInverts(ts: seq<string>, sums: Sums)
    requires ParseEvidence(ts, sums).Got?
    ensures Alike(ts, EvidenceTokens(ParseEvidence(ts, sums).value, sums))
  {
    var e := ParseEvidence(ts, sums).value;
    var t1 := ParseOwnership(ts, sums).rest;
    var t2 := ParseSnapshot(t1, sums).rest;
    var t3 := ParseHistory(t2, sums).rest;
    EndInverts(t3);
    HistoryInverts(t2, sums, PrintEnd(e.sum));
    var history := PrintHistory(e.deviations, sums.deviations(e.deviations), PrintEnd(e.sum));
    SnapshotInverts(t1, sums, history);
    OwnershipInverts(ts, sums, PrintSnapshot(e.snapshot, sums.snapshot(e.snapshot), history));
  }

  lemma RoutingInverts(ts: seq<string>, sums: Sums, after: seq<string>)
    requires ParseEndpoint(ts, sums).Got? && ParseIdentity(ParseEndpoint(ts, sums).rest, sums).Got?
    requires Alike(ParseIdentity(ParseEndpoint(ts, sums).rest, sums).rest, after)
    ensures var e := ParseEndpoint(ts, sums);
            var i := ParseIdentity(e.rest, sums).value;
            && NormalEndpoint(e.value) == e.value
            && Alike(ts, PrintEndpoint(e.value, sums.endpoint(e.value), PrintIdentity(i, sums.identity(i), after)))
  {
    var e := ParseEndpoint(ts, sums);
    var i := ParseIdentity(e.rest, sums).value;
    IdentityInverts(e.rest, sums, after);
    EndpointInverts(ts, sums, PrintIdentity(i, sums.identity(i), after));
  }

  lemma HeaderInverts(ts: seq<string>, sums: Sums, after: seq<string>)
    requires ReadSection(ts, MAGIC, [U32]).Got? && ReadSection(ts, MAGIC, [U32]).value == [5]
    requires ParseSession(ReadSection(ts, MAGIC, [U32]).rest, sums).Got?
    requires Alike(ParseSession(ReadSection(ts, MAGIC, [U32]).rest, sums).rest, after)
    ensures var v := ParseSession(ReadSection(ts, MAGIC, [U32]).rest, sums).value;
            Alike(ts, Section(MAGIC, [5]) + PrintSession(v.0, v.1, sums.session(v.0, v.1), after))
  {
    var t1 := ReadSection(ts, MAGIC, [U32]).rest;
    var v := ParseSession(t1, sums).value;
    SessionInverts(t1, sums, after);
    SectionInverts(ts, MAGIC, [U32], PrintSession(v.0, v.1, sums.session(v.0, v.1), after));
  }

  lemma DataInverts(ts: seq<string>, sums: Sums)
    requires ParseData(ts, sums).Got?
    ensures var d := ParseData(ts, sums).value; Alike(ts, Print(d, sums)) && NormalData(d) == d
  {
    var d := ParseData(ts, sums).value;
    var t1 := ReadSection(ts, MAGIC, [U32]).rest;
    var t2 := ParseSession(t1, sums).rest;
    var t4 := ParseIdentity(ParseEndpoint(t2, sums).rest, sums).rest;
    EvidenceInverts(t4, sums);
    var evidence := EvidenceTokens(ParseEvidence(t4, sums).value, sums);
    RoutingInverts(t2, sums, evidence);
    var routing := PrintEndpoint(d.endpoint, sums.endpoint(d.endpoint), PrintIdentity(d.identity, sums.identity(d.identity), evidence));
    assert ReadSection(ts, MAGIC, [U32]).value == [5];
    HeaderInverts(ts, sums, routing);
  }

  /** Nothing else is accepted: accepted text spells valid evidence, section for section, with exactly the seven
      checksums of what it spells. */
  lemma AcceptedIsWritten(ts: seq<string>, sums: Sums)
    requires Parse(ts, sums).Some?
    ensures var doc := Parse(ts, sums).value;
            ValidData(doc.data) && Normal(doc) == doc && Alike(ts, Print(doc.data, sums))
  {
    DataInverts(ts, sums);
  }
}
