/** The text of a version 5 recovery journal. */
module V5Text {
  import opened Words
  import opened ScpRegistry
  import opened ScpProfile
  import opened RecoveryRecord
  import opened V5Record
  import opened JournalTokens

  function PhaseToken(p: Phase): string {
    match p
    case Home => "HOME"
    case Preparing => "PREPARING"
    case Goal => "GOAL"
    case Group => "GROUP"
    case AutomaticLearnSignal => "AUTOMATIC_LEARN_SIGNAL"
    case AutomaticEnergy => "AUTOMATIC_ENERGY"
    case AutomaticTiming => "AUTOMATIC_TIMING"
    case Manual => "MANUAL"
    case GroupResult => "GROUP_RESULT"
    case Restoring => "RESTORING"
    case NextGroup => "NEXT_GROUP"
    case Finished => "FINISHED"
  }

  /** The first listed phase whose token this is. */
  function PhaseIn(candidates: seq<Phase>, token: string): Option<Phase> {
    if candidates == [] then None
    else if token == PhaseToken(candidates[0]) then Some(candidates[0])
    else PhaseIn(candidates[1..], token)
  }

  const PHASES: seq<Phase> := [Home, Preparing, Goal, Group, AutomaticLearnSignal, AutomaticEnergy, AutomaticTiming,
                               Manual, GroupResult, Restoring, NextGroup, Finished]

  function ParsePhase(token: string): Option<Phase> { PhaseIn(PHASES, token) }

  lemma TokensDiffer(p: Phase, q: Phase)
    ensures PhaseToken(p) == PhaseToken(q) <==> p == q
  {
  }

  lemma {:induction false} PhaseFound(candidates: seq<Phase>, p: Phase)
    requires p in candidates
    ensures PhaseIn(candidates, PhaseToken(p)) == Some(p)
  {
    TokensDiffer(p, candidates[0]);
    if candidates[0] != p { PhaseFound(candidates[1..], p); }
  }

  lemma PhaseRoundTrip(p: Phase)
    ensures ParsePhase(PhaseToken(p)) == Some(p)
  {
    assert PHASES[0] == Home && PHASES[1] == Preparing && PHASES[2] == Goal && PHASES[3] == Group;
    assert PHASES[4] == AutomaticLearnSignal && PHASES[5] == AutomaticEnergy && PHASES[6] == AutomaticTiming;
    assert PHASES[7] == Manual && PHASES[8] == GroupResult && PHASES[9] == Restoring;
    assert PHASES[10] == NextGroup && PHASES[11] == Finished;
    PhaseFound(PHASES, p);
  }

  /** Section checksums, as arbitrary functions of what the sections store. */
  datatype Sums = Sums(
    session: (Phase, bool) -> nat, endpoint: Endpoint -> nat, identity: Identity -> nat,
    ownership: Option<Ownership> -> nat, snapshot: Option<Snapshot> -> nat, deviations: seq<Deviation> -> nat,
    record: Data -> nat)

  function NormalEndpoint(e: Endpoint): Endpoint {
    if e.kind == DirectEthernet then e.(destination := "", command := "") else e
  }

  function NormalData(d: Data): Data { d.(endpoint := NormalEndpoint(d.endpoint)) }

  // Session

  function PrintSession(phase: Phase, parking: bool, sum: nat, rest: seq<string>): seq<string> {
    ["SESSION", PhaseToken(phase)] + (Numbers([Bit(parking), sum]) + rest)
  }

  function ParseSession(ts: seq<string>, sums: Sums): Read<(Phase, bool)> {
    var (_, t1) :- Expect(ts, "SESSION");
    var (token, t2) :- Next(t1);
    var (ns, rest) :- ReadNumbers(t2, [U16, U64]);
    if ns[0] > 1 || ParsePhase(token).None? then Malformed
    else if ns[1] != sums.session(ParsePhase(token).value, ns[0] == 1) then Malformed
    else Got((ParsePhase(token).value, ns[0] == 1), rest)
  }

  /** A section is read back if its stored checksum is that of its fields, and refused otherwise. */
  function Accepted<T>(same: bool, value: T, rest: seq<string>): Read<T> { if same then Got(value, rest) else Malformed }

  lemma SessionRoundTrip(phase: Phase, parking: bool, stored: nat, sums: Sums, rest: seq<string>)
    requires stored <= U64
    ensures ParseSession(PrintSession(phase, parking, stored, rest), sums)
         == Accepted(stored == sums.session(phase, parking), (phase, parking), rest)
  {
    var ns := [Bit(parking), stored];
    var t2 := Numbers(ns) + rest;
    var ts := ["SESSION", PhaseToken(phase)] + t2;
    assert ts[1..] == [PhaseToken(phase)] + t2 && ts[1..][1..] == t2;
    PhaseRoundTrip(phase);
    NumbersRoundTrip(ns, [U16, U64], rest);
  }

  // Endpoint

  function PrintEndpoint(e: Endpoint, sum: nat, rest: seq<string>): seq<string> {
    if e.kind == DirectEthernet then ["ENDPOINT", "DIRECT", e.host] + (Numbers([e.port]) + (Numbers([sum]) + rest))
    else ["ENDPOINT", "SSH_BRIDGE", e.host] + (Numbers([e.port]) + ([e.destination, e.command] + (Numbers([sum]) + rest)))
  }

  function ParseEndpointFields(ts: seq<string>): Read<Endpoint> {
    var (_, t1) :- Expect(ts, "ENDPOINT");
    var (kind, t2) :- Next(t1);
    var (host, t3) :- Next(t2);
    var (port, t4) :- ReadNumbers(t3, [U16]);
    if kind == "DIRECT" then Got(Endpoint(DirectEthernet, host, port[0], "", ""), t4)
    else if kind == "SSH_BRIDGE" then
      var (destination, t5) :- Next(t4);
      var (command, t6) :- Next(t5);
      Got(Endpoint(SshBridge, host, port[0], destination, command), t6)
    else Malformed
  }

  /** A section's value, if its stored checksum matches. */
  function Checked<T>(value: T, ts: seq<string>, sum: nat): Read<T> {
    var (stored, rest) :- ReadNumbers(ts, [U64]);
    if stored[0] != sum then Malformed else Got(value, rest)
  }

  lemma CheckedRoundTrip<T>(value: T, stored: nat, sum: nat, rest: seq<string>)
    requires stored <= U64
    ensures Checked(value, Numbers([stored]) + rest, sum) == Accepted(stored == sum, value, rest)
  {
    NumbersRoundTrip([stored], [U64], rest);
  }

  function ParseEndpoint(ts: seq<string>, sums: Sums): Read<Endpoint> {
    var (e, t1) :- ParseEndpointFields(ts);
    Checked(e, t1, sums.endpoint(e))
  }

  lemma EndpointRoundTrip(e: Endpoint, stored: nat, sums: Sums, rest: seq<string>)
    requires stored <= U64
    ensures ParseEndpoint(PrintEndpoint(e, stored, rest), sums)
         == Accepted(stored == sums.endpoint(NormalEndpoint(e)), NormalEndpoint(e), rest)
  {
    var t5 := Numbers([stored]) + rest;
    var t4 := if e.kind == DirectEthernet then t5 else [e.destination, e.command] + t5;
    var t3 := Numbers([e.port]) + t4;
    var ts := PrintEndpoint(e, stored, rest);
    assert ts[1..][1..][1..] == t3;
    assert e.kind == SshBridge ==> t4[1..][1..] == t5;
    NumbersRoundTrip([e.port], [U16], t4);
    CheckedRoundTrip(NormalEndpoint(e), stored, sums.endpoint(NormalEndpoint(e)), rest);
  }

  // Identity

  const IDENTITY_LIMITS: seq<nat> := [U32, U32, U32, U16, U16]

  function IdentityNumbers(i: Identity): seq<nat> {
    [i.mvlcHardwareId, i.mvlcFirmware, i.targetBase, i.targetHardwareId, i.targetFirmware]
  }

  function PrintIdentity(i: Identity, sum: nat, rest: seq<string>): seq<string> {
    Section("IDENTITY", IdentityNumbers(i)) + (Numbers([sum]) + rest)
  }

  function ParseIdentity(ts: seq<string>, sums: Sums): Read<Identity> {
    var (ns, t1) :- ReadSection(ts, "IDENTITY", IDENTITY_LIMITS);
    var i := Identity(ns[0], ns[1], ns[2], ns[3], ns[4]);
    Checked(i, t1, sums.identity(i))
  }

  lemma IdentityRoundTrip(i: Identity, stored: nat, sums: Sums, rest: seq<string>)
    requires stored <= U64
    ensures ParseIdentity(PrintIdentity(i, stored, rest), sums) == Accepted(stored == sums.identity(i), i, rest)
  {
    SectionRoundTrip("IDENTITY", IdentityNumbers(i), IDENTITY_LIMITS, Numbers([stored]) + rest);
    CheckedRoundTrip(i, stored, sums.identity(i), rest);
  }

  // Ownership

  const OWNERSHIP_LIMITS: seq<nat> := [U16, U32, U16, U32, U16, U32, U16]

  function OwnershipNumbers(o: Ownership): seq<nat> {
    [o.triggerRegister, o.triggerValue, o.offsetRegister, o.offsetValue, o.tokenRegister, o.tokenValue, |o.isolated|]
  }

  function PrintOwnership(o: Option<Ownership>, sum: nat, rest: seq<string>): seq<string> {
    var tail := Section("OWNERSHIP_CHECKSUM", [sum]) + rest;
    if o.None? then Section("OWNERSHIP", [0]) + tail
    else Section("OWNERSHIP", [1]) + (Numbers(OwnershipNumbers(o.value)) + (Numbers(o.value.isolated) + tail))
  }

  function ParseOwnershipFields(ts: seq<string>): Read<Ownership> {
    var (ns, t1) :- ReadNumbers(ts, OWNERSHIP_LIMITS);
    if ns[6] > MAXIMUM_ISOLATED then Malformed
    else
      var (bases, rest) :- ReadNumbers(t1, Repeat(U32, ns[6]));
      Got(Ownership(ns[0], ns[1], ns[2], ns[3], ns[4], ns[5], Narrow(bases)), rest)
  }

  /** A value that a 0 or 1 announces. */
  function ParsePresence(ts: seq<string>, keyword: string): Read<bool> {
    var (ns, rest) :- ReadSection(ts, keyword, [U16]);
    if ns[0] > 1 then Malformed else Got(ns[0] == 1, rest)
  }

  function ParseOwnership(ts: seq<string>, sums: Sums): Read<Option<Ownership>> {
    var (present, t1) :- ParsePresence(ts, "OWNERSHIP");
    if present then
      var (o, t2) :- ParseOwnershipFields(t1);
      var (_, t3) :- Expect(t2, "OWNERSHIP_CHECKSUM");
      Checked(Some(o), t3, sums.ownership(Some(o)))
    else
      var (_, t3) :- Expect(t1, "OWNERSHIP_CHECKSUM");
      Checked(None, t3, sums.ownership(None))
  }

  lemma SummedRoundTrip<T>(value: T, keyword: string, stored: nat, sum: nat, rest: seq<string>)
    requires stored <= U64
    ensures Expect(Section(keyword, [stored]) + rest, keyword) == Got((), Numbers([stored]) + rest)
    ensures Checked(value, Numbers([stored]) + rest, sum) == Accepted(stored == sum, value, rest)
  {
    assert (Section(keyword, [stored]) + rest)[1..] == Numbers([stored]) + rest;
    CheckedRoundTrip(value, stored, sum, rest);
  }

  lemma PresenceRoundTrip(keyword: string, present: bool, rest: seq<string>)
    ensures ParsePresence(Section(keyword, [Bit(present)]) + rest, keyword) == Got(present, rest)
  {
    SectionRoundTrip(keyword, [Bit(present)], [U16], rest);
  }

  lemma OwnershipFieldsRoundTrip(o: Ownership, rest: seq<string>)
    requires |o.isolated| <= MAXIMUM_ISOLATED
    ensures ParseOwnershipFields(Numbers(OwnershipNumbers(o)) + (Numbers(o.isolated) + rest)) == Got(o, rest)
  {
    NumbersRoundTrip(OwnershipNumbers(o), OWNERSHIP_LIMITS, Numbers(o.isolated) + rest);
    NumbersRoundTrip(o.isolated, Repeat(U32, |o.isolated|), rest);
  }

  lemma OwnershipRoundTrip(o: Option<Ownership>, stored: nat, sums: Sums, rest: seq<string>)
    requires stored <= U64 && (o.Some? ==> |o.value.isolated| <= MAXIMUM_ISOLATED)
    ensures ParseOwnership(PrintOwnership(o, stored, rest), sums) == Accepted(stored == sums.ownership(o), o, rest)
  {
    var tail := Section("OWNERSHIP_CHECKSUM", [stored]) + rest;
    SummedRoundTrip(o, "OWNERSHIP_CHECKSUM", stored, sums.ownership(o), rest);
    if o.Some? {
      PresenceRoundTrip("OWNERSHIP", true, Numbers(OwnershipNumbers(o.value)) + (Numbers(o.value.isolated) + tail));
      OwnershipFieldsRoundTrip(o.value, tail);
    } else {
      PresenceRoundTrip("OWNERSHIP", false, tail);
    }
  }

  // Snapshot

  const GLOBALS_LIMITS: seq<nat> := [U32, U16, U16, U16, U16]

  function GlobalsNumbers(s: Snapshot): seq<nat> { [s.base, s.hardwareId, s.firmware, s.irqLevel, s.outputFormat] }

  function QuadNumbers(q: Quad): (ns: seq<nat>)
    ensures |ns| == 18
  {
    [q.quad, q.timingFilter, q.poleZero[0], q.poleZero[1], q.poleZero[2], q.poleZero[3], q.gain,
     q.thresholds[0], q.thresholds[1], q.thresholds[2], q.thresholds[3], q.shapingTime, q.baselineRestorer,
     q.resetTime, q.signalRiseTime, q.preSamples, q.totalSamples, q.sampleConfiguration]
  }

  function BuildQuad(ns: seq<nat>): Quad
    requires Fit(ns, Repeat(U16, 18))
  {
    assert forall i | 0 <= i < 18 :: ns[i] <= Repeat(U16, 18)[i];
    Quad(ns[0], ns[1], [ns[2], ns[3], ns[4], ns[5]], ns[6], [ns[7], ns[8], ns[9], ns[10]], ns[11], ns[12],
         ns[13], ns[14], ns[15], ns[16], ns[17])
  }

  lemma BuildQuadInverts(q: Quad)
    ensures Fit(QuadNumbers(q), Repeat(U16, 18)) && BuildQuad(QuadNumbers(q)) == q
  {
  }

  function PrintQuads(qs: seq<Quad>, rest: seq<string>): seq<string> {
    if qs == [] then rest else Section("QUAD", QuadNumbers(qs[0])) + PrintQuads(qs[1..], rest)
  }

  function ParseQuads(ts: seq<string>, count: nat): (r: Read<seq<Quad>>)
    ensures r.Got? ==> |r.value| == count
    decreases count
  {
    if count == 0 then Got([], ts)
    else
      var (ns, t1) :- ReadSection(ts, "QUAD", Repeat(U16, 18));
      var (qs, rest) :- ParseQuads(t1, count - 1);
      Got([BuildQuad(ns)] + qs, rest)
  }

  lemma {:induction false} QuadsRoundTrip(qs: seq<Quad>, rest: seq<string>)
    ensures ParseQuads(PrintQuads(qs, rest), |qs|) == Got(qs, rest)
  {
    if qs != [] {
      BuildQuadInverts(qs[0]);
      SectionRoundTrip("QUAD", QuadNumbers(qs[0]), Repeat(U16, 18), PrintQuads(qs[1..], rest));
      QuadsRoundTrip(qs[1..], rest);
      assert [qs[0]] + qs[1..] == qs;
    }
  }

  function PrintSnapshot(s: Option<Snapshot>, sum: nat, rest: seq<string>): seq<string> {
    var tail := Section("SNAPSHOT_CHECKSUM", [sum]) + rest;
    if s.None? then Section("RESTORE_SNAPSHOT", [0]) + tail
    else Section("RESTORE_SNAPSHOT", [1]) + (Section("GLOBALS", GlobalsNumbers(s.value)) + PrintQuads(s.value.quads, tail))
  }

  function ParseSnapshotFields(ts: seq<string>): Read<Snapshot> {
    var (ns, t1) :- ReadSection(ts, "GLOBALS", GLOBALS_LIMITS);
    var (qs, rest) :- ParseQuads(t1, QUAD_COUNT);
    Got(Snapshot(true, true, ns[0], ns[1], ns[2], ns[3], ns[4], qs), rest)
  }

  function ParseSnapshot(ts: seq<string>, sums: Sums): Read<Option<Snapshot>> {
    var (present, t1) :- ParsePresence(ts, "RESTORE_SNAPSHOT");
    if present then
      var (s, t2) :- ParseSnapshotFields(t1);
      var (_, t3) :- Expect(t2, "SNAPSHOT_CHECKSUM");
      Checked(Some(s), t3, sums.snapshot(Some(s)))
    else
      var (_, t3) :- Expect(t1, "SNAPSHOT_CHECKSUM");
      Checked(None, t3, sums.snapshot(None))
  }

  lemma SnapshotFieldsRoundTrip(s: Snapshot, rest: seq<string>)
    requires s.complete && s.parked && |s.quads| == QUAD_COUNT
    ensures ParseSnapshotFields(Section("GLOBALS", GlobalsNumbers(s)) + PrintQuads(s.quads, rest)) == Got(s, rest)
  {
    SectionRoundTrip("GLOBALS", GlobalsNumbers(s), GLOBALS_LIMITS, PrintQuads(s.quads, rest));
    QuadsRoundTrip(s.quads, rest);
  }

  lemma SnapshotRoundTrip(s: Option<Snapshot>, stored: nat, sums: Sums, rest: seq<string>)
    requires stored <= U64
    requires s.Some? ==> s.value.complete && s.value.parked && |s.value.quads| == QUAD_COUNT
    ensures ParseSnapshot(PrintSnapshot(s, stored, rest), sums) == Accepted(stored == sums.snapshot(s), s, rest)
  {
    var tail := Section("SNAPSHOT_CHECKSUM", [stored]) + rest;
    SummedRoundTrip(s, "SNAPSHOT_CHECKSUM", stored, sums.snapshot(s), rest);
    if s.Some? {
      PresenceRoundTrip("RESTORE_SNAPSHOT", true, Section("GLOBALS", GlobalsNumbers(s.value)) + PrintQuads(s.value.quads, tail));
      SnapshotFieldsRoundTrip(s.value, tail);
    } else {
      PresenceRoundTrip("RESTORE_SNAPSHOT", false, tail);
    }
  }

  // Deviations

  const DEVIATION_LIMITS: seq<nat> := [U16, U16, U16, U16]

  function DeviationNumbers(d: Deviation): seq<nat> { [d.reg, d.original, d.previous, d.requested] }

  function PrintScope(d: Deviation, rest: seq<string>): seq<string> {
    if d.scope == GlobalScope then ["GLOBAL"] + rest
    else Section("QUAD", [if d.quad.Some? then d.quad.value else 0]) + rest
  }

  function PrintDeviation(d: Deviation, rest: seq<string>): seq<string> {
    Section("DEVIATION", [d.ordinal]) + PrintScope(d, Numbers(DeviationNumbers(d)) + ([PhaseToken(d.phase)] + rest))
  }

  /** The quad of a banked deviation, none for a global one. */
  function ParseScope(ts: seq<string>): (r: Read<Option<nat>>)
    ensures r.Got? && r.value.Some? ==> r.value.value <= U16
  {
    var (scope, t1) :- Next(ts);
    if scope == "GLOBAL" then Got(None, t1)
    else if scope == "QUAD" then
      var (ns, rest) :- ReadNumbers(t1, [U16]);
      Got(Some(ns[0]), rest)
    else Malformed
  }

  function ParseDeviation(ts: seq<string>): Read<Deviation> {
    var (ordinal, t1) :- ReadSection(ts, "DEVIATION", [U32]);
    var (quad, t2) :- ParseScope(t1);
    var (ns, t3) :- ReadNumbers(t2, DEVIATION_LIMITS);
    var (token, rest) :- Next(t3);
    if ParsePhase(token).None? then Malformed
    else
      Got(Deviation(ordinal[0], if quad.Some? then QuadScope else GlobalScope,
                    if quad.Some? then Some(quad.value) else None, ns[0], ns[1], ns[2], ns[3], ParsePhase(token).value), rest)
  }

  lemma ScopeRoundTrip(d: Deviation, rest: seq<string>)
    requires PlaceOf(d).Some?
    ensures ParseScope(PrintScope(d, rest)) == Got(if d.quad.Some? then Some(d.quad.value) else None, rest)
  {
    if d.scope == GlobalScope {
      assert (["GLOBAL"] + rest)[1..] == rest;
    } else {
      NumbersRoundTrip([d.quad.value], [U16], rest);
      assert (Section("QUAD", [d.quad.value]) + rest)[1..] == Numbers([d.quad.value]) + rest;
    }
  }

  lemma DeviationRoundTrip(d: Deviation, rest: seq<string>)
    requires PlaceOf(d).Some?
    ensures ParseDeviation(PrintDeviation(d, rest)) == Got(d, rest)
  {
    var t3 := [PhaseToken(d.phase)] + rest;
    var t2 := Numbers(DeviationNumbers(d)) + t3;
    SectionRoundTrip("DEVIATION", [d.ordinal], [U32], PrintScope(d, t2));
    ScopeRoundTrip(d, t2);
    NumbersRoundTrip(DeviationNumbers(d), DEVIATION_LIMITS, t3);
    PhaseRoundTrip(d.phase);
    assert t3[1..] == rest;
  }

  function PrintDeviations(ds: seq<Deviation>, rest: seq<string>): seq<string> {
    if ds == [] then rest else PrintDeviation(ds[0], PrintDeviations(ds[1..], rest))
  }

  /** The deviations from position `index` on, each in its place. */
  function ParseDeviations(ts: seq<string>, index: nat, count: nat): Read<seq<Deviation>>
    requires index <= count
    decreases count - index
  {
    if index == count then Got([], ts)
    else
      var (d, t1) :- ParseDeviation(ts);
      if d.ordinal != index then Malformed
      else
        var (ds, rest) :- ParseDeviations(t1, index + 1, count);
        Got([d] + ds, rest)
  }

  predicate InPlace(ds: seq<Deviation>, index: nat) {
    forall i | 0 <= i < |ds| :: ds[i].ordinal == index + i && PlaceOf(ds[i]).Some?
  }

  lemma {:induction false} DeviationsRoundTrip(ds: seq<Deviation>, index: nat, count: nat, rest: seq<string>)
    requires InPlace(ds, index) && count == index + |ds|
    ensures ParseDeviations(PrintDeviations(ds, rest), index, count) == Got(ds, rest)
    decreases |ds|
  {
    if ds != [] {
      var later := ds[1..];
      assert InPlace(later, index + 1) by { assert forall i | 0 <= i < |later| :: later[i] == ds[i + 1]; }
      DeviationsRoundTrip(later, index + 1, count, rest);
      OneMoreDeviation(ds[0], PrintDeviations(later, rest), later, index, index + 1, count, rest);
      assert [ds[0]] + later == ds;
    }
  }

  lemma OneMoreDeviation(d: Deviation, more: seq<string>, ds: seq<Deviation>, index: nat, next: nat, count: nat, rest: seq<string>)
    requires next == index + 1 <= count && d.ordinal == index && PlaceOf(d).Some?
    requires ParseDeviations(more, next, count) == Got(ds, rest)
    ensures ParseDeviations(PrintDeviation(d, more), index, count) == Got([d] + ds, rest)
  {
    DeviationRoundTrip(d, more);
  }

  lemma {:induction false} HistoryInPlace(s: Snapshot, ds: seq<Deviation>)
    requires IsHistory(s, ds)
    ensures InPlace(ds, 0)
  {
    if ds != [] { HistoryInPlace(s, ds[..|ds| - 1]); }
  }

  function PrintHistory(ds: seq<Deviation>, sum: nat, rest: seq<string>): seq<string> {
    Section("DEVIATIONS", [|ds|]) + PrintDeviations(ds, Section("DEVIATIONS_CHECKSUM", [sum]) + rest)
  }

  function ParseHistory(ts: seq<string>, sums: Sums): Read<seq<Deviation>> {
    var (count, t1) :- ReadSection(ts, "DEVIATIONS", [U32]);
    if count[0] > MAXIMUM_DEVIATIONS then Malformed
    else
      var (ds, t2) :- ParseDeviations(t1, 0, count[0]);
      var (_, t3) :- Expect(t2, "DEVIATIONS_CHECKSUM");
      Checked(ds, t3, sums.deviations(ds))
  }

  lemma HistoryRoundTrip(ds: seq<Deviation>, stored: nat, sums: Sums, rest: seq<string>)
    requires InPlace(ds, 0) && |ds| <= MAXIMUM_DEVIATIONS && stored <= U64
    ensures ParseHistory(PrintHistory(ds, stored, rest), sums) == Accepted(stored == sums.deviations(ds), ds, rest)
  {
    var tail := Section("DEVIATIONS_CHECKSUM", [stored]) + rest;
    SectionRoundTrip("DEVIATIONS", [|ds|], [U32], PrintDeviations(ds, tail));
    DeviationsRoundTrip(ds, 0, |ds|, tail);
    SummedRoundTrip(ds, "DEVIATIONS_CHECKSUM", stored, sums.deviations(ds), rest);
  }

  // The whole record

  function PrintEnd(sum: nat): seq<string> { Section("RECORD_CHECKSUM", [sum]) + ["END"] }

  function ParseEnd(ts: seq<string>): Read<nat> {
    var (ns, t1) :- ReadSection(ts, "RECORD_CHECKSUM", [U64]);
    var (_, rest) :- Expect(t1, "END");
    if rest != [] then Malformed else Got(ns[0], rest)
  }

  lemma EndRoundTrip(sum: nat)
    requires sum <= U64
    ensures ParseEnd(PrintEnd(sum)) == Got(sum, [])
  {
    SectionRoundTrip("RECORD_CHECKSUM", [sum], [U64], ["END"]);
  }

  function PrintEvidence(d: Data, sums: Sums): seq<string> {
    PrintOwnership(d.ownership, sums.ownership(d.ownership),
      PrintSnapshot(d.snapshot, sums.snapshot(d.snapshot),
        PrintHistory(d.deviations, sums.deviations(d.deviations), PrintEnd(sums.record(NormalData(d))))))
  }

  /** WriteV5. */
  function Print(d: Data, sums: Sums): seq<string> {
    Section(MAGIC, [5]) +
    PrintSession(d.phase, d.parkingRequired, sums.session(d.phase, d.parkingRequired),
      PrintEndpoint(d.endpoint, sums.endpoint(NormalEndpoint(d.endpoint)),
        PrintIdentity(d.identity, sums.identity(d.identity), PrintEvidence(d, sums))))
  }

  datatype Evidence = Evidence(ownership: Option<Ownership>, snapshot: Option<Snapshot>, deviations: seq<Deviation>, sum: nat)

  function ParseEvidence(ts: seq<string>, sums: Sums): Read<Evidence> {
    var (o, t1) :- ParseOwnership(ts, sums);
    var (s, t2) :- ParseSnapshot(t1, sums);
    var (ds, t3) :- ParseHistory(t2, sums);
    var (sum, rest) :- ParseEnd(t3);
    Got(Evidence(o, s, ds, sum), rest)
  }

  function ParseData(ts: seq<string>, sums: Sums): Read<Data> {
    var (version, t1) :- ReadSection(ts, MAGIC, [U32]);
    if version[0] != 5 then Malformed
    else
      var (session, t2) :- ParseSession(t1, sums);
      var (endpoint, t3) :- ParseEndpoint(t2, sums);
      var (identity, t4) :- ParseIdentity(t3, sums);
      var (e, rest) :- ParseEvidence(t4, sums);
      var d := Data(session.0, endpoint, identity, session.1, e.ownership, e.snapshot, e.deviations);
      if e.sum != sums.record(d) then Malformed else Got(d, rest)
  }

  predicate SumsFit(d: Data, sums: Sums) {
    && sums.session(d.phase, d.parkingRequired) <= U64 && sums.endpoint(NormalEndpoint(d.endpoint)) <= U64
    && sums.identity(d.identity) <= U64 && sums.ownership(d.ownership) <= U64 && sums.snapshot(d.snapshot) <= U64
    && sums.deviations(d.deviations) <= U64 && sums.record(NormalData(d)) <= U64
  }

  predicate EvidenceAgrees(d: Data, stored: Sums, sums: Sums) {
    && stored.ownership(d.ownership) == sums.ownership(d.ownership)
    && stored.snapshot(d.snapshot) == sums.snapshot(d.snapshot)
    && stored.deviations(d.deviations) == sums.deviations(d.deviations)
  }

  lemma EvidenceRoundTrip(d: Data, stored: Sums, sums: Sums)
    requires ValidData(d) && SumsFit(d, stored)
    ensures ParseEvidence(PrintEvidence(d, stored), sums)
         == Accepted(EvidenceAgrees(d, stored, sums),
                     Evidence(d.ownership, d.snapshot, d.deviations, stored.record(NormalData(d))), [])
  {
    var t3 := PrintEnd(stored.record(NormalData(d)));
    var t2 := PrintHistory(d.deviations, stored.deviations(d.deviations), t3);
    var t1 := PrintSnapshot(d.snapshot, stored.snapshot(d.snapshot), t2);
    OwnershipRoundTrip(d.ownership, stored.ownership(d.ownership), sums, t1);
    SnapshotRoundTrip(d.snapshot, stored.snapshot(d.snapshot), sums, t2);
    if d.snapshot.Some? { HistoryInPlace(d.snapshot.value, d.deviations); }
    HistoryRoundTrip(d.deviations, stored.deviations(d.deviations), sums, t3);
    EndRoundTrip(stored.record(NormalData(d)));
  }

  /** Every stored checksum is the one of what it stands for. */
  predicate SumsAgree(d: Data, stored: Sums, sums: Sums) {
    && stored.session(d.phase, d.parkingRequired) == sums.session(d.phase, d.parkingRequired)
    && stored.endpoint(NormalEndpoint(d.endpoint)) == sums.endpoint(NormalEndpoint(d.endpoint))
    && stored.identity(d.identity) == sums.identity(d.identity)
    && EvidenceAgrees(d, stored, sums)
    && stored.record(NormalData(d)) == sums.record(NormalData(d))
  }

  /** The outcome for the text of valid evidence with any seven stored checksums: it is read back if all of them
      agree, and refused otherwise. */
  lemma DataRoundTrip(d: Data, stored: Sums, sums: Sums)
    requires ValidData(d) && SumsFit(d, stored)
    ensures ParseData(Print(d, stored), sums) == Accepted(SumsAgree(d, stored, sums), NormalData(d), [])
  {
    var t4 := PrintEvidence(d, stored);
    var t3 := PrintIdentity(d.identity, stored.identity(d.identity), t4);
    var t2 := PrintEndpoint(d.endpoint, stored.endpoint(NormalEndpoint(d.endpoint)), t3);
    var t1 := PrintSession(d.phase, d.parkingRequired, stored.session(d.phase, d.parkingRequired), t2);
    SectionRoundTrip(MAGIC, [5], [U32], t1);
    SessionRoundTrip(d.phase, d.parkingRequired, stored.session(d.phase, d.parkingRequired), sums, t2);
    EndpointRoundTrip(d.endpoint, stored.endpoint(NormalEndpoint(d.endpoint)), sums, t3);
    IdentityRoundTrip(d.identity, stored.identity(d.identity), sums, t4);
    EvidenceRoundTrip(d, stored, sums);
  }

  /** A version 5 record: its evidence, and the fields that its text does not store. */
  datatype Document = Document(phase: u16, commandPort: u16, snapshotMessage: string, selectorLog: seq<u16>, data: Data)

  /** The document that parsed evidence amounts to: everything else at its default. */
  function Stored(d: Data): Document {
    Document(PHASE_PREPARED, 32768, if d.snapshot.Some? then "Parsed from v5 recovery journal." else "", [], d)
  }

  /** A document as its text stores it. */
  function Normal(d: Document): Document { Stored(NormalData(d.data)) }

  function Serialize(d: Document, sums: Sums): Option<seq<string>> {
    if ValidData(d.data) then Some(Print(d.data, sums)) else None
  }

  /** ParseTunerRecoveryJournalV5. */
  function Parse(ts: seq<string>, sums: Sums): (r: Option<Document>)
    ensures r.Some? ==> ValidData(r.value.data)
  {
    match ParseData(ts, sums)
    case Malformed => None
    case Got(d, _) =>
      if !ValidData(d) then None else Some(Stored(d))
  }

  lemma NormalStored(d: Data, sums: Sums)
    ensures ValidData(NormalData(d)) == ValidData(d) && NormalData(NormalData(d)) == NormalData(d)
    ensures Print(NormalData(d), sums) == Print(d, sums)
  {
  }

  /** Every valid document parses back to its normal form, which serializes to the same text. */
  lemma DocumentRoundTrip(d: Document, sums: Sums)
    requires ValidData(d.data) && SumsFit(d.data, sums)
    ensures Serialize(d, sums).Some? && Parse(Serialize(d, sums).value, sums) == Some(Normal(d))
    ensures Serialize(Normal(d), sums) == Serialize(d, sums) && Normal(Normal(d)) == Normal(d)
  {
    DataRoundTrip(d.data, sums, sums);
    NormalStored(d.data, sums);
  }
}
