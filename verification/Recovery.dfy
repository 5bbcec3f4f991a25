/** Orphan recovery: the gate every recovery write has to pass, stated over the event trace. */
module RecoveryGate {
  import opened Words
  import opened ScpRegistry
  import opened RecoveryRecord
  import opened Crate
  import opened Fingerprint
  import opened PauseResume

  const APPROVED_HARDWARE_ID: u16 := 0x5007

  /** The readbacks that justify writing during a recovery: controller identity and the whole
      fingerprint with the verdict for this path, the target's identity and exact firmware, and then
      either the stopped target (idle path) or the identity of every isolated module (active path). */
  ghost predicate Justifies(seen: set<Event>, r: Record, idle: bool) {
    && VerdictAmong(seen, r, if idle then IdleWithRestoration else OrphanConfirmed)
    && TargetAmong(seen, r)
    && (idle ==> Event.ReadLocal([DAQ_MODE], [0]) in seen && Event.ReadVme(r.mdppBaseAddress + ACQUISITION_CONTROL, 0) in seen)
    && (!idle ==> IsolatedAmong(seen, r, |r.isolated|))
  }

  ghost predicate VerdictAmong(seen: set<Event>, r: Record, verdict: Verdict) {
    exists hardware: u32, firmware: u32, values: seq<u32> ::
      && Event.ReadLocal([MVLC_HARDWARE_ID, MVLC_FIRMWARE], [hardware, firmware]) in seen
      && |values| == FINGERPRINT_COUNT && Reconstructible(r)
      && Event.ReadLocal(Expected(r).addresses, values) in seen
      && VerdictOf(r, LiveFingerprint(hardware, firmware, values)) == verdict
  }

  ghost predicate TargetAmong(seen: set<Event>, r: Record) {
    && r.mdppHardwareId == APPROVED_HARDWARE_ID
    && Event.ReadVme(r.mdppBaseAddress + HARDWARE_ID, r.mdppHardwareId) in seen
    && Event.ReadVme(r.mdppBaseAddress + FIRMWARE_REVISION, FW2051) in seen
  }

  ghost predicate IsolatedAmong(seen: set<Event>, r: Record, count: nat)
    requires count <= |r.isolated|
  {
    forall i | 0 <= i < count :: Event.ReadVme(r.isolated[i] + HARDWARE_ID, APPROVED_HARDWARE_ID) in seen
  }

  /** All events at or after position n. */
  ghost function Since(trace: seq<Event>, n: nat): set<Event> { set i | n <= i < |trace| :: trace[i] }

  lemma SinceGrows(trace: seq<Event>, later: seq<Event>, n: nat)
    requires trace <= later
    ensures Since(trace, n) <= Since(later, n)
  {
  }

  /** Each of the events happened at or after position n. */
  ghost predicate AllSeen(trace: seq<Event>, n: nat, seen: set<Event>) {
    forall e | e in seen :: Seen(trace, n, e)
  }

  /** DAQ mode was read back as zero after position n and after the last write. */
  ghost predicate FreshIdle(trace: seq<Event>, n: nat) {
    |trace| > n &&
    var last := |trace| - 1;
    trace[last] == Event.ReadLocal([DAQ_MODE], [0]) || (!IsWrite(trace[last]) && FreshIdle(trace[..last], n))
  }

  /** What must hold of the trace before a write is sent. */
  ghost predicate MayWrite(trace: seq<Event>, n: nat, seen: set<Event>, idle: bool) {
    AllSeen(trace, n, seen) && (idle ==> FreshIdle(trace, n))
  }

  /** Every write since position n was sent in a state that allowed it. */
  ghost predicate AllGated(trace: seq<Event>, n: nat, seen: set<Event>, idle: bool) {
    && n <= |trace|
    && (|trace| > n ==>
          var last := |trace| - 1;
          (IsWrite(trace[last]) ==> MayWrite(trace[..last], n, seen, idle)) && AllGated(trace[..last], n, seen, idle))
  }

  /** AllGated, said of each write. */
  lemma {:induction false} GatedMeans(trace: seq<Event>, n: nat, seen: set<Event>, idle: bool, i: nat)
    requires AllGated(trace, n, seen, idle) && n <= i < |trace| && IsWrite(trace[i])
    ensures MayWrite(trace[..i], n, seen, idle)
  {
    var last := |trace| - 1;
    if i < last {
      GatedMeans(trace[..last], n, seen, idle, i);
      assert trace[..last][..i] == trace[..i];
    }
  }

  /** FreshIdle, said with the position of the readback. */
  lemma {:induction false} FreshMeans(trace: seq<Event>, n: nat) returns (j: nat)
    requires FreshIdle(trace, n)
    ensures n <= j < |trace| && trace[j] == Event.ReadLocal([DAQ_MODE], [0])
    ensures forall k | j < k < |trace| :: !IsWrite(trace[k])
  {
    var last := |trace| - 1;
    if trace[last] == Event.ReadLocal([DAQ_MODE], [0]) { return last; }
    j := FreshMeans(trace[..last], n);
  }

  ghost predicate GateOpen(trace: seq<Event>, n: nat, seen: set<Event>, idle: bool) {
    AllGated(trace, n, seen, idle) && AllSeen(trace, n, seen)
  }

  lemma AllSeenLater(trace: seq<Event>, e: Event, n: nat, seen: set<Event>)
    requires AllSeen(trace, n, seen)
    ensures AllSeen(trace + [e], n, seen)
  {
    forall x | x in seen ensures Seen(trace + [e], n, x) { SeenLater(trace, n, trace + [e], n, x); }
  }

  lemma GatedAppend(trace: seq<Event>, e: Event, n: nat, seen: set<Event>, idle: bool)
    requires AllGated(trace, n, seen, idle)
    requires IsWrite(e) ==> MayWrite(trace, n, seen, idle)
    ensures AllGated(trace + [e], n, seen, idle)
  {
  }

  lemma FreshAfterRead(trace: seq<Event>, e: Event, n: nat)
    requires FreshIdle(trace, n) && !IsWrite(e)
    ensures FreshIdle(trace + [e], n)
  {
  }

  /** A read keeps the gate open. */
  method Look(w: World, address: nat, ghost n: nat, ghost seen: set<Event>, ghost idle: bool) returns (result: Step<Option<u16>>)
    requires GateOpen(w.trace, n, seen, idle)
    modifies w`trace, w`faulty, w`refusals, w`clock
    ensures GateOpen(w.trace, n, seen, idle) && old(w.trace) <= w.trace
    ensures old(w.faulty) ==> w.faulty
    ensures !w.faulty ==> result.Done? && result.value.Some?
    ensures old(FreshIdle(w.trace, n)) ==> FreshIdle(w.trace, n)
    ensures result.Done? && result.value.Some? ==> result.value.value == w.Value(address) && w.refusals == old(w.refusals)
  {
    result := w.ReadVme(address);
    if w.trace != old(w.trace) {
      var e := w.trace[|w.trace| - 1];
      GatedAppend(old(w.trace), e, n, seen, idle);
      AllSeenLater(old(w.trace), e, n, seen);
      if FreshIdle(old(w.trace), n) { FreshAfterRead(old(w.trace), e, n); }
    }
  }

  /** A write may pass only through an open gate, on the idle path only with a fresh idle readback. */
  method Send(w: World, address: nat, value: u16, ghost n: nat, ghost seen: set<Event>, ghost idle: bool)
    returns (result: Step<bool>)
    requires GateOpen(w.trace, n, seen, idle) && (idle ==> FreshIdle(w.trace, n))
    modifies w`selector, w`banks, w`vme, w`trace, w`sent, w`faulty, w`refusals, w`clock
    ensures GateOpen(w.trace, n, seen, idle) && old(w.trace) <= w.trace
    ensures w.sent == old(w.sent) + [SentVme(address, value)]
    ensures result == Done(true) ==> w.refusals == old(w.refusals)
    ensures old(w.faulty) ==> w.faulty
    ensures !w.faulty ==>
              && result == Done(true)
              && (w.Banked(address) ==> w.banks == Poke(old(w.banks), w.selector, address - w.base, value))
              && (address != w.base + SELECTOR_REGISTER && !w.Banked(address) ==> w.vme == old(w.vme)[address := value])
    ensures w.selector != old(w.selector) ==> address == w.base + SELECTOR_REGISTER && w.selector == value
    ensures result == Done(true) && address == w.base + SELECTOR_REGISTER ==> w.selector == value
    ensures w.banks != old(w.banks) ==>
              w.Banked(address) && w.banks == Poke(old(w.banks), old(w.selector), address - w.base, value)
  {
    result := w.WriteVme(address, value);
    GatedAppend(old(w.trace), SentVme(address, value), n, seen, idle);
    AllSeenLater(old(w.trace), SentVme(address, value), n, seen);
  }

  /** Reads alone keep the gate open and an idle readback fresh. */
  lemma {:induction false} ReadsKeepGate(trace: seq<Event>, later: seq<Event>, n: nat, seen: set<Event>, idle: bool)
    requires GateOpen(trace, n, seen, idle) && trace <= later && NoWrites(later[|trace|..])
    ensures GateOpen(later, n, seen, idle) && (FreshIdle(trace, n) ==> FreshIdle(later, n))
    decreases |later|
  {
    if |trace| < |later| {
      var before, e := later[..|later| - 1], later[|later| - 1];
      assert before[|trace|..] == later[|trace|..][..|before| - |trace|];
      assert e == later[|trace|..][|later| - 1 - |trace|];
      ReadsKeepGate(trace, before, n, seen, idle);
      assert later == before + [e];
      AllSeenLater(before, e, n, seen);
    } else {
      assert later == trace;
    }
  }

  /** On the active path an open gate stays open, whatever is sent. */
  lemma {:induction false} ActiveKeepsGate(trace: seq<Event>, later: seq<Event>, n: nat, seen: set<Event>)
    requires GateOpen(trace, n, seen, false) && trace <= later
    ensures GateOpen(later, n, seen, false)
    decreases |later|
  {
    if |trace| < |later| {
      var before, e := later[..|later| - 1], later[|later| - 1];
      ActiveKeepsGate(trace, before, n, seen);
      assert later == before + [e];
      AllSeenLater(before, e, n, seen);
    } else {
      assert later == trace;
    }
  }

  /** requireIdleDaqMode: true only right after DAQ mode was read back as zero. */
  method RequireIdle(w: World, ghost n: nat, ghost seen: set<Event>, ghost idle: bool) returns (result: Step<bool>)
    requires AllGated(w.trace, n, seen, idle)
    modifies w`trace, w`faulty, w`refusals, w`clock
    ensures old(w.trace) <= w.trace <= old(w.trace) + [Event.ReadLocal([DAQ_MODE], [LocalValue(w.mvlc, DAQ_MODE)])]
    ensures AllGated(w.trace, n, seen, idle)
    ensures old(w.faulty) ==> w.faulty
    ensures !w.faulty && LocalValue(w.mvlc, DAQ_MODE) == 0 ==> result == Done(true)
    ensures old(AllSeen(w.trace, n, seen)) ==> AllSeen(w.trace, n, seen)
    ensures result == Done(true) ==> FreshIdle(w.trace, n)
    ensures result == Done(true) ==> w.refusals == old(w.refusals)
  {
    var read := w.ReadLocal([DAQ_MODE]);
    if w.trace != old(w.trace) {
      var e := w.trace[|w.trace| - 1];
      assert read.value.value == [LocalValue(w.mvlc, DAQ_MODE)];
      GatedAppend(old(w.trace), e, n, seen, idle);
      if AllSeen(old(w.trace), n, seen) { AllSeenLater(old(w.trace), e, n, seen); }
    }
    var values :- read;
    if values.None? || values.value[0] != 0 { return Done(false); }
    assert w.trace[|w.trace| - 1] == Event.ReadLocal([DAQ_MODE], [0]);
    result := Done(true);
  }
}

/** RecoverDiagnosticOrphan. */
module Recovery {
  import opened Words
  import opened ScpRegistry
  import opened RecoveryRecord
  import opened Crate
  import opened Fingerprint
  import opened PauseResume
  import opened Source
  import opened Preview
  import opened RecoveryGate
  import Stop

  datatype RecoveryState = Recovered | RecoveredClean | Foreign | Failed

  /** No write since position n. */
  ghost predicate Quiet(trace: seq<Event>, n: nat) {
    n <= |trace| && forall i | n <= i < |trace| :: !IsWrite(trace[i])
  }

  method Probe(w: World, address: nat, ghost n: nat) returns (r: Step<Option<u16>>)
    requires Quiet(w.trace, n)
    modifies w`trace, w`faulty, w`refusals, w`clock
    ensures Quiet(w.trace, n) && old(w.trace) <= w.trace && old(Since(w.trace, n)) <= Since(w.trace, n)
    ensures old(w.faulty) ==> w.faulty
    ensures !w.faulty ==> r == Done(Some(w.Value(address)))
    ensures r.Done? && r.value.Some? ==> w.refusals == old(w.refusals)
    ensures r.Done? && r.value.Some? ==>
              r.value.value == w.Value(address) && Event.ReadVme(address, r.value.value) in Since(w.trace, n)
  {
    r := w.ReadVme(address);
    SinceGrows(old(w.trace), w.trace, n);
    if r.Done? && r.value.Some? {
      assert w.trace[|w.trace| - 1] == Event.ReadVme(address, r.value.value);
    }
  }

  method ProbeLocal(w: World, addresses: seq<u16>, ghost n: nat) returns (r: Step<Option<seq<u32>>>)
    requires Quiet(w.trace, n)
    modifies w`trace, w`faulty, w`refusals, w`clock
    ensures Quiet(w.trace, n) && old(w.trace) <= w.trace && old(Since(w.trace, n)) <= Since(w.trace, n)
    ensures old(w.faulty) ==> w.faulty
    ensures !w.faulty ==> r == Done(Some(LocalValues(w.mvlc, addresses)))
    ensures r.Done? && r.value.Some? ==> w.refusals == old(w.refusals)
    ensures r.Done? && r.value.Some? ==>
              |r.value.value| == |addresses| && Event.ReadLocal(addresses, r.value.value) in Since(w.trace, n)
  {
    r := w.ReadLocal(addresses);
    SinceGrows(old(w.trace), w.trace, n);
    if r.Done? && r.value.Some? {
      assert w.trace[|w.trace| - 1] == Event.ReadLocal(addresses, r.value.value);
    }
  }

  /** What the controller would answer right now. */
  ghost function LiveView(mvlc: map<u16, u32>, r: Record): LiveFingerprint
    requires Reconstructible(r)
  {
    LiveFingerprint(LocalValue(mvlc, MVLC_HARDWARE_ID), LocalValue(mvlc, MVLC_FIRMWARE),
                    LocalValues(mvlc, Expected(r).addresses))
  }

  /** The modules in the crate are the ones the journal names. */
  ghost predicate RightTarget(w: World, r: Record)
    reads w`selector, w`banks, w`vme
  {
    && w.Value(r.mdppBaseAddress + HARDWARE_ID) == r.mdppHardwareId == APPROVED_HARDWARE_ID
    && w.Value(r.mdppBaseAddress + FIRMWARE_REVISION) == FW2051
  }

  ghost predicate RightIsolated(w: World, r: Record)
    reads w`selector, w`banks, w`vme
  {
    forall i | 0 <= i < |r.isolated| :: w.Value(r.isolated[i] + HARDWARE_ID) == APPROVED_HARDWARE_ID
  }

  ghost predicate RightModules(w: World, r: Record)
    reads w`selector, w`banks, w`vme
  {
    RightTarget(w, r) && RightIsolated(w, r)
  }

  /** The original of a pending, still applied preview does not clash with its live dependency. */
  ghost predicate PreviewRestorable(banks: Banks, r: Record) {
    r.previewRestoreRequired && PreviewLoc(r) in banks && banks[PreviewLoc(r)] != r.previewOriginal ==>
      DependencyMet(banks, r.previewQuad, r.previewRegister, r.previewOriginal)
  }

  /** Read the controller identity and the fingerprint, and evaluate them. */
  method Identify(w: World, record: Record, ghost n: nat) returns (r: Step<Option<Verdict>>)
    requires Quiet(w.trace, n)
    modifies w`trace, w`faulty, w`refusals, w`clock
    ensures Quiet(w.trace, n) && old(w.trace) <= w.trace
    ensures old(w.faulty) ==> w.faulty
    ensures !w.faulty && Reconstructible(record) ==> r == Done(Some(VerdictOf(record, LiveView(w.mvlc, record))))
    ensures r.Done? && r.value.Some? ==> VerdictAmong(Since(w.trace, n), record, r.value.value)
    ensures r.Done? && r.value.Some? ==> w.refusals == old(w.refusals)
    ensures r == Done(Some(IdleWithRestoration)) ==> w.faulty || LocalValue(w.mvlc, DAQ_MODE) == 0
    ensures r == Done(Some(AlreadyClean)) ==> !record.previewRestoreRequired && !record.sourceRestoreRequired
  {
    var identity :- ProbeLocal(w, [MVLC_HARDWARE_ID, MVLC_FIRMWARE], n);
    if identity.None? { return Done(None); }
    var hardware, firmware := identity.value[0], identity.value[1];
    assert identity.value == [hardware, firmware];
    var expected := BuildExpectation(record);
    if expected.None? { return Done(None); }
    var values :- ProbeLocal(w, expected.value.addresses, n);
    if values.None? { return Done(None); }
    var verdict := EvaluateFingerprint(record, LiveFingerprint(hardware, firmware, values.value));
    assert Expected(record).addresses[0] == DAQ_MODE;
    assert Event.ReadLocal([MVLC_HARDWARE_ID, MVLC_FIRMWARE], [hardware, firmware]) in Since(w.trace, n);
    assert Event.ReadLocal(Expected(record).addresses, values.value) in Since(w.trace, n);
    r := Done(Some(verdict));
  }

  /** Every isolated module still identifies as a write-approved MDPP-32. */
  method CheckIsolated(w: World, record: Record, ghost n: nat) returns (r: Step<bool>)
    requires Quiet(w.trace, n)
    modifies w`trace, w`faulty, w`refusals, w`clock
    ensures Quiet(w.trace, n) && old(w.trace) <= w.trace && old(Since(w.trace, n)) <= Since(w.trace, n)
    ensures old(w.faulty) ==> w.faulty
    ensures !w.faulty && RightIsolated(w, record) ==> r == Done(true)
    ensures r == Done(true) ==> w.refusals == old(w.refusals)
    ensures r == Done(true) ==> IsolatedAmong(Since(w.trace, n), record, |record.isolated|)
  {
    for i := 0 to |record.isolated|
      invariant Quiet(w.trace, n) && old(w.trace) <= w.trace && old(Since(w.trace, n)) <= Since(w.trace, n)
      invariant old(w.faulty) ==> w.faulty
      invariant IsolatedAmong(Since(w.trace, n), record, i) && w.refusals == old(w.refusals)
    {
      var identity :- Probe(w, record.isolated[i] + HARDWARE_ID, n);
      if identity.None? || identity.value != APPROVED_HARDWARE_ID { return Done(false); }
    }
    r := Done(true);
  }

  /** The journaled MDPP hardware identity and the exact firmware, read back. */
  method CheckTarget(w: World, record: Record, ghost n: nat) returns (r: Step<bool>)
    requires Quiet(w.trace, n)
    modifies w`trace, w`faulty, w`refusals, w`clock
    ensures Quiet(w.trace, n) && old(w.trace) <= w.trace && old(Since(w.trace, n)) <= Since(w.trace, n)
    ensures old(w.faulty) ==> w.faulty
    ensures !w.faulty && RightTarget(w, record) ==> r == Done(true)
    ensures r == Done(true) ==> w.refusals == old(w.refusals)
    ensures r == Done(true) ==> TargetAmong(Since(w.trace, n), record)
  {
    var hardware :- Probe(w, record.mdppBaseAddress + HARDWARE_ID, n);
    if hardware.None? { return Done(false); }
    var firmware :- Probe(w, record.mdppBaseAddress + FIRMWARE_REVISION, n);
    if firmware.None? { return Done(false); }
    if hardware.value != record.mdppHardwareId || hardware.value != APPROVED_HARDWARE_ID { return Done(false); }
    r := Done(firmware.value == FW2051);
  }

  /** Idle path: the target is still stopped. Active path: every isolated module is who it was. */
  method CheckState(w: World, record: Record, idle: bool, ghost n: nat) returns (r: Step<bool>)
    requires Quiet(w.trace, n)
    modifies w`trace, w`faulty, w`refusals, w`clock
    ensures Quiet(w.trace, n) && old(w.trace) <= w.trace && old(Since(w.trace, n)) <= Since(w.trace, n)
    ensures old(w.faulty) ==> w.faulty
    ensures r == Done(true) ==> w.refusals == old(w.refusals)
    ensures !w.faulty && RightIsolated(w, record) && (idle ==> w.Value(record.mdppBaseAddress + ACQUISITION_CONTROL) == 0)
            ==> r == Done(true)
    ensures r == Done(true) ==>
              && (idle ==> Event.ReadVme(record.mdppBaseAddress + ACQUISITION_CONTROL, 0) in Since(w.trace, n))
              && (!idle ==> IsolatedAmong(Since(w.trace, n), record, |record.isolated|))
  {
    if !idle {
      r := CheckIsolated(w, record, n);
      return;
    }
    var state :- Probe(w, record.mdppBaseAddress + ACQUISITION_CONTROL, n);
    r := Done(state.Some? && state.value == 0);
  }

  /** On the idle path, DAQ mode is still zero. */
  method CheckIdle(w: World, idle: bool, ghost n: nat) returns (r: Step<bool>)
    requires Quiet(w.trace, n)
    modifies w`trace, w`faulty, w`refusals, w`clock
    ensures Quiet(w.trace, n) && old(w.trace) <= w.trace && old(Since(w.trace, n)) <= Since(w.trace, n)
    ensures old(w.faulty) ==> w.faulty
    ensures r == Done(true) ==> w.refusals == old(w.refusals)
    ensures !w.faulty && (idle ==> LocalValue(w.mvlc, DAQ_MODE) == 0) ==> r == Done(true)
    ensures r == Done(true) && idle ==> Event.ReadLocal([DAQ_MODE], [0]) in Since(w.trace, n)
  {
    if !idle { return Done(true); }
    var mode :- ProbeLocal(w, [DAQ_MODE], n);
    if mode.None? || mode.value[0] != 0 { return Done(false); }
    assert mode.value == [0];
    r := Done(true);
  }

  /** Target identity, firmware, journal usability and, per path, target state or every isolated
      module's identity: all reads, no write. */
  method PassChecks(w: World, record: Record, idle: bool, ghost n: nat) returns (r: Step<bool>)
    requires Quiet(w.trace, n)
    requires VerdictAmong(Since(w.trace, n), record, if idle then IdleWithRestoration else OrphanConfirmed)
    modifies w`trace, w`faulty, w`refusals, w`clock
    ensures Quiet(w.trace, n)
    ensures old(w.faulty) ==> w.faulty
    ensures r == Done(true) ==> w.refusals == old(w.refusals)
    ensures (!w.faulty && RightModules(w, record)
            && (idle ==> LocalValue(w.mvlc, DAQ_MODE) == 0 && w.Value(record.mdppBaseAddress + ACQUISITION_CONTROL) == 0)
            && (record.sourceRestoreRequired ==> record.sourceAppliedAvailable)
            && (record.previewRestoreRequired ==> IsSetting(record.previewRegister))) ==> r == Done(true)
    ensures r == Done(true) ==>
              && Justifies(Since(w.trace, n), record, idle)
              && (record.sourceRestoreRequired ==> record.sourceAppliedAvailable)
              && (record.previewRestoreRequired ==> IsSetting(record.previewRegister))
  {
    ghost var seen0 := Since(w.trace, n);
    var still :- CheckIdle(w, idle, n);
    if !still { return Done(false); }
    ghost var seen1 := Since(w.trace, n);
    var target :- CheckTarget(w, record, n);
    if !target { return Done(false); }
    if record.sourceRestoreRequired && !record.sourceAppliedAvailable { return Done(false); }
    if record.previewRestoreRequired && FindSetting(record.previewRegister).None? { return Done(false); }
    var state :- CheckState(w, record, idle, n);
    if !state { return Done(false); }
    VerdictGrows(seen0, Since(w.trace, n), record, if idle then IdleWithRestoration else OrphanConfirmed);
    r := Done(true);
  }

  lemma VerdictGrows(seen: set<Event>, more: set<Event>, r: Record, verdict: Verdict)
    requires seen <= more && VerdictAmong(seen, r, verdict)
    ensures VerdictAmong(more, r, verdict)
  {
  }

  /** On the idle path, DAQ mode must read back as zero before the next write. */
  method IdleGate(w: World, idle: bool, ghost n: nat, ghost seen: set<Event>) returns (r: Step<bool>)
    requires GateOpen(w.trace, n, seen, idle)
    modifies w`trace, w`faulty, w`refusals, w`clock
    ensures GateOpen(w.trace, n, seen, idle) && old(w.trace) <= w.trace
    ensures old(w.faulty) ==> w.faulty
    ensures !w.faulty && (idle ==> LocalValue(w.mvlc, DAQ_MODE) == 0) ==> r == Done(true)
    ensures r == Done(true) && idle ==> FreshIdle(w.trace, n)
    ensures r == Done(true) ==> w.refusals == old(w.refusals)
  {
    if !idle { return Done(true); }
    r := RequireIdle(w, n, seen, idle);
  }

  /** What restoring one register sends: nothing but its selection and parking if it already holds the original. */
  function ValueWrites(base: nat, banks: Banks, l: Loc, original: u16): seq<Event>
    requires l in banks && l.quad < QUAD_COUNT
  {
    [SelectWrite(base, l.quad)] + WriteIfNeeded(base, banks, l, original) + [SelectWrite(base, 0)]
  }

  function WriteIfNeeded(base: nat, banks: Banks, l: Loc, original: u16): seq<Event>
    requires l in banks
  {
    if banks[l] == original then [] else [SentVme(base + l.reg, original)]
  }

  /** Restore the selected register if it holds the applied value; true once the original reads back. */
  method RestoreSelected(w: World, quad: u16, reg: u16, original: u16, applied: u16, live: Option<u16>, allowed: bool,
                         idle: bool, ghost n: nat, ghost seen: set<Event>)
    returns (r: Step<bool>)
    requires GateOpen(w.trace, n, seen, idle) && (idle ==> FreshIdle(w.trace, n))
    requires IsLoc(Loc(quad, reg)) && Complete(w.banks) && w.selector == quad
    requires live.Some? ==> live.value == w.banks[Loc(quad, reg)]
    modifies w`selector, w`banks, w`vme, w`trace, w`sent, w`faulty, w`refusals, w`clock
    ensures GateOpen(w.trace, n, seen, idle) && old(w.trace) <= w.trace
    ensures old(w.faulty) ==> w.faulty
    ensures !w.faulty && live.Some? && (live.value == applied || live.value == original) && allowed ==> r == Done(true)
    ensures w.banks == old(w.banks)
            || (w.banks == old(w.banks)[Loc(quad, reg) := original] && old(w.banks)[Loc(quad, reg)] == applied)
    ensures w.banks != old(w.banks) ==> live.Some? && allowed
    ensures r == Done(true) ==>
              && w.banks == old(w.banks)[Loc(quad, reg) := original]
              && w.sent == old(w.sent) + WriteIfNeeded(w.base, old(w.banks), Loc(quad, reg), original)
              && live.Some? && allowed && w.refusals == old(w.refusals)
    ensures !w.faulty ==> r.Done?
  {
    if live.None? || (live.value != applied && live.value != original) || !allowed { return Done(false); }
    if live.value == original { return Done(true); }
    var written :- Send(w, w.base + reg, original, n, seen, idle);
    if !written { return Done(false); }
    var readback :- Look(w, w.base + reg, n, seen, idle);
    r := Done(readback.Some? && readback.value == original);
  }

  /** Write the bank selector behind the idle gate. */
  method GatedSelect(w: World, quad: u16, idle: bool, ghost n: nat, ghost seen: set<Event>) returns (r: Step<bool>)
    requires GateOpen(w.trace, n, seen, idle)
    modifies w`selector, w`banks, w`vme, w`trace, w`sent, w`faulty, w`refusals, w`clock
    ensures GateOpen(w.trace, n, seen, idle) && old(w.trace) <= w.trace && w.banks == old(w.banks)
    ensures old(w.faulty) ==> w.faulty
    ensures !w.faulty && (idle ==> LocalValue(w.mvlc, DAQ_MODE) == 0) ==> r == Done(true)
    ensures r == Done(true) ==> w.selector == quad && w.sent == old(w.sent) + [SelectWrite(w.base, quad)] && w.refusals == old(w.refusals)
  {
    var gate :- IdleGate(w, idle, n, seen);
    if !gate { return Done(false); }
    r := Send(w, w.base + SELECTOR_REGISTER, quad, n, seen, idle);
  }

  /** Select the quad, read the register live, and for a preview check its live dependency. */
  method OpenForRestore(w: World, preview: bool, quad: u16, reg: u16, original: u16, applied: u16,
                        idle: bool, ghost n: nat, ghost seen: set<Event>)
    returns (r: Step<Option<(Option<u16>, bool)>>)
    requires GateOpen(w.trace, n, seen, idle)
    requires IsLoc(Loc(quad, reg)) && Complete(w.banks)
    modifies w`selector, w`banks, w`vme, w`trace, w`sent, w`faulty, w`refusals, w`clock
    ensures GateOpen(w.trace, n, seen, idle) && old(w.trace) <= w.trace && w.banks == old(w.banks)
    ensures old(w.faulty) ==> w.faulty
    ensures !w.faulty && (idle ==> LocalValue(w.mvlc, DAQ_MODE) == 0) ==>
              && r.Done? && r.value.Some? && r.value.value.0.Some?
              && r.value.value.1 == (preview && w.banks[Loc(quad, reg)] == applied && applied != original ==>
                                       DependencyMet(w.banks, quad, reg, original))
    ensures r.Done? && r.value.Some? ==> w.selector == quad && w.sent == old(w.sent) + [SelectWrite(w.base, quad)]
    ensures r.Done? && r.value.Some? && r.value.value.0.Some? && r.value.value.1 ==> w.refusals == old(w.refusals)
    ensures r.Done? && r.value.Some? && r.value.value.0.Some? ==> r.value.value.0.value == w.banks[Loc(quad, reg)]
    ensures r.Done? && r.value.Some? && r.value.value.1 && preview && w.banks[Loc(quad, reg)] == applied && applied != original ==>
              DependencyMet(w.banks, quad, reg, original) || r.value.value.0.None?
  {
    var selected :- GatedSelect(w, quad, idle, n, seen);
    if !selected { return Done(None); }
    var live :- Look(w, w.base + reg, n, seen, idle);
    var allowed := true;
    if live.Some? && preview && live.value == applied && live.value != original {
      ghost var before := w.trace;
      var dependency := DependencyAllows(w, reg, original);
      ReadsKeepGate(before, w.trace, n, seen, idle);
      allowed :- dependency;
    }
    r := Done(Some((live, allowed)));
  }

  /** restoreBanked: overwrites the register only when it still holds the journaled applied value,
      and reports success only once the original has been read back and the selector parked. */
  method RestoreBanked(w: World, preview: bool, quad: u16, reg: u16, original: u16, applied: u16,
                       idle: bool, ghost n: nat, ghost seen: set<Event>)
    returns (r: Step<bool>)
    requires GateOpen(w.trace, n, seen, idle)
    requires IsLoc(Loc(quad, reg)) && Complete(w.banks)
    modifies w`selector, w`banks, w`vme, w`trace, w`sent, w`faulty, w`refusals, w`clock
    ensures GateOpen(w.trace, n, seen, idle) && old(w.trace) <= w.trace
    ensures old(w.faulty) ==> w.faulty
    ensures !w.faulty && (idle ==> LocalValue(w.mvlc, DAQ_MODE) == 0)
            && (old(w.banks)[Loc(quad, reg)] == applied || old(w.banks)[Loc(quad, reg)] == original)
            && (preview && old(w.banks)[Loc(quad, reg)] != original ==> DependencyMet(old(w.banks), quad, reg, original))
            ==> r == Done(true)
    ensures w.banks == old(w.banks)
            || (w.banks == old(w.banks)[Loc(quad, reg) := original] && old(w.banks)[Loc(quad, reg)] == applied)
    ensures preview && w.banks != old(w.banks) ==> DependencyMet(old(w.banks), quad, reg, original)
    ensures r == Done(true) ==> w.banks == old(w.banks)[Loc(quad, reg) := original]
    ensures r == Done(true) ==>
              w.selector == 0 && w.sent == old(w.sent) + ValueWrites(w.base, old(w.banks), Loc(quad, reg), original) && w.refusals == old(w.refusals)
    ensures !w.faulty && (idle ==> LocalValue(w.mvlc, DAQ_MODE) == 0) ==> r.Done? && w.selector == 0
  {
    var restored :- RestoreLive(w, preview, quad, reg, original, applied, idle, n, seen);
    if restored.None? { return Done(false); }
    var parked :- GatedSelect(w, 0, idle, n, seen);
    r := Done(restored.value && parked);
  }

  /** Everything up to the parking: none if the quad or the gate could not be opened. */
  method RestoreLive(w: World, preview: bool, quad: u16, reg: u16, original: u16, applied: u16,
                     idle: bool, ghost n: nat, ghost seen: set<Event>)
    returns (r: Step<Option<bool>>)
    requires GateOpen(w.trace, n, seen, idle)
    requires IsLoc(Loc(quad, reg)) && Complete(w.banks)
    modifies w`selector, w`banks, w`vme, w`trace, w`sent, w`faulty, w`refusals, w`clock
    ensures GateOpen(w.trace, n, seen, idle) && old(w.trace) <= w.trace
    ensures old(w.faulty) ==> w.faulty
    ensures !w.faulty && (idle ==> LocalValue(w.mvlc, DAQ_MODE) == 0) ==> r.Done? && r.value.Some?
    ensures !w.faulty && (idle ==> LocalValue(w.mvlc, DAQ_MODE) == 0)
            && (old(w.banks)[Loc(quad, reg)] == applied || old(w.banks)[Loc(quad, reg)] == original)
            && (preview && old(w.banks)[Loc(quad, reg)] != original ==> DependencyMet(old(w.banks), quad, reg, original))
            ==> r == Done(Some(true))
    ensures w.banks == old(w.banks)
            || (w.banks == old(w.banks)[Loc(quad, reg) := original] && old(w.banks)[Loc(quad, reg)] == applied)
    ensures preview && w.banks != old(w.banks) ==> DependencyMet(old(w.banks), quad, reg, original)
    ensures r == Done(Some(true)) ==>
              && w.banks == old(w.banks)[Loc(quad, reg) := original] && w.refusals == old(w.refusals)
              && w.sent == old(w.sent) + ([SelectWrite(w.base, quad)] + WriteIfNeeded(w.base, old(w.banks), Loc(quad, reg), original))
  {
    var ready :- OpenForRestore(w, preview, quad, reg, original, applied, idle, n, seen);
    if ready.None? { return Done(None); }
    var gate :- IdleGate(w, idle, n, seen);
    if !gate { return Done(None); }
    var restored :- RestoreSelected(w, quad, reg, original, applied, ready.value.0, ready.value.1, idle, n, seen);
    r := Done(Some(restored));
  }

  /** Both the journal and the record under recovery account for every deviation. */
  ghost predicate Accounted(w: World, record: Record, b0: Banks)
    reads w`banks, w`journal
  {
    Journaled(w.banks, b0, w.journal) && Covers(w.banks, b0, record)
  }

  /** Restore one journaled register, then save the record without its entry. */
  method RestoreEntry(w: World, preview: bool, l: Loc, original: u16, applied: u16, reduced: Record,
                      idle: bool, ghost n: nat, ghost seen: set<Event>)
    returns (r: Step<bool>)
    requires GateOpen(w.trace, n, seen, idle) && Complete(w.banks) && IsLoc(l)
    requires reduced.mdppBaseAddress == w.base
    modifies w`selector, w`banks, w`vme, w`trace, w`sent, w`journal, w`faulty, w`refusals, w`clock
    ensures GateOpen(w.trace, n, seen, idle) && old(w.trace) <= w.trace && (old(JournalHere(w)) ==> JournalHere(w))
    ensures w.journal == old(w.journal) || (w.journal == Some(reduced) && w.banks == old(w.banks)[l := original])
    ensures old(w.faulty) ==> w.faulty
    ensures (!w.faulty && (idle ==> LocalValue(w.mvlc, DAQ_MODE) == 0) && ValidRecord(reduced)
             && (old(w.banks)[l] == applied || old(w.banks)[l] == original)
             && (preview && old(w.banks)[l] != original ==> DependencyMet(old(w.banks), l.quad, l.reg, original))) ==>
              r == Done(true)
    ensures w.banks == old(w.banks) || (w.banks == old(w.banks)[l := original] && old(w.banks)[l] == applied)
    ensures preview && w.banks != old(w.banks) ==> DependencyMet(old(w.banks), l.quad, l.reg, original)
    ensures r == Done(true) ==>
              && w.selector == 0 && w.banks == old(w.banks)[l := original] && w.journal == Some(reduced)
              && w.sent == old(w.sent) + ValueWrites(w.base, old(w.banks), l, original) && w.refusals == old(w.refusals)
    ensures !w.faulty && (idle ==> LocalValue(w.mvlc, DAQ_MODE) == 0) ==> w.selector == 0
  {
    var restored :- RestoreBanked(w, preview, l.quad, l.reg, original, applied, idle, n, seen);
    if !restored { return Done(false); }
    r := w.Save(reduced);
  }

  /** Restore the journaled preview, then drop it from the record and save. */
  method RecoverPreview(w: World, record: Record, idle: bool, ghost n: nat, ghost seen: set<Event>, ghost b0: Banks)
    returns (r: Step<bool>)
    requires GateOpen(w.trace, n, seen, idle) && Complete(w.banks) && record.mdppBaseAddress == w.base
    requires record.previewRestoreRequired && IsLoc(PreviewLoc(record))
    modifies w`selector, w`banks, w`vme, w`trace, w`sent, w`journal, w`faulty, w`refusals, w`clock
    ensures GateOpen(w.trace, n, seen, idle) && old(w.trace) <= w.trace && (old(JournalHere(w)) ==> JournalHere(w))
    ensures old(w.journal).Some? ==> w.journal.Some?
    ensures old(w.faulty) ==> w.faulty
    ensures (!w.faulty && (idle ==> LocalValue(w.mvlc, DAQ_MODE) == 0) && ValidRecord(record)
             && old(Accounted(w, record, b0)) && PreviewRestorable(old(w.banks), record)) ==> r == Done(true)
    ensures w.banks == old(w.banks)
            || (w.banks == old(w.banks)[PreviewLoc(record) := record.previewOriginal]
                && old(w.banks)[PreviewLoc(record)] == record.previewApplied
                && DependencyMet(old(w.banks), record.previewQuad, record.previewRegister, record.previewOriginal))
    ensures old(Accounted(w, record, b0)) ==> Accounted(w, record, b0)
    ensures r == Done(true) && old(Accounted(w, record, b0)) ==> Covers(w.banks, b0, WithoutPreview(record))
    ensures r == Done(true) ==>
              && w.selector == 0 && w.banks == old(w.banks)[PreviewLoc(record) := record.previewOriginal] && w.journal == Some(WithoutPreview(record))
              && w.sent == old(w.sent) + ValueWrites(w.base, old(w.banks), PreviewLoc(record), record.previewOriginal) && w.refusals == old(w.refusals)
    ensures !w.faulty && (idle ==> LocalValue(w.mvlc, DAQ_MODE) == 0) ==> w.selector == 0
  {
    ghost var accounted := Accounted(w, record, b0);
    if accounted {
      RestoringKeepsCover(w.banks, b0, w.journal, record, PreviewLoc(record));
      CoversDropPreview(w.banks[PreviewLoc(record) := record.previewOriginal], b0, record);
    }
    r := RestoreEntry(w, true, PreviewLoc(record), record.previewOriginal, record.previewApplied,
                      WithoutPreview(record), idle, n, seen);
  }

  method RecoverSource(w: World, record: Record, idle: bool, ghost n: nat, ghost seen: set<Event>, ghost b0: Banks)
    returns (r: Step<bool>)
    requires GateOpen(w.trace, n, seen, idle) && Complete(w.banks) && record.mdppBaseAddress == w.base
    requires record.sourceRestoreRequired && IsLoc(SourceLoc(record))
    modifies w`selector, w`banks, w`vme, w`trace, w`sent, w`journal, w`faulty, w`refusals, w`clock
    ensures GateOpen(w.trace, n, seen, idle) && old(w.trace) <= w.trace && (old(JournalHere(w)) ==> JournalHere(w))
    ensures old(w.journal).Some? ==> w.journal.Some?
    ensures old(w.faulty) ==> w.faulty
    ensures (!w.faulty && (idle ==> LocalValue(w.mvlc, DAQ_MODE) == 0) && ValidRecord(record)
             && old(Accounted(w, record, b0))) ==> r == Done(true)
    ensures w.banks == old(w.banks)
            || (w.banks == old(w.banks)[SourceLoc(record) := record.sourceOriginal]
                && old(w.banks)[SourceLoc(record)] == record.sourceApplied)
    ensures old(Accounted(w, record, b0)) ==> Accounted(w, record, b0)
    ensures r == Done(true) && old(Accounted(w, record, b0)) ==> Covers(w.banks, b0, WithoutSource(record))
    ensures r == Done(true) ==>
              && w.selector == 0 && w.banks == old(w.banks)[SourceLoc(record) := record.sourceOriginal] && w.journal == Some(WithoutSource(record))
              && w.sent == old(w.sent) + ValueWrites(w.base, old(w.banks), SourceLoc(record), record.sourceOriginal) && w.refusals == old(w.refusals)
    ensures !w.faulty && (idle ==> LocalValue(w.mvlc, DAQ_MODE) == 0) ==> w.selector == 0
  {
    ghost var accounted := Accounted(w, record, b0);
    if accounted {
      RestoringKeepsCover(w.banks, b0, w.journal, record, SourceLoc(record));
      CoversReplaceSource(w.banks[SourceLoc(record) := record.sourceOriginal], b0, record, record.sourceQuad, 0);
    }
    r := RestoreEntry(w, false, SourceLoc(record), record.sourceOriginal, record.sourceApplied,
                      WithoutSource(record), idle, n, seen);
  }

  /** Reset one module's FIFO and readout. */
  method ResetOne(w: World, base: u32) returns (r: Step<bool>)
    requires w.base % 0x1_0000 == 0 && base % 0x1_0000 == 0
    modifies w`selector, w`banks, w`vme, w`trace, w`sent, w`faulty, w`refusals, w`clock
    ensures w.banks == old(w.banks) && w.selector == old(w.selector) && old(w.trace) <= w.trace
    ensures old(w.faulty) ==> w.faulty
    ensures !w.faulty ==> r == Done(true)
    ensures r == Done(true) ==> w.sent == old(w.sent) + Stop.ResetWrites(base) && w.refusals == old(w.refusals)
  {
    if base != w.base {
      OffTarget(w, base, FIFO_RESET);
      OffTarget(w, base, READOUT_RESET);
    }
    var fifo :- w.WriteVme(base + FIFO_RESET, 1);
    if !fifo { return Done(false); }
    r := w.WriteVme(base + READOUT_RESET, 1);
  }

  /** The target and the first `count` isolated modules read back stopped after position n. */
  ghost predicate ModulesStopped(trace: seq<Event>, n: nat, r: Record, count: nat)
    requires count <= |r.isolated|
  {
    && Stop.SeenStopped(trace, n, r.mdppBaseAddress)
    && forall i | 0 <= i < count :: Stop.SeenStopped(trace, n, r.isolated[i])
  }

  /** The four controller registers read back as zero after position n. */
  ghost predicate ControllerCleared(trace: seq<Event>, n: nat, r: Record) {
    && Stop.SeenZero(trace, n, DAQ_MODE) && Stop.SeenZero(trace, n, r.stackTriggerRegister)
    && Stop.SeenZero(trace, n, r.stackOffsetRegister) && Stop.SeenZero(trace, n, r.ownershipTokenRegister)
  }

  /** What an active recovery must have read back before the journal may go. */
  ghost predicate Cleaned(trace: seq<Event>, n: nat, r: Record) {
    ModulesStopped(trace, n, r, |r.isolated|) && ControllerCleared(trace, n, r)
  }

  lemma StoppedLater(trace: seq<Event>, m: nat, later: seq<Event>, n: nat, r: Record, count: nat)
    requires trace <= later && n <= m && count <= |r.isolated| && ModulesStopped(trace, m, r, count)
    ensures ModulesStopped(later, n, r, count)
  {
    SeenLater(trace, m, later, n, Event.ReadVme(r.mdppBaseAddress + ACQUISITION_CONTROL, 0));
    forall i | 0 <= i < count ensures Stop.SeenStopped(later, n, r.isolated[i]) {
      SeenLater(trace, m, later, n, Event.ReadVme(r.isolated[i] + ACQUISITION_CONTROL, 0));
    }
  }

  lemma ClearedLater(trace: seq<Event>, m: nat, later: seq<Event>, n: nat, r: Record)
    requires trace <= later && n <= m && ControllerCleared(trace, m, r)
    ensures ControllerCleared(later, n, r)
  {
    SeenLater(trace, m, later, n, Event.ReadLocal([DAQ_MODE], [0]));
    SeenLater(trace, m, later, n, Event.ReadLocal([r.stackTriggerRegister], [0]));
    SeenLater(trace, m, later, n, Event.ReadLocal([r.stackOffsetRegister], [0]));
    SeenLater(trace, m, later, n, Event.ReadLocal([r.ownershipTokenRegister], [0]));
  }

  /** What stopping and resetting the isolated modules sends. */
  function IsolatedWrites(bases: seq<u32>): seq<Event> {
    if bases == [] then []
    else
      var base := bases[|bases| - 1];
      IsolatedWrites(bases[..|bases| - 1]) + Stop.StopWrites(base) + Stop.ResetWrites(base)
  }

  lemma IsolatedOneMore(start: seq<Event>, bases: seq<u32>, i: nat)
    requires i < |bases|
    ensures start + IsolatedWrites(bases[..i + 1])
            == start + IsolatedWrites(bases[..i]) + Stop.StopWrites(bases[i]) + Stop.ResetWrites(bases[i])
  {
    assert bases[..i + 1][..i] == bases[..i];
  }

  /** The target and the first `count` isolated modules are done: evidence seen, exactly their writes sent. */
  ghost predicate ModulesRecovered(trace: seq<Event>, n: nat, start: seq<Event>, sent: seq<Event>, r: Record, count: nat)
    requires count <= |r.isolated|
  {
    ModulesStopped(trace, n, r, count) && sent == start + IsolatedWrites(r.isolated[..count])
  }

  lemma OneMoreRecovered(trace: seq<Event>, later: seq<Event>, n: nat, start: seq<Event>, before: seq<Event>, sent: seq<Event>,
                         r: Record, i: nat)
    requires i < |r.isolated| && n <= |trace| && trace <= later && ModulesRecovered(trace, n, start, before, r, i)
    requires Stop.SeenStopped(later, |trace|, r.isolated[i])
    requires sent == before + Stop.StopWrites(r.isolated[i]) + Stop.ResetWrites(r.isolated[i])
    ensures ModulesRecovered(later, n, start, sent, r, i + 1)
  {
    IsolatedOneMore(start, r.isolated, i);
    StoppedLater(trace, n, later, n, r, i);
    SeenLater(later, |trace|, later, n, Event.ReadVme(r.isolated[i] + ACQUISITION_CONTROL, 0));
  }

  /** Stop one isolated module and reset its buffers. */
  method StopAndReset(w: World, base: u32) returns (r: Step<bool>)
    requires w.base % 0x1_0000 == 0 && base % 0x1_0000 == 0
    modifies w`selector, w`banks, w`vme, w`trace, w`sent, w`faulty, w`refusals, w`clock
    ensures w.banks == old(w.banks) && old(w.trace) <= w.trace
    ensures old(w.faulty) ==> w.faulty
    ensures !w.faulty ==> r == Done(true)
    ensures r == Done(true) ==>
              && Stop.SeenStopped(w.trace, |old(w.trace)|, base) && w.refusals == old(w.refusals)
              && w.sent == old(w.sent) + Stop.StopWrites(base) + Stop.ResetWrites(base)
  {
    var stopped :- Stop.StopModule(w, base);
    if !stopped { return Done(false); }
    ghost var t := w.trace;
    r := ResetOne(w, base);
    SeenLater(t, |old(w.trace)|, w.trace, |old(w.trace)|, Event.ReadVme(base + ACQUISITION_CONTROL, 0));
  }

  /** Active path: stop the target, then stop and reset every isolated module. */
  method StopModules(w: World, record: Record) returns (r: Step<bool>)
    requires ValidRecord(record) && record.mdppBaseAddress == w.base
    modifies w`selector, w`banks, w`vme, w`trace, w`sent, w`faulty, w`refusals, w`clock
    ensures w.banks == old(w.banks) && old(w.trace) <= w.trace
    ensures old(w.faulty) ==> w.faulty
    ensures !w.faulty ==> r == Done(true)
    ensures r == Done(true) ==>
              && ModulesStopped(w.trace, |old(w.trace)|, record, |record.isolated|)
              && w.sent == old(w.sent) + (Stop.StopWrites(w.base) + IsolatedWrites(record.isolated)) && w.refusals == old(w.refusals)
  {
    ghost var n := |w.trace|;
    var target :- Stop.StopModule(w, record.mdppBaseAddress);
    if !target { return Done(false); }
    ghost var start := old(w.sent) + Stop.StopWrites(w.base);
    for i := 0 to |record.isolated|
      invariant w.banks == old(w.banks) && old(w.trace) <= w.trace
      invariant old(w.faulty) ==> w.faulty
      invariant ModulesRecovered(w.trace, n, start, w.sent, record, i) && w.refusals == old(w.refusals)
    {
      ghost var t, s := w.trace, w.sent;
      var stopped :- StopAndReset(w, record.isolated[i]);
      if !stopped { return Done(false); }
      OneMoreRecovered(t, w.trace, n, start, s, w.sent, record, i);
    }
    assert record.isolated[..|record.isolated|] == record.isolated;
    r := Done(true);
  }

  /** A recovery run changes a banked register only from its journaled applied value to its
      journaled original. */
  ghost predicate OnlyRestores(before: Banks, after: Banks, r: Record) {
    && Complete(before) && Complete(after)
    && forall l: Loc :: IsLoc(l) ==>
         || after[l] == before[l]
         || (&& r.previewRestoreRequired && l == PreviewLoc(r) && before[l] == r.previewApplied && after[l] == r.previewOriginal
             && DependencyMet(before, r.previewQuad, r.previewRegister, r.previewOriginal))
         || (r.sourceRestoreRequired && l == SourceLoc(r) && before[l] == r.sourceApplied && after[l] == r.sourceOriginal)
  }

  ghost predicate Separate(r: Record) {
    r.previewRestoreRequired && r.sourceRestoreRequired ==> PreviewLoc(r) != SourceLoc(r)
  }

  /** The preview's restoration, then the source's. */
  lemma RestoresCompose(before: Banks, middle: Banks, after: Banks, r: Record)
    requires Complete(before) && r.previewRestoreRequired && IsLoc(PreviewLoc(r)) && Separate(r)
    requires middle == before[PreviewLoc(r) := r.previewOriginal]
    requires before[PreviewLoc(r)] != r.previewOriginal ==>
               before[PreviewLoc(r)] == r.previewApplied
               && DependencyMet(before, r.previewQuad, r.previewRegister, r.previewOriginal)
    requires OnlyRestores(middle, after, WithoutPreview(r))
    ensures OnlyRestores(before, after, r)
  {
  }

  lemma StillValid(r: Record)
    ensures ValidRecord(r) ==> ValidRecord(WithoutPreview(r)) && ValidRecord(WithoutSource(r))
  {
  }

  lemma PreviewRestores(before: Banks, after: Banks, r: Record)
    requires Complete(before) && r.previewRestoreRequired && IsLoc(PreviewLoc(r))
    requires || after == before
             || (&& after == before[PreviewLoc(r) := r.previewOriginal] && before[PreviewLoc(r)] == r.previewApplied
                 && DependencyMet(before, r.previewQuad, r.previewRegister, r.previewOriginal))
    ensures OnlyRestores(before, after, r)
  {
  }

  lemma PendingApart(start: seq<Event>, base: nat, banks: Banks, r: Record)
    requires Complete(banks) && r.previewRestoreRequired && IsLoc(PreviewLoc(r))
    requires r.sourceRestoreRequired ==> IsLoc(SourceLoc(r))
    ensures start + ValueWrites(base, banks, PreviewLoc(r), r.previewOriginal)
            + PendingWrites(base, banks[PreviewLoc(r) := r.previewOriginal], WithoutPreview(r))
            == start + PendingWrites(base, banks, r)
  {
  }

  predicate Pending(r: Record) { r.previewRestoreRequired || r.sourceRestoreRequired }

  /** The banks once a pending preview is restored. */
  function WithoutPreviewValue(banks: Banks, r: Record): Banks {
    if r.previewRestoreRequired then banks[PreviewLoc(r) := r.previewOriginal] else banks
  }

  /** What restoring everything that is pending sends. */
  function PendingWrites(base: nat, banks: Banks, r: Record): seq<Event>
    requires Complete(banks)
    requires r.previewRestoreRequired ==> IsLoc(PreviewLoc(r))
    requires r.sourceRestoreRequired ==> IsLoc(SourceLoc(r))
  {
    (if r.previewRestoreRequired then ValueWrites(base, banks, PreviewLoc(r), r.previewOriginal) else [])
    + if r.sourceRestoreRequired then ValueWrites(base, WithoutPreviewValue(banks, r), SourceLoc(r), r.sourceOriginal) else []
  }

  /** Both pending restorations, in the code's order. */
  method RecoverValues(w: World, record: Record, idle: bool, ghost n: nat, ghost seen: set<Event>, ghost b0: Banks)
    returns (r: Step<bool>)
    requires GateOpen(w.trace, n, seen, idle) && Complete(w.banks) && record.mdppBaseAddress == w.base
    requires record.previewRestoreRequired ==> IsLoc(PreviewLoc(record))
    requires record.sourceRestoreRequired ==> IsLoc(SourceLoc(record))
    modifies w`selector, w`banks, w`vme, w`trace, w`sent, w`journal, w`faulty, w`refusals, w`clock
    ensures GateOpen(w.trace, n, seen, idle) && old(w.trace) <= w.trace && (old(JournalHere(w)) ==> JournalHere(w))
    ensures old(w.journal).Some? ==> w.journal.Some?
    ensures old(w.faulty) ==> w.faulty
    ensures (!w.faulty && (idle ==> LocalValue(w.mvlc, DAQ_MODE) == 0) && ValidRecord(record)
             && old(Accounted(w, record, b0)) && PreviewRestorable(old(w.banks), record)) ==> r == Done(true)
    ensures Separate(record) ==> OnlyRestores(old(w.banks), w.banks, record)
    ensures old(Accounted(w, record, b0)) ==> Journaled(w.banks, b0, w.journal)
    ensures r == Done(true) && old(Accounted(w, record, b0)) ==> Pristine(w.banks, b0)
    ensures r == Done(true) ==> w.sent == old(w.sent) + PendingWrites(w.base, old(w.banks), record) && w.refusals == old(w.refusals)
    ensures r == Done(true) && Pending(record) ==> w.selector == 0
  {
    if record.previewRestoreRequired {
      r := RecoverBoth(w, record, idle, n, seen, b0);
    } else {
      r := RecoverRest(w, record, idle, n, seen, b0);
    }
  }

  /** The preview, then what is left. */
  method RecoverBoth(w: World, record: Record, idle: bool, ghost n: nat, ghost seen: set<Event>, ghost b0: Banks)
    returns (r: Step<bool>)
    requires GateOpen(w.trace, n, seen, idle) && Complete(w.banks) && record.mdppBaseAddress == w.base
    requires record.previewRestoreRequired && IsLoc(PreviewLoc(record))
    requires record.sourceRestoreRequired ==> IsLoc(SourceLoc(record))
    modifies w`selector, w`banks, w`vme, w`trace, w`sent, w`journal, w`faulty, w`refusals, w`clock
    ensures GateOpen(w.trace, n, seen, idle) && old(w.trace) <= w.trace && (old(JournalHere(w)) ==> JournalHere(w))
    ensures old(w.journal).Some? ==> w.journal.Some?
    ensures old(w.faulty) ==> w.faulty
    ensures (!w.faulty && (idle ==> LocalValue(w.mvlc, DAQ_MODE) == 0) && ValidRecord(record)
             && old(Accounted(w, record, b0)) && PreviewRestorable(old(w.banks), record)) ==> r == Done(true)
    ensures Separate(record) ==> OnlyRestores(old(w.banks), w.banks, record)
    ensures old(Accounted(w, record, b0)) ==> Journaled(w.banks, b0, w.journal)
    ensures r == Done(true) && old(Accounted(w, record, b0)) ==> Pristine(w.banks, b0)
    ensures r == Done(true) ==> w.sent == old(w.sent) + PendingWrites(w.base, old(w.banks), record) && w.refusals == old(w.refusals)
    ensures r == Done(true) ==> w.selector == 0
  {
    var preview := RecoverPreview(w, record, idle, n, seen, b0);
    PreviewRestores(old(w.banks), w.banks, record);
    var ok :- preview;
    if !ok { return Done(false); }
    ghost var middle := w.banks;
    StillValid(record);
    r := RecoverRest(w, WithoutPreview(record), idle, n, seen, b0);
    if Separate(record) { RestoresCompose(old(w.banks), middle, w.banks, record); }
    PendingApart(old(w.sent), w.base, old(w.banks), record);
  }

  /** What is left once no preview is pending. */
  method RecoverRest(w: World, record: Record, idle: bool, ghost n: nat, ghost seen: set<Event>, ghost b0: Banks)
    returns (r: Step<bool>)
    requires GateOpen(w.trace, n, seen, idle) && Complete(w.banks) && record.mdppBaseAddress == w.base
    requires !record.previewRestoreRequired && (record.sourceRestoreRequired ==> IsLoc(SourceLoc(record)))
    modifies w`selector, w`banks, w`vme, w`trace, w`sent, w`journal, w`faulty, w`refusals, w`clock
    ensures GateOpen(w.trace, n, seen, idle) && old(w.trace) <= w.trace && (old(JournalHere(w)) ==> JournalHere(w))
    ensures old(w.journal).Some? ==> w.journal.Some?
    ensures old(w.faulty) ==> w.faulty
    ensures (!w.faulty && (idle ==> LocalValue(w.mvlc, DAQ_MODE) == 0) && ValidRecord(record) && old(Accounted(w, record, b0))) ==>
              r == Done(true)
    ensures OnlyRestores(old(w.banks), w.banks, record)
    ensures old(Accounted(w, record, b0)) ==> Journaled(w.banks, b0, w.journal)
    ensures r == Done(true) && old(Accounted(w, record, b0)) ==> Pristine(w.banks, b0)
    ensures r == Done(true) ==> w.sent == old(w.sent) + PendingWrites(w.base, old(w.banks), record) && w.refusals == old(w.refusals)
    ensures r == Done(true) ==> w.selector == if record.sourceRestoreRequired then 0 else old(w.selector)
  {
    ghost var accounted := Accounted(w, record, b0);
    if record.sourceRestoreRequired {
      var ok :- RecoverSource(w, record, idle, n, seen, b0);
      if !ok { return Done(false); }
      if accounted { Stop.NothingPending(w.banks, b0, WithoutSource(record)); }
    } else if accounted {
      Stop.NothingPending(w.banks, b0, record);
    }
    r := Done(true);
  }

  /** With nothing written yet, the gate opens on the events seen so far. */
  lemma {:induction false} QuietOpens(trace: seq<Event>, n: nat, seen: set<Event>, idle: bool)
    requires Quiet(trace, n)
    ensures AllGated(trace, n, seen, idle)
    decreases |trace|
  {
    if |trace| > n { QuietOpens(trace[..|trace| - 1], n, seen, idle); }
  }

  lemma SinceIsSeen(trace: seq<Event>, n: nat)
    ensures AllSeen(trace, n, Since(trace, n))
  {
  }

  /** What clearing the controller and resetting the target sends. */
  function FinishWrites(base: nat, r: Record): seq<Event> {
    Stop.ClearWrites(r.stackTriggerRegister, r.stackOffsetRegister, r.ownershipTokenRegister) + Stop.ResetWrites(base)
  }

  /** Everything that a recovery sends, in order. */
  function RecoveryWrites(base: nat, banks: Banks, r: Record, idle: bool): seq<Event>
    requires Complete(banks)
    requires r.previewRestoreRequired ==> IsLoc(PreviewLoc(r))
    requires r.sourceRestoreRequired ==> IsLoc(SourceLoc(r))
  {
    if idle then PendingWrites(base, banks, r)
    else Stop.StopWrites(base) + IsolatedWrites(r.isolated) + PendingWrites(base, banks, r) + FinishWrites(base, r)
  }

  /** A recovery has sent exactly that, and parked the selector if it ever moved it. */
  ghost predicate AllSent(w: World, before: seq<Event>, banks: Banks, r: Record, idle: bool)
    reads w`sent, w`selector
  {
    && Complete(banks)
    && (r.previewRestoreRequired ==> IsLoc(PreviewLoc(r))) && (r.sourceRestoreRequired ==> IsLoc(SourceLoc(r)))
    && w.sent == before + RecoveryWrites(w.base, banks, r, idle)
    && (Pending(r) ==> w.selector == 0)
  }

  /** Active path: clear the controller fingerprint, then reset the target's FIFO and readout. */
  method FinishActive(w: World, record: Record) returns (r: Step<bool>)
    requires record.mdppBaseAddress == w.base && w.base % 0x1_0000 == 0
    modifies w`selector, w`banks, w`vme, w`mvlc, w`trace, w`sent, w`faulty, w`refusals, w`clock
    ensures w.banks == old(w.banks) && old(w.trace) <= w.trace
    ensures old(w.faulty) ==> w.faulty
    ensures !w.faulty ==> r == Done(true)
    ensures r == Done(true) ==> ControllerCleared(w.trace, |old(w.trace)|, record)
    ensures r == Done(true) ==>
              w.selector == old(w.selector) && w.sent == old(w.sent) + FinishWrites(w.base, record) && w.refusals == old(w.refusals)
  {
    var cleared :- Stop.ClearFingerprint(w, record.stackTriggerRegister, record.stackOffsetRegister, record.ownershipTokenRegister);
    if !cleared { return Done(false); }
    ghost var t := w.trace;
    r := ResetOne(w, record.mdppBaseAddress);
    ClearedLater(t, |old(w.trace)|, w.trace, |old(w.trace)|, record);
  }

  /** The modules stop, the values are restored, the controller is cleared: everything before the journal
      may go. */
  method RestoreAll(w: World, record: Record, idle: bool, ghost n: nat, ghost seen: set<Event>, ghost b0: Banks)
    returns (r: Step<bool>)
    requires GateOpen(w.trace, n, seen, idle) && Complete(w.banks) && n <= |w.trace|
    requires ValidRecord(record) && record.mdppBaseAddress == w.base
    requires record.previewRestoreRequired ==> IsSetting(record.previewRegister)
    modifies w`selector, w`banks, w`vme, w`mvlc, w`trace, w`sent, w`journal, w`faulty, w`refusals, w`clock
    ensures GateOpen(w.trace, n, seen, idle) && old(w.trace) <= w.trace && (old(JournalHere(w)) ==> JournalHere(w))
    ensures old(w.faulty) ==> w.faulty
    ensures (!w.faulty && (idle ==> old(LocalValue(w.mvlc, DAQ_MODE)) == 0)
             && old(Accounted(w, record, b0)) && PreviewRestorable(old(w.banks), record)) ==> r == Done(true)
    ensures Separate(record) ==> OnlyRestores(old(w.banks), w.banks, record)
    ensures old(Accounted(w, record, b0)) ==> Journaled(w.banks, b0, w.journal)
    ensures old(w.journal).Some? ==> w.journal.Some?
    ensures r == Done(true) && old(Accounted(w, record, b0)) ==> Pristine(w.banks, b0)
    ensures r == Done(true) && !idle ==> Cleaned(w.trace, n, record)
    ensures r == Done(true) ==> AllSent(w, old(w.sent), old(w.banks), record, idle)
    ensures r == Done(true) ==> w.refusals == old(w.refusals)
  {
    if idle {
      r := RecoverValues(w, record, true, n, seen, b0);
    } else {
      r := RestoreActive(w, record, n, seen, b0);
    }
  }

  /** The active path: stop the modules first. */
  method RestoreActive(w: World, record: Record, ghost n: nat, ghost seen: set<Event>, ghost b0: Banks)
    returns (r: Step<bool>)
    requires GateOpen(w.trace, n, seen, false) && Complete(w.banks) && n <= |w.trace|
    requires ValidRecord(record) && record.mdppBaseAddress == w.base
    requires record.previewRestoreRequired ==> IsSetting(record.previewRegister)
    modifies w`selector, w`banks, w`vme, w`mvlc, w`trace, w`sent, w`journal, w`faulty, w`refusals, w`clock
    ensures GateOpen(w.trace, n, seen, false) && old(w.trace) <= w.trace && (old(JournalHere(w)) ==> JournalHere(w))
    ensures old(w.faulty) ==> w.faulty
    ensures !w.faulty && old(Accounted(w, record, b0)) && PreviewRestorable(old(w.banks), record) ==> r == Done(true)
    ensures Separate(record) ==> OnlyRestores(old(w.banks), w.banks, record)
    ensures old(Accounted(w, record, b0)) ==> Journaled(w.banks, b0, w.journal)
    ensures old(w.journal).Some? ==> w.journal.Some?
    ensures r == Done(true) && old(Accounted(w, record, b0)) ==> Pristine(w.banks, b0)
    ensures r == Done(true) ==> Cleaned(w.trace, n, record) && AllSent(w, old(w.sent), old(w.banks), record, false) && w.refusals == old(w.refusals)
  {
    var stop := StopModules(w, record);
    ActiveKeepsGate(old(w.trace), w.trace, n, seen);
    var stopped :- stop;
    if !stopped { return Done(false); }
    ghost var t := w.trace;
    r := RestoreStopped(w, record, n, seen, b0);
    StoppedLater(t, |old(w.trace)|, w.trace, n, record, |record.isolated|);
    if r == Done(true) {
      ClearedLater(w.trace, |t|, w.trace, n, record);
      Joined(old(w.sent), Stop.StopWrites(w.base) + IsolatedWrites(record.isolated),
             PendingWrites(w.base, old(w.banks), record), FinishWrites(w.base, record));
    }
  }

  /** The active path once the modules are stopped. */
  method RestoreStopped(w: World, record: Record, ghost n: nat, ghost seen: set<Event>, ghost b0: Banks)
    returns (r: Step<bool>)
    requires GateOpen(w.trace, n, seen, false) && Complete(w.banks) && n <= |w.trace|
    requires ValidRecord(record) && record.mdppBaseAddress == w.base
    requires record.previewRestoreRequired ==> IsSetting(record.previewRegister)
    modifies w`selector, w`banks, w`vme, w`mvlc, w`trace, w`sent, w`journal, w`faulty, w`refusals, w`clock
    ensures GateOpen(w.trace, n, seen, false) && old(w.trace) <= w.trace && (old(JournalHere(w)) ==> JournalHere(w))
    ensures old(w.faulty) ==> w.faulty
    ensures !w.faulty && old(Accounted(w, record, b0)) && PreviewRestorable(old(w.banks), record) ==> r == Done(true)
    ensures Separate(record) ==> OnlyRestores(old(w.banks), w.banks, record)
    ensures old(Accounted(w, record, b0)) ==> Journaled(w.banks, b0, w.journal)
    ensures old(w.journal).Some? ==> w.journal.Some?
    ensures r == Done(true) && old(Accounted(w, record, b0)) ==> Pristine(w.banks, b0)
    ensures r == Done(true) ==>
              && ControllerCleared(w.trace, |old(w.trace)|, record) && (Pending(record) ==> w.selector == 0)
              && w.sent == old(w.sent) + PendingWrites(w.base, old(w.banks), record) + FinishWrites(w.base, record) && w.refusals == old(w.refusals)
  {
    var restored :- RecoverValues(w, record, false, n, seen, b0);
    if !restored { return Done(false); }
    ghost var t := w.trace;
    r := FinishActive(w, record);
    ActiveKeepsGate(t, w.trace, n, seen);
    if r == Done(true) { ClearedLater(w.trace, |t|, w.trace, |old(w.trace)|, record); }
  }

  /** The run after the checks passed. The journal goes last. */
  method RestoreAndClean(w: World, record: Record, idle: bool, ghost n: nat, ghost seen: set<Event>, ghost b0: Banks)
    returns (r: Step<bool>)
    requires GateOpen(w.trace, n, seen, idle) && Complete(w.banks) && n <= |w.trace|
    requires ValidRecord(record) && record.mdppBaseAddress == w.base
    requires record.previewRestoreRequired ==> IsSetting(record.previewRegister)
    modifies w`selector, w`banks, w`vme, w`mvlc, w`trace, w`sent, w`journal, w`faulty, w`refusals, w`clock
    ensures GateOpen(w.trace, n, seen, idle) && old(w.trace) <= w.trace && (old(JournalHere(w)) ==> JournalHere(w))
    ensures old(w.faulty) ==> w.faulty
    ensures (!w.faulty && (idle ==> old(LocalValue(w.mvlc, DAQ_MODE)) == 0)
             && old(Accounted(w, record, b0)) && PreviewRestorable(old(w.banks), record)) ==> r == Done(true)
    ensures Separate(record) ==> OnlyRestores(old(w.banks), w.banks, record)
    ensures old(Accounted(w, record, b0)) ==> Journaled(w.banks, b0, w.journal)
    ensures r == Done(true) ==> w.journal == None
    ensures !idle && (r == Done(true) || (old(w.journal).Some? && w.journal.None?)) ==> Cleaned(w.trace, n, record)
    ensures r == Done(true) ==> AllSent(w, old(w.sent), old(w.banks), record, idle)
    ensures r == Done(true) ==> w.refusals == old(w.refusals)
  {
    var restored :- RestoreAll(w, record, idle, n, seen, b0);
    if !restored { return Done(false); }
    r := w.Remove();
  }

  /** The conditions under which recovery must succeed when nothing goes wrong on the way. */
  ghost predicate Recoverable(w: World, r: Record, b0: Banks)
    reads w`selector, w`banks, w`vme, w`mvlc, w`journal
  {
    && Accounted(w, r, b0) && RightModules(w, r) && PreviewRestorable(w.banks, r)
    && Reconstructible(r) && VerdictOf(r, LiveView(w.mvlc, r)) != ForeignOrMismatched
    && (LocalValue(w.mvlc, DAQ_MODE) == 0 ==> w.Value(r.mdppBaseAddress + ACQUISITION_CONTROL) == 0)
  }

  /** RecoverDiagnosticOrphan, from any state of the crate.
      - Writes: either none at all, or every one of them after the whole set of justifying readbacks
        (and on the idle path after a DAQ-mode readback of zero taken since the previous write).
      - Banks: a register changes only from its journaled applied value to its journaled original.
      - Restartable: if journal and record account for every deviation before, the journal still does
        after, whether the run finishes, fails or crashes; a run that reports success leaves every
        register at its original value and no journal. */
  method RecoverOrphan(w: World, record: Record, ghost b0: Banks)
    returns (r: Step<RecoveryState>, ghost seen: set<Event>, idle: bool)
    requires Complete(w.banks) && ValidRecord(record) && record.mdppBaseAddress == w.base
    modifies w`selector, w`banks, w`vme, w`mvlc, w`trace, w`sent, w`journal, w`faulty, w`refusals, w`clock
    ensures old(w.faulty) ==> w.faulty
    ensures old(JournalHere(w)) ==> JournalHere(w)
    ensures !w.faulty && old(Recoverable(w, record, b0)) ==> r == Done(Recovered) || r == Done(RecoveredClean)
    ensures RunGated(w.trace, |old(w.trace)|, seen, record, idle)
    ensures Separate(record) ==> OnlyRestores(old(w.banks), w.banks, record)
    ensures old(Accounted(w, record, b0)) ==> Journaled(w.banks, b0, w.journal)
    ensures r == Done(Recovered) || r == Done(RecoveredClean) ==>
              w.journal == None && (old(Accounted(w, record, b0)) ==> Pristine(w.banks, b0))
    ensures r == Done(Recovered) && !idle ==> Cleaned(w.trace, |old(w.trace)|, record)
    ensures r == Done(Recovered) ==> AllSent(w, old(w.sent), old(w.banks), record, idle)
    ensures r == Done(Recovered) ==> w.refusals == old(w.refusals)
    ensures r == Done(Recovered) && Pending(record) ==> w.selector == 0
    ensures old(w.journal).Some? && w.journal.None? && !idle ==>
              VerdictAmong(Since(w.trace, |old(w.trace)|), record, AlreadyClean) || Cleaned(w.trace, |old(w.trace)|, record)
    ensures r == Done(Foreign) ==>
              Quiet(w.trace, |old(w.trace)|) && w.banks == old(w.banks) && w.journal == old(w.journal)
  {
    seen, idle := {}, false;
    ghost var n := |w.trace|;
    var verdict :- Identify(w, record, n);
    if verdict.None? { return Done(Failed), seen, idle; }
    if verdict.value == ForeignOrMismatched { return Done(Foreign), seen, idle; }
    idle := verdict.value == IdleWithRestoration;
    r, seen := RecoverIdentified(w, record, verdict.value, n, b0);
  }

  /** The run once controller and fingerprint are the session's own. */
  method RecoverIdentified(w: World, record: Record, verdict: Verdict, ghost n: nat, ghost b0: Banks)
    returns (r: Step<RecoveryState>, ghost seen: set<Event>)
    requires Complete(w.banks) && ValidRecord(record) && record.mdppBaseAddress == w.base
    requires Quiet(w.trace, n) && verdict != ForeignOrMismatched && VerdictAmong(Since(w.trace, n), record, verdict)
    requires verdict == AlreadyClean ==> !record.previewRestoreRequired && !record.sourceRestoreRequired
    modifies w`selector, w`banks, w`vme, w`mvlc, w`trace, w`sent, w`journal, w`faulty, w`refusals, w`clock
    ensures old(JournalHere(w)) ==> JournalHere(w)
    ensures old(w.faulty) ==> w.faulty
    ensures (!w.faulty && (verdict == IdleWithRestoration ==> old(LocalValue(w.mvlc, DAQ_MODE)) == 0) && old(Recoverable(w, record, b0)))
            ==> r == Done(Recovered) || r == Done(RecoveredClean)
    ensures RunGated(w.trace, n, seen, record, verdict == IdleWithRestoration)
    ensures Separate(record) ==> OnlyRestores(old(w.banks), w.banks, record)
    ensures old(Accounted(w, record, b0)) ==> Journaled(w.banks, b0, w.journal)
    ensures r.Done? ==> r.value != Foreign && (verdict == AlreadyClean ==> r.value != Recovered)
    ensures verdict == AlreadyClean ==> w.trace == old(w.trace)
    ensures r == Done(Recovered) || r == Done(RecoveredClean) ==>
              w.journal == None && (old(Accounted(w, record, b0)) ==> Pristine(w.banks, b0))
    ensures verdict == OrphanConfirmed && (r == Done(Recovered) || (old(w.journal).Some? && w.journal.None?)) ==>
              Cleaned(w.trace, n, record)
    ensures r == Done(Recovered) ==> AllSent(w, old(w.sent), old(w.banks), record, verdict == IdleWithRestoration)
    ensures r == Done(Recovered) || r == Done(RecoveredClean) ==> w.refusals == old(w.refusals)
  {
    seen := {};
    if verdict == AlreadyClean {
      r := RemoveStale(w, record, b0);
      return;
    }
    r, seen := RecoverChecked(w, record, verdict == IdleWithRestoration, n, b0);
  }

  /** Nothing pending: the stale journal goes without any hardware write. */
  method RemoveStale(w: World, record: Record, ghost b0: Banks) returns (r: Step<RecoveryState>)
    requires !record.previewRestoreRequired && !record.sourceRestoreRequired
    modifies w`journal, w`faulty, w`refusals, w`clock
    ensures old(JournalHere(w)) ==> JournalHere(w)
    ensures old(w.faulty) ==> w.faulty
    ensures !w.faulty ==> r == Done(RecoveredClean)
    ensures r.Done? ==> r.value == RecoveredClean || r.value == Failed
    ensures r == Done(RecoveredClean) ==> w.journal == None && w.refusals == old(w.refusals)
    ensures old(Accounted(w, record, b0)) ==> Journaled(w.banks, b0, w.journal)
  {
    if Accounted(w, record, b0) { Stop.NothingPending(w.banks, b0, record); }
    var removed :- w.Remove();
    r := Done(if removed then RecoveredClean else Failed);
  }

  /** All the checks, which open the gate: what was seen justifies every later write. */
  method OpenGate(w: World, record: Record, idle: bool, ghost n: nat) returns (r: Step<bool>, ghost seen: set<Event>)
    requires Quiet(w.trace, n)
    requires VerdictAmong(Since(w.trace, n), record, if idle then IdleWithRestoration else OrphanConfirmed)
    modifies w`trace, w`faulty, w`refusals, w`clock
    ensures Quiet(w.trace, n)
    ensures old(w.faulty) ==> w.faulty
    ensures (!w.faulty && RightModules(w, record)
            && (idle ==> LocalValue(w.mvlc, DAQ_MODE) == 0 && w.Value(record.mdppBaseAddress + ACQUISITION_CONTROL) == 0)
            && (record.sourceRestoreRequired ==> record.sourceAppliedAvailable)
            && (record.previewRestoreRequired ==> IsSetting(record.previewRegister))) ==> r == Done(true)
    ensures r == Done(true) ==>
              && w.refusals == old(w.refusals) && n <= |w.trace|
              && Justifies(seen, record, idle) && GateOpen(w.trace, n, seen, idle)
              && (record.previewRestoreRequired ==> IsSetting(record.previewRegister))
  {
    seen := {};
    var passed :- PassChecks(w, record, idle, n);
    if !passed { return Done(false), seen; }
    seen := Since(w.trace, n);
    QuietOpens(w.trace, n, seen, idle);
    SinceIsSeen(w.trace, n);
    r := Done(true);
  }

  /** No write at all, or every write justified. */
  ghost predicate RunGated(trace: seq<Event>, n: nat, seen: set<Event>, r: Record, idle: bool) {
    Quiet(trace, n) || (Justifies(seen, r, idle) && AllGated(trace, n, seen, idle))
  }

  /** The run once the verdict allows it. */
  method RecoverChecked(w: World, record: Record, idle: bool, ghost n: nat, ghost b0: Banks)
    returns (r: Step<RecoveryState>, ghost seen: set<Event>)
    requires Complete(w.banks) && ValidRecord(record) && record.mdppBaseAddress == w.base && Quiet(w.trace, n)
    requires VerdictAmong(Since(w.trace, n), record, if idle then IdleWithRestoration else OrphanConfirmed)
    modifies w`selector, w`banks, w`vme, w`mvlc, w`trace, w`sent, w`journal, w`faulty, w`refusals, w`clock
    ensures old(JournalHere(w)) ==> JournalHere(w)
    ensures old(w.faulty) ==> w.faulty
    ensures (!w.faulty && old(Accounted(w, record, b0) && RightModules(w, record) && PreviewRestorable(w.banks, record))
             && (idle ==> old(LocalValue(w.mvlc, DAQ_MODE) == 0 && w.Value(record.mdppBaseAddress + ACQUISITION_CONTROL) == 0)))
            ==> r == Done(Recovered)
    ensures RunGated(w.trace, n, seen, record, idle)
    ensures Separate(record) ==> OnlyRestores(old(w.banks), w.banks, record)
    ensures old(Accounted(w, record, b0)) ==> Journaled(w.banks, b0, w.journal)
    ensures r.Done? ==> r.value == Recovered || r.value == Failed
    ensures r == Done(Recovered) ==> w.journal == None
    ensures !idle && (r == Done(Recovered) || (old(w.journal).Some? && w.journal.None?)) ==> Cleaned(w.trace, n, record)
    ensures r == Done(Recovered) ==> AllSent(w, old(w.sent), old(w.banks), record, idle)
    ensures r == Done(Recovered) ==> w.refusals == old(w.refusals)
  {
    seen := {};
    var passed;
    passed, seen :- OpenGate(w, record, idle, n);
    if !passed { return Done(Failed), seen; }
    var recovered :- RestoreAndClean(w, record, idle, n, seen, b0);
    return Done(if recovered then Recovered else Failed), seen;
  }
}
