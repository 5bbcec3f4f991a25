/** Stopping direct acquisition: every readback that a clean stop must have seen before the journal
    may go. */
module Stop {
  import opened Words
  import opened ScpRegistry
  import opened RecoveryRecord
  import opened Crate
  import opened Fingerprint
  import opened PauseResume
  import opened Source

  datatype Isolation = Isolation(base: u32, quiescenceAttempted: bool, fifoResetSent: bool, readoutResetSent: bool)

  datatype StopState = Stopped | Failed | Detached(outcome: LiveOutcome)

  /** One non-target module reads back stopped after position n. */
  ghost predicate SeenStopped(trace: seq<Event>, n: nat, base: u32) {
    Seen(trace, n, Event.ReadVme(base + ACQUISITION_CONTROL, 0))
  }

  ghost predicate SeenZero(trace: seq<Event>, n: nat, register: u16) {
    Seen(trace, n, Event.ReadLocal([register], [0]))
  }

  /** Everything a clean stop has to have read back after position n. */
  ghost predicate StopVerified(trace: seq<Event>, n: nat, base: u32, isolation: seq<Isolation>, plan: ReadoutPlan, r: Record) {
    && SeenStopped(trace, n, base)
    && (forall i | 0 <= i < |isolation| && isolation[i].quiescenceAttempted :: SeenStopped(trace, n, isolation[i].base))
    && SeenZero(trace, n, DAQ_MODE) && SeenZero(trace, n, plan.stackTriggerRegister)
    && SeenZero(trace, n, plan.stackOffsetRegister) && SeenZero(trace, n, r.ownershipTokenRegister)
  }

  /** What stopping a module, resetting its buffers and clearing the controller send. */
  function StopWrites(base: nat): seq<Event> { [SentVme(base + ACQUISITION_CONTROL, 0)] }

  function ResetWrites(base: nat): seq<Event> { [SentVme(base + FIFO_RESET, 1), SentVme(base + READOUT_RESET, 1)] }

  function ClearWrites(trigger: u16, offset: u16, token: u16): seq<Event> {
    [SentLocal(Zeros([DAQ_MODE, trigger, offset, token]))]
  }

  function Zeros(registers: seq<u16>): seq<LocalWrite> {
    seq(|registers|, i requires 0 <= i < |registers| => LocalWrite(registers[i], 0))
  }

  /** What cleaning up the isolated modules sends: a module that restarted is stopped and reset again, another
      is left alone. */
  function CleanUpWrites(isolation: seq<Isolation>, restarted: seq<bool>): seq<Event>
    requires |isolation| == |restarted|
  {
    if isolation == [] then []
    else
      var e, again := isolation[|isolation| - 1], restarted[|restarted| - 1];
      CleanUpWrites(isolation[..|isolation| - 1], restarted[..|restarted| - 1])
      + if e.quiescenceAttempted && again then StopWrites(e.base) + ResetWrites(e.base) else []
  }

  /** Stop one module, selected or not; true when it also reads back stopped. */
  method StopModule(w: World, base: u32) returns (r: Step<bool>)
    requires w.base % 0x1_0000 == 0 && base % 0x1_0000 == 0
    modifies w`selector, w`banks, w`vme, w`trace, w`sent, w`faulty, w`refusals, w`clock
    ensures w.banks == old(w.banks) && w.selector == old(w.selector) && old(w.trace) <= w.trace
    ensures old(w.faulty) ==> w.faulty
    ensures !w.faulty ==> r == Done(true)
    ensures r == Done(true) ==>
              SeenStopped(w.trace, |old(w.trace)|, base) && w.Value(base + ACQUISITION_CONTROL) == 0 && w.refusals == old(w.refusals)
    ensures w.sent == old(w.sent) + StopWrites(base)
  {
    if base != w.base { OffTarget(w, base, ACQUISITION_CONTROL); }
    var sent :- w.WriteVme(base + ACQUISITION_CONTROL, 0);
    if !sent { return Done(false); }
    var readback :- w.ReadVme(base + ACQUISITION_CONTROL);
    if readback.None? || readback.value != 0 { return Done(false); }
    assert w.trace[|w.trace| - 1] == Event.ReadVme(base + ACQUISITION_CONTROL, 0);
    r := Done(true);
  }

  /** Send both buffer resets of an isolated module. */
  method ResetBuffers(w: World, base: u32) returns (r: Step<bool>)
    requires w.base % 0x1_0000 == 0 && base % 0x1_0000 == 0 && base != w.base
    modifies w`selector, w`banks, w`vme, w`trace, w`sent, w`faulty, w`refusals, w`clock
    ensures w.banks == old(w.banks) && old(w.trace) <= w.trace
    ensures old(w.faulty) ==> w.faulty
    ensures !w.faulty ==> r == Done(true)
    ensures old(w.sent) <= w.sent && (r.Done? ==> w.sent == old(w.sent) + ResetWrites(base))
    ensures r == Done(true) ==> w.refusals == old(w.refusals)
    ensures w.Value(base + ACQUISITION_CONTROL) == old(w.Value(base + ACQUISITION_CONTROL))
  {
    OffTarget(w, base, ACQUISITION_CONTROL);
    OffTarget(w, base, FIFO_RESET);
    OffTarget(w, base, READOUT_RESET);
    var fifo :- w.WriteVme(base + FIFO_RESET, 1);
    var readout :- w.WriteVme(base + READOUT_RESET, 1);
    r := Done(fifo && readout);
  }

  /** Check one isolated module; stop and reset it again if it restarted. */
  method CleanUpIsolated(w: World, e: Isolation) returns (r: Step<bool>)
    requires w.base % 0x1_0000 == 0 && e.base % 0x1_0000 == 0 && e.base != w.base
    modifies w`selector, w`banks, w`vme, w`trace, w`sent, w`faulty, w`refusals, w`clock
    ensures w.banks == old(w.banks) && old(w.trace) <= w.trace
    ensures old(w.faulty) ==> w.faulty
    ensures !w.faulty && e.fifoResetSent && e.readoutResetSent ==> r == Done(true)
    ensures r == Done(true) || !w.faulty ==>
              SeenStopped(w.trace, |old(w.trace)|, e.base) && w.Value(e.base + ACQUISITION_CONTROL) == 0
    ensures !w.faulty ==> r.Done?
    ensures old(w.sent) <= w.sent
    ensures r == Done(true) ==>
              var again := old(w.Value(e.base + ACQUISITION_CONTROL)) != 0;
              && w.sent == old(w.sent) + (if again then StopWrites(e.base) + ResetWrites(e.base) else []) && w.refusals == old(w.refusals)
              && (!again ==> e.fifoResetSent && e.readoutResetSent)
  {
    var first :- w.ReadVme(e.base + ACQUISITION_CONTROL);
    if first.None? { return Done(false); }
    if first.value == 0 {
      assert w.trace[|w.trace| - 1] == Event.ReadVme(e.base + ACQUISITION_CONTROL, 0);
      return Done(e.fifoResetSent && e.readoutResetSent);
    }
    ghost var t0 := w.trace;
    var stopped :- StopModule(w, e.base);
    if !stopped { return Done(false); }
    ghost var t1 := w.trace;
    r := ResetBuffers(w, e.base);
    SeenLater(t1, |t0|, w.trace, |old(w.trace)|, Event.ReadVme(e.base + ACQUISITION_CONTROL, 0));
  }

  /** Clear the controller's fingerprint registers and read each of them back as zero. */
  method ClearFingerprint(w: World, trigger: u16, offset: u16, token: u16) returns (r: Step<bool>)
    modifies w`mvlc, w`trace, w`sent, w`faulty, w`refusals, w`clock
    ensures w.sent == old(w.sent) + ClearWrites(trigger, offset, token)
    ensures r == Done(true) ==> w.refusals == old(w.refusals)
    ensures old(w.trace) <= w.trace
    ensures old(w.faulty) ==> w.faulty
    ensures !w.faulty ==> r == Done(true)
    ensures r == Done(true) ==>
              && SeenZero(w.trace, |old(w.trace)|, DAQ_MODE) && SeenZero(w.trace, |old(w.trace)|, trigger)
              && SeenZero(w.trace, |old(w.trace)|, offset) && SeenZero(w.trace, |old(w.trace)|, token)
    ensures r == Done(true) ==>
              && LocalValue(w.mvlc, DAQ_MODE) == 0 && LocalValue(w.mvlc, trigger) == 0
              && LocalValue(w.mvlc, offset) == 0 && LocalValue(w.mvlc, token) == 0
  {
    var registers := [DAQ_MODE, trigger, offset, token];
    var cleared :- w.WriteLocal(Zeros(registers));
    if !cleared { return Done(false); }
    forall k | 0 <= k < 4 ensures LocalValue(ApplyWrites(old(w.mvlc), Zeros(registers)), registers[k]) == 0 {
      LastWriteWins(old(w.mvlc), Zeros(registers), k);
    }
    ghost var t := w.trace;
    r := ReadZeros(w, registers);
    if r == Done(true) {
      forall k | 0 <= k < 4 ensures SeenZero(w.trace, |old(w.trace)|, registers[k]) && LocalValue(w.mvlc, registers[k]) == 0 {
        SeenLater(w.trace, |t|, w.trace, |old(w.trace)|, Event.ReadLocal([registers[k]], [0]));
      }
      assert registers[0] == DAQ_MODE && registers[1] == trigger && registers[2] == offset && registers[3] == token;
    }
  }

  /** Read each register back; true when all are zero. */
  method ReadZeros(w: World, registers: seq<u16>) returns (r: Step<bool>)
    modifies w`trace, w`faulty, w`refusals, w`clock
    ensures old(w.trace) <= w.trace
    ensures old(w.faulty) ==> w.faulty
    ensures !w.faulty && (forall k | 0 <= k < |registers| :: LocalValue(w.mvlc, registers[k]) == 0) ==> r == Done(true)
    ensures r == Done(true) ==>
              forall k | 0 <= k < |registers| ::
                SeenZero(w.trace, |old(w.trace)|, registers[k]) && LocalValue(w.mvlc, registers[k]) == 0
    ensures r == Done(true) ==> w.refusals == old(w.refusals)
  {
    for i := 0 to |registers|
      invariant old(w.trace) <= w.trace && w.refusals == old(w.refusals)
      invariant old(w.faulty) ==> w.faulty
      invariant forall k | 0 <= k < i :: SeenZero(w.trace, |old(w.trace)|, registers[k]) && LocalValue(w.mvlc, registers[k]) == 0
    {
      ghost var before := w.trace;
      var readback :- w.ReadLocal([registers[i]]);
      if readback.None? || readback.value[0] != 0 { return Done(false); }
      assert readback.value == [0];
      assert w.trace[|w.trace| - 1] == Event.ReadLocal([registers[i]], [0]);
      forall k | 0 <= k < i ensures SeenZero(w.trace, |old(w.trace)|, registers[k]) {
        SeenLater(before, |old(w.trace)|, w.trace, |old(w.trace)|, Event.ReadLocal([registers[k]], [0]));
      }
    }
    r := Done(true);
  }

  function Attempted(isolation: seq<Isolation>): nat {
    if isolation == [] then 0
    else Attempted(isolation[..|isolation| - 1]) + if isolation[|isolation| - 1].quiescenceAttempted then 1 else 0
  }

  predicate Quiesced(e: Isolation) { e.quiescenceAttempted ==> e.fifoResetSent && e.readoutResetSent }

  /** Of the first `count` isolated modules, each quiesced one read back stopped. */
  ghost predicate StoppedTo(trace: seq<Event>, n: nat, isolation: seq<Isolation>, count: nat)
    requires count <= |isolation|
  {
    forall k | 0 <= k < count && isolation[k].quiescenceAttempted :: SeenStopped(trace, n, isolation[k].base)
  }

  lemma StoppedToLater(trace: seq<Event>, later: seq<Event>, n: nat, isolation: seq<Isolation>, count: nat)
    requires count <= |isolation| && trace <= later && StoppedTo(trace, n, isolation, count)
    ensures StoppedTo(later, n, isolation, count)
  {
    forall k | 0 <= k < count && isolation[k].quiescenceAttempted ensures SeenStopped(later, n, isolation[k].base) {
      SeenLater(trace, n, later, n, Event.ReadVme(isolation[k].base + ACQUISITION_CONTROL, 0));
    }
  }

  /** An isolated module that did not restart was already reset when it was quiesced. */
  predicate LeftAlone(e: Isolation, again: bool) {
    e.quiescenceAttempted && !again ==> e.fifoResetSent && e.readoutResetSent
  }

  method CleanUpAll(w: World, isolation: seq<Isolation>) returns (r: Step<(bool, nat)>, ghost restarted: seq<bool>)
    requires w.base % 0x1_0000 == 0
    requires forall i | 0 <= i < |isolation| :: isolation[i].base % 0x1_0000 == 0 && isolation[i].base != w.base
    modifies w`selector, w`banks, w`vme, w`trace, w`sent, w`faulty, w`refusals, w`clock
    ensures w.banks == old(w.banks) && old(w.trace) <= w.trace
    ensures old(w.faulty) ==> w.faulty
    ensures !w.faulty && (forall i | 0 <= i < |isolation| :: Quiesced(isolation[i])) ==> r == Done((true, Attempted(isolation)))
    ensures !w.faulty ==> r.Done?
    ensures (r.Done? && r.value.0) || !w.faulty ==> StoppedTo(w.trace, |old(w.trace)|, isolation, |isolation|)
    ensures old(w.sent) <= w.sent
    ensures r.Done? && r.value.0 ==>
              && r.value.1 == Attempted(isolation) && |restarted| == |isolation|
              && w.sent == old(w.sent) + CleanUpWrites(isolation, restarted) && w.refusals == old(w.refusals)
              && forall i | 0 <= i < |isolation| :: LeftAlone(isolation[i], restarted[i])
  {
    restarted := [];
    var clean, verified := true, 0;
    for i := 0 to |isolation|
      invariant w.banks == old(w.banks) && old(w.trace) <= w.trace && old(w.sent) <= w.sent
      invariant old(w.faulty) ==> w.faulty
      invariant |restarted| == i
      invariant !w.faulty && (forall k | 0 <= k < i :: Quiesced(isolation[k])) ==> clean
      invariant clean || !w.faulty ==> StoppedTo(w.trace, |old(w.trace)|, isolation, i)
      invariant clean ==> CleanTo(old(w.sent), w.sent, isolation[..i], restarted, verified) && w.refusals == old(w.refusals)
    {
      ghost var again := w.Value(isolation[i].base + ACQUISITION_CONTROL) != 0;
      ghost var done, counted, t, s := restarted, verified, w.trace, w.sent;
      restarted := restarted + [again];
      if isolation[i].quiescenceAttempted {
        var ok :- CleanUpIsolated(w, isolation[i]);
        if ok { verified := verified + 1; } else { clean := false; }
      }
      if clean || !w.faulty { StoppedToLater(t, w.trace, |old(w.trace)|, isolation, i); }
      if clean { CleanOneMore(old(w.sent), s, isolation, i, done, counted, again); }
    }
    assert isolation[..|isolation|] == isolation;
    r := Done((clean, verified));
  }

  /** The modules so far were cleaned up: counted, and nothing but what that takes was sent. */
  ghost predicate CleanTo(start: seq<Event>, sent: seq<Event>, isolation: seq<Isolation>, restarted: seq<bool>, verified: nat) {
    && AllLeftAlone(isolation, restarted) && verified == Attempted(isolation)
    && sent == start + CleanUpWrites(isolation, restarted)
  }

  lemma CleanOneMore(start: seq<Event>, sent: seq<Event>, isolation: seq<Isolation>, i: nat, restarted: seq<bool>,
                     verified: nat, again: bool)
    requires i < |isolation| && CleanTo(start, sent, isolation[..i], restarted, verified)
    requires LeftAlone(isolation[i], again)
    ensures var e := isolation[i];
            CleanTo(start, sent + (if e.quiescenceAttempted && again then StopWrites(e.base) + ResetWrites(e.base) else []),
                    isolation[..i + 1], restarted + [again], if e.quiescenceAttempted then verified + 1 else verified)
  {
    assert isolation[..i + 1][..i] == isolation[..i] && (restarted + [again])[..i] == restarted;
  }

  predicate AllLeftAlone(isolation: seq<Isolation>, restarted: seq<bool>) {
    |restarted| == |isolation| && forall i | 0 <= i < |isolation| :: LeftAlone(isolation[i], restarted[i])
  }

  /** Everything a clean stop sends, in order. */
  function WholeStop(base: nat, isolation: seq<Isolation>, restarted: seq<bool>, plan: ReadoutPlan, r: Record): seq<Event>
    requires |isolation| == |restarted|
  {
    StopWrites(base) + CleanUpWrites(isolation, restarted)
    + ClearWrites(plan.stackTriggerRegister, plan.stackOffsetRegister, r.ownershipTokenRegister)
  }

  /** Exactly that was sent, and as many modules were cleaned up as had been quiesced. */
  ghost predicate WholeStopSent(before: seq<Event>, sent: seq<Event>, base: nat, isolation: seq<Isolation>, restarted: seq<bool>,
                                quiesced: nat, plan: ReadoutPlan, r: Record)
  {
    && quiesced == Attempted(isolation) && AllLeftAlone(isolation, restarted)
    && sent == before + WholeStop(base, isolation, restarted, plan, r)
  }

  /** The three phases of a stop: the target, the isolated modules, the controller's registers. */
  method StopEverything(w: World, s: Session, isolation: seq<Isolation>, quiesced: nat)
    returns (r: Step<bool>, ghost restarted: seq<bool>)
    requires w.base % 0x1_0000 == 0
    requires forall i | 0 <= i < |isolation| :: isolation[i].base % 0x1_0000 == 0 && isolation[i].base != w.base
    modifies w`selector, w`banks, w`vme, w`mvlc, w`trace, w`sent, w`faulty, w`refusals, w`clock
    ensures w.banks == old(w.banks) && old(w.trace) <= w.trace
    ensures old(w.faulty) ==> w.faulty
    ensures (!w.faulty && quiesced == Attempted(isolation) && forall i | 0 <= i < |isolation| :: Quiesced(isolation[i]))
            ==> r == Done(true)
    ensures r == Done(true) || !w.faulty ==> StopVerified(w.trace, |old(w.trace)|, w.base, isolation, s.plan, s.record)
    ensures !w.faulty ==> r.Done?
    ensures r.Done? ==>
              var clear := ClearWrites(s.plan.stackTriggerRegister, s.plan.stackOffsetRegister, s.record.ownershipTokenRegister);
              old(w.sent) + StopWrites(w.base) <= w.sent && w.sent[|w.sent| - 1..] == clear
    ensures r == Done(true) ==>
              && WholeStopSent(old(w.sent), w.sent, w.base, isolation, restarted, quiesced, s.plan, s.record)
              && w.refusals == old(w.refusals)
  {
    restarted := [];
    var targetStopped :- StopModule(w, w.base);
    ghost var t1 := w.trace;
    var isolated;
    isolated, restarted :- CleanUpAll(w, isolation);
    ghost var t2 := w.trace;
    var cleared :- ClearFingerprint(w, s.plan.stackTriggerRegister, s.plan.stackOffsetRegister, s.record.ownershipTokenRegister);
    if (targetStopped && isolated.0 && cleared) || !w.faulty {
      CombineEvidence(old(w.trace), old(w.trace), t1, t2, w.trace, w.base, isolation, s.plan, s.record);
    }
    if !targetStopped || !isolated.0 || isolated.1 != quiesced || !cleared { return Done(false), restarted; }
    r := Done(true);
  }

  lemma EvidenceFromEarlier(trace: seq<Event>, n: nat, m: nat, base: u32, isolation: seq<Isolation>, plan: ReadoutPlan, r: Record)
    requires m <= n && StopVerified(trace, n, base, isolation, plan, r)
    ensures StopVerified(trace, m, base, isolation, plan, r)
  {
  }

  lemma NothingPending(banks: Banks, b0: Banks, r: Record)
    requires Covers(banks, b0, r) && !r.sourceRestoreRequired && !r.previewRestoreRequired
    ensures Pristine(banks, b0)
  {
    forall l: Loc | IsLoc(l) ensures banks[l] == b0[l] { assert AccountedFor(banks, b0, r, l); }
  }

  /** StopDiagnosticAcquisition. The journal changes only after a fully verified clean stop with no
      restore pending; a foreign or unreadable fingerprint leads to no write at all. */
  method StopAcquisition(w: World, s: Session, isolation: seq<Isolation>, quiesced: nat, ownershipCheck: bool,
                         ghost b0: Banks)
    returns (r: Step<StopState>, ghost restarted: seq<bool>)
    requires Safe(w, s, b0) && ValidRecord(s.record) && s.record.mdppBaseAddress == w.base
    requires forall i | 0 <= i < |isolation| :: isolation[i].base in s.record.isolated
    modifies w`selector, w`banks, w`vme, w`mvlc, w`trace, w`sent, w`journal, w`faulty, w`refusals, w`clock
    ensures old(w.faulty) ==> w.faulty
    ensures Safe(w, s, b0) && w.banks == old(w.banks)
    ensures !w.faulty && (ownershipCheck ==> old(Owns(w, s)))
            && !s.record.sourceRestoreRequired && !s.record.previewRestoreRequired
            && quiesced == Attempted(isolation) && (forall i | 0 <= i < |isolation| :: Quiesced(isolation[i]))
            ==> r == Done(Stopped)
    ensures old(w.trace) <= w.trace
    ensures w.journal != old(w.journal) || r == Done(Stopped) ==> !s.record.sourceRestoreRequired && !s.record.previewRestoreRequired
    ensures (w.journal != old(w.journal) || r == Done(Stopped) || (!w.faulty && (ownershipCheck ==> old(Owns(w, s))))) ==>
              StopVerified(w.trace, |old(w.trace)|, w.base, isolation, s.plan, s.record)
    ensures r == Done(Stopped) ==> w.journal == None && Pristine(w.banks, b0) && w.refusals == old(w.refusals)
    ensures ownershipCheck && (w.sent != old(w.sent) || w.journal != old(w.journal) || (r.Done? && !r.value.Detached?)) ==>
              old(Owns(w, s)) && OwnershipRead(w.adversary, old(w.clock), s.plan, s.record)
    ensures !w.faulty && (ownershipCheck ==> old(Owns(w, s))) ==> r.Done?
    ensures w.journal != old(w.journal) || r == Done(Stopped) ==>
              WholeStopSent(old(w.sent), w.sent, w.base, isolation, restarted, quiesced, s.plan, s.record)
    ensures r.Done? && r.value.Detached? ==>
              ownershipCheck && NoWrites(w.trace[|old(w.trace)|..]) && w.journal == old(w.journal)
  {
    restarted := [];
    if ownershipCheck {
      var fingerprint :- VerifyOwnership(w, s.plan, s.record);
      if fingerprint != Verified { return Done(Detached(fingerprint)), restarted; }
    }
    ghost var t0 := w.trace;
    var clean;
    clean, restarted :- StopEverything(w, s, isolation, quiesced);
    if clean || !w.faulty { EvidenceFromEarlier(w.trace, |t0|, |old(w.trace)|, w.base, isolation, s.plan, s.record); }
    var pending := s.record.previewRestoreRequired || s.record.sourceRestoreRequired;
    if !clean || pending { return Done(Failed), restarted; }

    NothingPending(w.banks, b0, s.record);
    var removed :- w.Remove();
    r := Done(if removed then Stopped else Failed);
  }

  /** The readbacks of the three phases of a stop, put together. */
  lemma CombineEvidence(start: seq<Event>, t0: seq<Event>, t1: seq<Event>, t2: seq<Event>, end: seq<Event>,
                        base: u32, isolation: seq<Isolation>, plan: ReadoutPlan, r: Record)
    requires start <= t0 <= t1 <= t2 <= end
    requires SeenStopped(t1, |t0|, base)
    requires forall i | 0 <= i < |isolation| && isolation[i].quiescenceAttempted :: SeenStopped(t2, |t1|, isolation[i].base)
    requires SeenZero(end, |t2|, DAQ_MODE) && SeenZero(end, |t2|, plan.stackTriggerRegister)
    requires SeenZero(end, |t2|, plan.stackOffsetRegister) && SeenZero(end, |t2|, r.ownershipTokenRegister)
    ensures StopVerified(end, |start|, base, isolation, plan, r)
  {
  }
}
