/** Temporary parameter previews: the same guarded transaction as a source change, applied to any
    banked setting, with a dependency check. */
module Preview {
  import opened Words
  import opened ScpRegistry
  import opened RecoveryRecord
  import opened Crate
  import opened Fingerprint
  import opened PauseResume
  import opened Source

  function WithPreview(r: Record, quad: u16, reg: u16, original: u16, applied: u16): Record {
    r.(previewRestoreRequired := true, previewQuad := quad, previewRegister := reg,
       previewOriginal := original, previewApplied := applied)
  }

  function WithoutPreview(r: Record): Record {
    r.(previewRestoreRequired := false, previewQuad := 0, previewRegister := 0,
       previewOriginal := 0, previewApplied := 0)
  }

  /** What an apply transaction learned about its one register write. */
  datatype Evidence = Evidence(attempted: bool, verified: bool, rolledBack: bool) {
    /** The code's reason to drop the pending entry again after arming it. */
    predicate TreatedAsInactive() { !verified || rolledBack }
    predicate ConfigurationSafe() { !attempted || verified || rolledBack }
    predicate WellFormed() { (verified ==> attempted && !rolledBack) && (rolledBack ==> attempted) }

    /** Register values compatible with the evidence. */
    predicate Possible(original: u16, applied: u16, live: u16) {
      if !attempted || rolledBack then live == original
      else if verified then live == applied
      else live == original || live == applied
    }
  }

  /** A pending source change is not on the location that would be previewed. */
  predicate SourceElsewhere(r: Record, quad: nat, reg: nat) {
    r.sourceRestoreRequired ==> SourceLoc(r) != Loc(quad, reg)
  }

  /** No register other than the pending source location differs from its original. */
  ghost predicate PreviewQuiet(banks: Banks, b0: Banks, r: Record) {
    && Complete(banks) && Complete(b0)
    && forall l: Loc :: IsLoc(l) && !(r.sourceRestoreRequired && l == SourceLoc(r)) ==> banks[l] == b0[l]
  }

  lemma CoversArmPreview(banks: Banks, b0: Banks, r: Record, quad: u16, reg: u16, applied: u16)
    requires Covers(banks, b0, r) && PreviewQuiet(banks, b0, r)
    requires IsLoc(Loc(quad, reg)) && (r.sourceRestoreRequired ==> Loc(quad, reg) != SourceLoc(r))
    ensures Covers(banks, b0, WithPreview(r, quad, reg, b0[Loc(quad, reg)], applied))
    ensures Covers(banks[Loc(quad, reg) := applied], b0, WithPreview(r, quad, reg, b0[Loc(quad, reg)], applied))
    ensures Covers(banks, b0, WithoutPreview(r))
  {
  }

  /** A pending preview whose register already holds the original can be dropped. */
  lemma CoversDropPreview(banks: Banks, b0: Banks, r: Record)
    requires Covers(banks, b0, r)
    requires r.previewRestoreRequired ==> banks[PreviewLoc(r)] == b0[PreviewLoc(r)]
    ensures Covers(banks, b0, WithoutPreview(r))
  {
  }

  datatype PreviewResult = PreviewResult(
    admission: Admission, passed: bool, original: u16, active: bool, restoreVerified: bool,
    evidence: Evidence, paused: bool, resumed: bool)

  function Untried(admission: Admission): PreviewResult {
    PreviewResult(admission, false, 0, false, false, UNTRIED, false, false)
  }

  predicate PreviewAllowed(running: bool, path: string, quad: nat, reg: nat) {
    FindSetting(reg).Some? && quad < QUAD_COUNT && running && path != ""
  }

  /** The coupled register of the same quad, if there is one, tolerates the value. */
  ghost predicate DependencyMet(banks: Banks, quad: nat, reg: nat, value: u16) {
    FindSetting(reg).Some? && FindSetting(reg).value.dependencyRule != NoRule ==>
      var l := Loc(quad, FindSetting(reg).value.dependencyRegister);
      l in banks && DependencySatisfied(FindSetting(reg).value, value, banks[l])
  }

  /** The dependency of a setting, read live, allows the requested value. */
  method DependencyAllows(w: World, reg: u16, value: u16) returns (r: Step<bool>)
    requires w.selector < QUAD_COUNT && Complete(w.banks)
    modifies w`trace, w`faulty, w`refusals, w`clock
    ensures old(w.trace) <= w.trace && NoWrites(w.trace[|old(w.trace)|..])
    ensures old(w.faulty) ==> w.faulty
    ensures !w.faulty ==> r == Done(DependencyMet(w.banks, w.selector, reg, value))
    ensures r == Done(true) ==> DependencyMet(w.banks, w.selector, reg, value) && w.refusals == old(w.refusals)
    ensures w.clock >= old(w.clock)
    ensures w.Harmless() ==> w.faulty == old(w.faulty)
  {
    var found := FindSetting(reg);
    if found.None? || found.value.dependencyRule == NoRule { return Done(true); }
    var setting := found.value;
    var dependency :- w.ReadVme(w.base + setting.dependencyRegister);
    r := Done(dependency.Some? && DependencySatisfied(setting, value, dependency.value));
  }

  /** Session and journal hold the same armed preview entry for a location of its own, and the
      location holds the original or the applied value. */
  ghost predicate Armed(w: World, s: Session, quad: u16, reg: u16, original: u16, applied: u16, b0: Banks)
    reads w`banks, w`journal, s`record
  {
    && IsLoc(Loc(quad, reg)) && Covers(w.banks, b0, s.record) && w.journal == Some(s.record)
    && s.record.previewRestoreRequired && PreviewLoc(s.record) == Loc(quad, reg)
    && s.record.previewOriginal == original == b0[Loc(quad, reg)] && s.record.previewApplied == applied
    && PreviewQuiet(w.banks[Loc(quad, reg) := original], b0, s.record)
    && (s.record.sourceRestoreRequired ==> SourceLoc(s.record) != Loc(quad, reg))
  }

  /** An armed location may move between its original and its applied value. */
  lemma ArmedEitherWay(banks: Banks, b0: Banks, r: Record, value: u16)
    requires Covers(banks, b0, r) && r.previewRestoreRequired
    requires PreviewQuiet(banks[PreviewLoc(r) := r.previewOriginal], b0, r)
    requires value == r.previewOriginal || value == r.previewApplied
    ensures Covers(banks[PreviewLoc(r) := value], b0, r)
    ensures banks[PreviewLoc(r) := value][PreviewLoc(r) := r.previewOriginal] == banks[PreviewLoc(r) := r.previewOriginal]
  {
  }

  /** When an armed preview, written from time `t` on, ends with the register at its applied value and no
      journal entry for it: the write takes effect without being read back, the rollback does not take
      effect, the process survives to the drop, and the drop is installed. */
  predicate LosesEntry(o: Adversary, t: nat, base: nat, armed: Record) {
    var address := base + armed.previewRegister;
    var write := FateOfWrite(o, t, address, armed.previewApplied);
    var rollback := FateOfWrite(o, write.end, address, armed.previewOriginal);
    var park := o(rollback.end, StoreVme(base + SELECTOR_REGISTER, 0));
    var drop := o(rollback.end + 1, SaveJournal(WithoutPreview(armed)));
    && write.wrote && !write.read && !write.crashed
    && !rollback.wrote && !rollback.crashed
    && !park.crash
    && (drop.reported || drop.effective)
  }

  /** The same for an apply that arms its entry at time `t`. */
  predicate GapOpens(o: Adversary, t: nat, base: nat, armed: Record) {
    var arm := o(t, SaveJournal(armed));
    arm.reported && !arm.crash && LosesEntry(o, t + 1, base, armed)
  }

  /** The write of an armed preview, with its rollback when the write is not confirmed. */
  method WriteArmed(w: World, s: Session, quad: u16, reg: u16, original: u16, requested: u16, ghost b0: Banks)
    returns (r: Step<Evidence>)
    requires Armed(w, s, quad, reg, original, requested, b0) && w.selector == quad
    requires w.banks[Loc(quad, reg)] == original != requested
    modifies w`selector, w`banks, w`vme, w`trace, w`sent, w`faulty, w`refusals, w`clock
    ensures Armed(w, s, quad, reg, original, requested, b0)
    ensures old(w.faulty) ==> w.faulty
    ensures !w.faulty ==> r == Done(Evidence(true, true, false))
    ensures r.Done? ==> r.value.attempted && r.value.WellFormed()
    ensures r.Done? ==> r.value.Possible(original, requested, w.banks[Loc(quad, reg)])
    ensures var write := FateOfWrite(w.adversary, old(w.clock), w.base + reg, requested);
            var rollback := FateOfWrite(w.adversary, write.end, w.base + reg, original);
            var verified := write.wrote && write.read;
            && (r.Crashed? <==> write.crashed || (!verified && rollback.crashed))
            && (r.Done? ==> r.value.verified == verified && w.clock == if verified then write.end else rollback.end)
            && (r.Done? && !verified ==> (w.banks[Loc(quad, reg)] == requested <==> write.wrote && !rollback.wrote))
            && (r.Done? && !verified ==> r.value.rolledBack == (rollback.read && w.banks[Loc(quad, reg)] == original))
    ensures r.Done? && r.value.verified ==>
              w.banks == old(w.banks)[Loc(quad, reg) := requested] && w.sent == old(w.sent) + [SentVme(w.base + reg, requested)] && w.refusals == old(w.refusals)
  {
    ArmedEitherWay(w.banks, b0, s.record, requested);
    ArmedEitherWay(w.banks, b0, s.record, original);
    var verified :- WriteBanked(w, quad, reg, requested);
    var ev := Evidence(true, verified, false);
    if !verified {
      ArmedEitherWay(w.banks, b0, s.record, original);
      var rolledBack :- WriteBanked(w, quad, reg, original);
      ev := Evidence(true, false, rolledBack);
    }
    r := Done(ev);
  }

  const UNTRIED: Evidence := Evidence(false, false, false)

  datatype Applied = Applied(armed: bool, parked: bool, saved: bool, evidence: Evidence)

  /** The register holds the applied value and the record does not say so. */
  lemma UnrecordedPreview(banks: Banks, b0: Banks, armed: Record)
    requires Covers(banks, b0, armed) && armed.previewRestoreRequired && armed.previewApplied != armed.previewOriginal
    requires PreviewQuiet(banks[PreviewLoc(armed) := armed.previewOriginal], b0, armed)
    ensures Covers(banks, b0, WithoutPreview(armed)) <==> banks[PreviewLoc(armed)] == armed.previewOriginal
  {
    assert Covers(banks, b0, WithoutPreview(armed)) ==> AccountedFor(banks, b0, WithoutPreview(armed), PreviewLoc(armed));
  }

  /** Park, and drop the entry again when the code treats the preview as inactive. */
  method FinishApply(w: World, s: Session, quad: u16, reg: u16, original: u16, requested: u16, ev: Evidence, ghost b0: Banks)
    returns (r: Step<Applied>)
    requires Safe(w, s, b0) && Armed(w, s, quad, reg, original, requested, b0) && original != requested
    requires ev.attempted && ev.WellFormed() && ev.Possible(original, requested, w.banks[Loc(quad, reg)])
    modifies w`selector, w`banks, w`vme, w`trace, w`sent, w`journal, s`record, w`faulty, w`refusals, w`clock
    ensures w.banks == old(w.banks)
    ensures s.record == old(s.record) || (!ev.verified && s.record == WithoutPreview(old(s.record)))
    ensures old(w.faulty) ==> w.faulty
    ensures !w.faulty ==> r == Done(Applied(true, true, true, ev))
    ensures r.Done? ==> r.value.armed && r.value.evidence == ev
    ensures ev.verified ==> w.journal == old(w.journal) && (r.Done? ==> r.value.saved)
    ensures r.Done? && r.value.parked ==> w.selector == 0 && w.sent == old(w.sent) + [SelectWrite(w.base, 0)]
    ensures r.Done? && r.value.parked && r.value.saved ==> w.refusals == old(w.refusals)
    ensures var park := w.adversary(old(w.clock), StoreVme(w.base + SELECTOR_REGISTER, 0));
            var drop := w.adversary(old(w.clock) + 1, SaveJournal(WithoutPreview(old(s.record))));
            var lost := !ev.verified && w.banks[Loc(quad, reg)] == requested && !park.crash && (drop.reported || drop.effective);
            (Safe(w, s, b0) <==> !lost) && (Journaled(w.banks, b0, w.journal) <==> !lost)
    ensures r.Done? && !ev.verified && w.banks[Loc(quad, reg)] == original ==> PreviewQuiet(w.banks, b0, s.record)
  {
    UnrecordedPreview(w.banks, b0, s.record);
    var parked :- SelectQuad(w, 0);
    var saved := true;
    if ev.TreatedAsInactive() { saved :- SaveSession(w, s, WithoutPreview(s.record)); }
    r := Done(Applied(true, parked, saved, ev));
  }

  /** The time at which an apply armed its entry, and the armed record. */
  datatype Arming = Arming(time: nat, record: Record) {
    predicate Lost(o: Adversary, base: nat) { GapOpens(o, time, base, record) }
  }

  predicate GapOpened(arming: Option<Arming>, o: Adversary, base: nat) { arming.Some? && arming.value.Lost(o, base) }

  /** Journal the preview before it can exist. */
  method ArmPreview(w: World, s: Session, quad: u16, reg: u16, original: u16, requested: u16, ghost b0: Banks)
    returns (r: Step<bool>)
    requires Safe(w, s, b0) && PreviewQuiet(w.banks, b0, s.record)
    requires IsLoc(Loc(quad, reg)) && SourceElsewhere(s.record, quad, reg) && original == w.banks[Loc(quad, reg)]
    modifies w`journal, s`record, w`faulty, w`refusals, w`clock
    ensures Safe(w, s, b0)
    ensures old(w.faulty) ==> w.faulty
    ensures !w.faulty ==> r == Done(true)
    ensures r == Done(true) ==>
              && s.record == WithPreview(old(s.record), quad, reg, original, requested)
              && Armed(w, s, quad, reg, original, requested, b0) && w.refusals == old(w.refusals)
    ensures r != Done(true) ==> s.record == old(s.record)
    ensures var f := w.adversary(old(w.clock), SaveJournal(WithPreview(old(s.record), quad, reg, original, requested)));
            w.clock == old(w.clock) + 1 && r == (if f.crash then Crashed else Done(f.reported))
  {
    CoversArmPreview(w.banks, b0, s.record, quad, reg, requested);
    r := SaveSession(w, s, WithPreview(s.record, quad, reg, original, requested));
  }

  /** Write, roll back if need be, park, and drop the entry again when the code treats the preview as
      inactive. */
  method ApplyArmed(w: World, s: Session, quad: u16, reg: u16, original: u16, requested: u16, ghost b0: Banks)
    returns (r: Step<Applied>)
    requires Safe(w, s, b0) && Armed(w, s, quad, reg, original, requested, b0) && w.selector == quad
    requires w.banks[Loc(quad, reg)] == original != requested
    modifies w`selector, w`banks, w`vme, w`trace, w`sent, w`journal, s`record, w`faulty, w`refusals, w`clock
    ensures Complete(w.banks)
    ensures s.record == old(s.record) || s.record == WithoutPreview(old(s.record))
    ensures old(w.faulty) ==> w.faulty
    ensures !w.faulty ==> r == Done(Applied(true, true, true, Evidence(true, true, false)))
    ensures var lost := LosesEntry(w.adversary, old(w.clock), w.base, old(s.record));
            (Safe(w, s, b0) <==> !lost) && (Journaled(w.banks, b0, w.journal) <==> !lost)
    ensures r.Done? ==> r.value.armed && r.value.evidence.attempted && r.value.evidence.WellFormed()
    ensures r.Done? ==> r.value.evidence.Possible(original, requested, w.banks[Loc(quad, reg)])
    ensures r.Done? && r.value.evidence.verified ==>
              && s.record == old(s.record) && w.journal == Some(s.record)
              && w.banks == old(w.banks)[Loc(quad, reg) := requested]
    ensures r.Done? && r.value.parked ==> w.selector == 0
    ensures r.Done? && r.value.parked && r.value.evidence.verified ==>
              w.sent == old(w.sent) + [SentVme(w.base + reg, requested), SelectWrite(w.base, 0)] && w.refusals == old(w.refusals)
    ensures r.Done? && !r.value.evidence.verified && w.banks[Loc(quad, reg)] == original ==> PreviewQuiet(w.banks, b0, s.record)
  {
    var ev :- WriteArmed(w, s, quad, reg, original, requested, b0);
    r := FinishApply(w, s, quad, reg, original, requested, ev, b0);
  }

  /** Arm and apply. The evidence survives if and only if the gap does not open. */
  method ApplySelected(w: World, s: Session, quad: u16, reg: u16, original: u16, requested: u16, ghost b0: Banks)
    returns (r: Step<Applied>, arming: Arming)
    requires Safe(w, s, b0) && PreviewQuiet(w.banks, b0, s.record) && w.selector == quad
    requires IsLoc(Loc(quad, reg)) && SourceElsewhere(s.record, quad, reg)
    requires original == w.banks[Loc(quad, reg)] != requested
    modifies w`selector, w`banks, w`vme, w`trace, w`sent, w`journal, s`record, w`faulty, w`refusals, w`clock
    ensures Complete(w.banks) && Complete(b0)
    ensures WithoutPreview(s.record) == WithoutPreview(old(s.record))
    ensures s.record != old(s.record) && s.record.previewRestoreRequired ==> PreviewLoc(s.record) == Loc(quad, reg)
    ensures old(w.faulty) ==> w.faulty
    ensures !w.faulty ==> r == Done(Applied(true, true, true, Evidence(true, true, false)))
    ensures arming == Arming(old(w.clock), WithPreview(old(s.record), quad, reg, original, requested))
    ensures r.Done? ==> r.value.armed == w.adversary(old(w.clock), SaveJournal(arming.record)).reported
    ensures r.Done? ==> if r.value.armed then r.value.evidence.attempted else r.value.evidence == UNTRIED
    ensures Safe(w, s, b0) <==> !arming.Lost(w.adversary, w.base)
    ensures Journaled(w.banks, b0, w.journal) <==> !arming.Lost(w.adversary, w.base)
    ensures r.Done? ==> r.value.evidence.WellFormed()
    ensures r.Done? && r.value.evidence.attempted ==>
              r.value.evidence.Possible(b0[Loc(quad, reg)], requested, w.banks[Loc(quad, reg)])
    ensures r.Done? && r.value.evidence.verified ==>
              && s.record == WithPreview(old(s.record), quad, reg, original, requested) && w.journal == Some(s.record)
              && w.banks == old(w.banks)[Loc(quad, reg) := requested]
    ensures r.Done? && r.value.parked ==> w.selector == 0
    ensures r.Done? && r.value.parked && r.value.evidence.verified ==>
              w.sent == old(w.sent) + [SentVme(w.base + reg, requested), SelectWrite(w.base, 0)] && w.refusals == old(w.refusals)
    ensures r.Done? && !r.value.evidence.verified && w.banks[Loc(quad, reg)] == original ==> PreviewQuiet(w.banks, b0, s.record)
  {
    arming := Arming(w.clock, WithPreview(s.record, quad, reg, original, requested));
    var armed :- ArmPreview(w, s, quad, reg, original, requested, b0);
    if armed {
      r := ApplyArmed(w, s, quad, reg, original, requested, b0);
      return;
    }
    var parked :- SelectQuad(w, 0);
    r := Done(Applied(false, parked, true, UNTRIED));
  }

  /** A preview that is live in every place: applied, journaled, recorded, and the selector parked. */
  ghost predicate PreviewLive(w: World, s: Session, before: Record, banks: Banks, l: Loc, requested: u16)
    requires IsLoc(l)
    reads w`selector, w`banks, w`journal, s`record
  {
    && l in banks && w.banks == banks[l := requested] && w.selector == 0
    && s.record == WithPreview(before, l.quad, l.reg, banks[l], requested) && w.journal == Some(s.record)
  }

  /** How an apply on one location ends: `current` is the register's value before, `evidence` is there once
      the transaction finished. Evidence is lost if and only if the gap opened; an active preview is
      journaled; a register back at its old value leaves nothing to restore. */
  ghost predicate ApplyEnds(w: World, s: Session, before: Record, l: Loc, current: u16, requested: u16,
                            arming: Option<Arming>, evidence: Option<Evidence>, b0: Banks)
    requires IsLoc(l)
    reads w`banks, w`journal, s`record
  {
    && Complete(w.banks) && Complete(b0)
    && WithoutPreview(s.record) == WithoutPreview(before)
    && (s.record != before && s.record.previewRestoreRequired ==> PreviewLoc(s.record) == l)
    && (arming.Some? ==> arming.value.record == WithPreview(before, l.quad, l.reg, current, requested))
    && (Safe(w, s, b0) <==> !GapOpened(arming, w.adversary, w.base))
    && (Journaled(w.banks, b0, w.journal) <==> !GapOpened(arming, w.adversary, w.base))
    && (evidence.Some? ==>
          && evidence.value.WellFormed()
          && (evidence.value.attempted ==> evidence.value.Possible(b0[l], requested, w.banks[l]))
          && (evidence.value.verified ==>
                s.record == WithPreview(before, l.quad, l.reg, current, requested))
          && (!evidence.value.verified && w.banks[l] == current ==> PreviewQuiet(w.banks, b0, s.record)))
  }

  function EvidenceIn(r: Step<Applied>): Option<Evidence> { if r.Done? then Some(r.value.evidence) else None }

  /** An apply goes ahead if its register was read, its value is new, its live dependency allows it, and nobody
      asked to stop. */
  method DecideApply(w: World, quad: u16, reg: u16, requested: u16, opening: Opening) returns (due: Step<bool>)
    requires IsLoc(Loc(quad, reg)) && Complete(w.banks) && (opening.selected ==> w.selector == quad)
    requires opening.current.Some? ==> opening.selected && opening.current.value == w.banks[Loc(quad, reg)]
    modifies w`trace, w`faulty, w`refusals, w`clock
    ensures old(w.faulty) ==> w.faulty
    ensures !w.faulty && opening.current.Some? ==>
              due == Done(requested != opening.current.value && DependencyMet(w.banks, quad, reg, requested))
    ensures due == Done(true) ==>
              && opening.current.Some? && requested != opening.current.value && DependencyMet(w.banks, quad, reg, requested)
              && w.clock > old(w.clock) && w.adversary(w.clock - 1, PollCancellation).reported && w.refusals == old(w.refusals)
    ensures w.Harmless() ==> w.faulty == old(w.faulty)
  {
    var allowed := false;
    if opening.current.Some? { allowed :- DependencyAllows(w, reg, requested); }
    var cancelled := w.Cancelled();
    due := Done(allowed && requested != opening.current.value && !cancelled);
  }

  /** The apply transaction once the quad is open. A selector that was never moved counts as parked. */
  method ApplyOpened(w: World, s: Session, quad: u16, reg: u16, requested: u16, opening: Opening, ghost b0: Banks)
    returns (r: Step<Applied>, arming: Option<Arming>)
    requires Safe(w, s, b0) && PreviewQuiet(w.banks, b0, s.record)
    requires IsLoc(Loc(quad, reg)) && SourceElsewhere(s.record, quad, reg)
    requires opening.selected ==> w.selector == quad
    requires opening.current.Some? ==> opening.selected && opening.current.value == w.banks[Loc(quad, reg)]
    modifies w`selector, w`banks, w`vme, w`trace, w`sent, w`journal, s`record, w`faulty, w`refusals, w`clock
    ensures old(w.faulty) ==> w.faulty
    ensures !w.faulty && opening.current.Some? ==>
              && r.Done? && r.value.parked
              && r.value.armed == r.value.evidence.verified && r.value.evidence.ConfigurationSafe()
              && (r.value.armed ==> r.value.saved)
              && (r.value.armed <==>
                    requested != old(w.banks)[Loc(quad, reg)] && DependencyMet(old(w.banks), quad, reg, requested))
    ensures (w.Harmless() && !old(w.faulty) && opening.current.Some?
             && requested != old(w.banks)[Loc(quad, reg)] && DependencyMet(old(w.banks), quad, reg, requested)) ==> arming.Some?
    ensures ApplyEnds(w, s, old(s.record), Loc(quad, reg), old(w.banks)[Loc(quad, reg)], requested, arming, EvidenceIn(r), b0)
    ensures r.Done? && r.value.evidence.verified ==>
              && opening.current.Some? && w.journal == Some(s.record)
              && w.banks == old(w.banks)[Loc(quad, reg) := requested]
    ensures r.Done? ==> if r.value.armed then r.value.evidence.attempted else r.value.evidence == UNTRIED
    ensures r.Done? && r.value.armed ==> arming.Some?
    ensures r.Done? && r.value.parked && opening.selected ==> w.selector == 0
    ensures r.Done? && r.value.parked && r.value.evidence.verified ==>
              w.sent == old(w.sent) + [SentVme(w.base + reg, requested), SelectWrite(w.base, 0)] && w.refusals == old(w.refusals)
  {
    arming := None;
    var due :- DecideApply(w, quad, reg, requested, opening);
    if due {
      var selected;
      r, selected := ApplySelected(w, s, quad, reg, opening.current.value, requested, b0);
      return r, Some(selected);
    }
    r := LeaveAlone(w, opening.selected);
  }

  /** Nothing is applied; the selector is parked if it was moved. */
  method LeaveAlone(w: World, selected: bool) returns (r: Step<Applied>)
    modifies w`selector, w`banks, w`vme, w`trace, w`sent, w`faulty, w`refusals, w`clock
    ensures w.banks == old(w.banks) && (old(w.faulty) ==> w.faulty)
    ensures !w.faulty ==> r == Done(Applied(false, true, false, UNTRIED))
    ensures r.Done? ==> !r.value.armed && r.value.evidence == UNTRIED
    ensures r.Done? && (selected ==> r.value.parked) ==> (selected ==> w.selector == 0) && r.value.parked
    ensures w.sent == old(w.sent) + if selected then [SelectWrite(w.base, 0)] else []
  {
    var parked := true;
    if selected { parked :- SelectQuad(w, 0); }
    r := Done(Applied(false, parked, false, UNTRIED));
  }

  /** Guards of an apply: known setting, valid quad and value, running session, owned crate. */
  method AdmitPreview(w: World, s: Session, quad: u16, reg: u16, requested: u16) returns (r: Step<Admission>)
    modifies w`trace, w`faulty, w`refusals, w`clock
    ensures old(w.trace) <= w.trace && NoWrites(w.trace[|old(w.trace)|..])
    ensures r == Done(Admitted) ==> IsLoc(Loc(quad, reg)) && w.refusals == old(w.refusals)
    ensures old(w.faulty) ==> w.faulty
    ensures !w.faulty && Owns(w, s) ==> r.Done? && (r.value == Admitted || r.value == Rejected)
    ensures w.Harmless() ==> w.faulty == old(w.faulty)
    ensures r == Done(Admitted) ==> Owns(w, s) && OwnershipRead(w.adversary, old(w.clock), s.plan, s.record)
    ensures r == Done(Rejected) <==> r.Done? && !(PreviewAllowed(s.running, s.journalPath, quad, reg) && ProfileValueAccepted(reg, requested))
  {
    if !PreviewAllowed(s.running, s.journalPath, quad, reg) { return Done(Rejected); }
    if !ValueAccepted(FindSetting(reg).value, requested) { return Done(Rejected); }
    var fingerprint :- VerifyOwnership(w, s.plan, s.record);
    r := Done(if fingerprint == Verified then Admitted else NotOwner(fingerprint));
  }

  /** Nothing has been applied yet, and nothing is lost. */
  lemma NothingApplied(w: World, s: Session, l: Loc, requested: u16, b0: Banks)
    requires Safe(w, s, b0) && PreviewQuiet(w.banks, b0, s.record) && IsLoc(l)
    ensures ApplyEnds(w, s, s.record, l, w.banks[l], requested, None, None, b0)
  {
  }

  lemma GuardedJoined(start: seq<Event>, base: nat, quad: u16, e: Event)
    ensures start + (PauseWrites(base) + [SelectWrite(base, quad)]) + [e, SelectWrite(base, 0)] == start + Guarded(base, quad, [e])
  {
  }

  datatype Opened = Opened(opening: Opening, applied: Applied)

  /** Open the quad and apply. */
  method OpenAndApply(w: World, s: Session, quad: u16, reg: u16, requested: u16, ghost b0: Banks)
    returns (r: Step<Opened>, arming: Option<Arming>)
    requires Safe(w, s, b0) && PreviewQuiet(w.banks, b0, s.record)
    requires IsLoc(Loc(quad, reg)) && SourceElsewhere(s.record, quad, reg)
    modifies w`selector, w`banks, w`vme, w`mvlc, w`trace, w`sent, w`journal, s`record, w`faulty, w`refusals, w`clock
    ensures old(w.faulty) ==> w.faulty
    ensures !w.faulty ==>
              && r.Done? && r.value.opening.paused && r.value.applied.parked && w.selector == 0
              && r.value.applied.armed == r.value.applied.evidence.verified && r.value.applied.evidence.ConfigurationSafe()
              && (r.value.applied.armed ==> r.value.applied.saved)
              && (r.value.applied.armed <==>
                    requested != old(w.banks)[Loc(quad, reg)] && DependencyMet(old(w.banks), quad, reg, requested))
    ensures (w.Harmless() && !old(w.faulty)
             && requested != old(w.banks)[Loc(quad, reg)] && DependencyMet(old(w.banks), quad, reg, requested)) ==> arming.Some?
    ensures ApplyEnds(w, s, old(s.record), Loc(quad, reg), old(w.banks)[Loc(quad, reg)], requested, arming,
                      if r.Done? then Some(r.value.applied.evidence) else None, b0)
    ensures r.Done? && r.value.applied.evidence.verified ==>
              r.value.opening.current == Some(old(w.banks)[Loc(quad, reg)])
    ensures r.Done? ==> if r.value.applied.armed then r.value.applied.evidence.attempted else r.value.applied.evidence == UNTRIED
    ensures r.Done? && r.value.applied.parked && r.value.applied.evidence.verified ==>
              && PreviewLive(w, s, old(s.record), old(w.banks), Loc(quad, reg), requested)
              && w.sent == old(w.sent) + Guarded(w.base, quad, [SentVme(w.base + reg, requested)]) && w.refusals == old(w.refusals)
  {
    arming := None;
    NothingApplied(w, s, Loc(quad, reg), requested, b0);
    var opening :- OpenQuad(w, quad, reg);
    var applied: Applied;
    applied, arming :- ApplyOpened(w, s, quad, reg, requested, opening, b0);
    GuardedJoined(old(w.sent), w.base, quad, SentVme(w.base + reg, requested));
    r := Done(Opened(opening, applied));
  }

  /** A crash after the transaction takes no evidence away. */
  lemma EndsEvenCut(w: World, s: Session, before: Record, l: Loc, current: u16, requested: u16,
                    arming: Option<Arming>, evidence: Evidence, b0: Banks)
    requires IsLoc(l) && ApplyEnds(w, s, before, l, current, requested, arming, Some(evidence), b0)
    ensures ApplyEnds(w, s, before, l, current, requested, arming, None, b0)
  {
  }

  /** Resume when that is safe, and report. */
  method ConcludeApply(w: World, o: Opened) returns (r: Step<PreviewResult>)
    modifies w`selector, w`banks, w`vme, w`mvlc, w`trace, w`sent, w`faulty, w`refusals, w`clock
    ensures w.banks == old(w.banks) && w.selector == old(w.selector) && (old(w.faulty) ==> w.faulty)
    ensures if o.opening.paused && o.applied.evidence.ConfigurationSafe() && o.applied.parked
            then old(w.sent) + ResumeWrites(w.base)[..1] <= w.sent else w.sent == old(w.sent)
    ensures !w.faulty ==>
              && r.Done?
              && (r.value.resumed ==> w.Value(w.base + ACQUISITION_CONTROL) == 1)
              && r.value.resumed == (o.opening.paused && o.applied.evidence.ConfigurationSafe() && o.applied.parked)
    ensures r.Done? ==>
              && r.value.admission == Admitted && r.value.evidence == o.applied.evidence
              && r.value.active == o.applied.evidence.verified
              && r.value.passed == (&& o.applied.armed && o.applied.saved && o.applied.parked
                                    && r.value.resumed && o.applied.evidence.verified)
              && r.value.original == (if o.opening.current.Some? then o.opening.current.value else 0)
              && r.value.paused == o.opening.paused && !r.value.restoreVerified
              && (r.value.resumed ==> LocalValue(w.mvlc, DAQ_MODE) % 2 == 1 && w.sent == old(w.sent) + ResumeWrites(w.base))
              && (r.value.resumed ==> w.refusals == old(w.refusals))
  {
    var applied := o.applied;
    var resumed :- ResumeIf(w, o.opening.paused && applied.evidence.ConfigurationSafe() && applied.parked);
    r := Done(PreviewResult(
      Admitted, applied.armed && applied.saved && applied.parked && resumed && applied.evidence.verified,
      if o.opening.current.Some? then o.opening.current.value else 0,
      applied.evidence.verified, false, applied.evidence, o.opening.paused, resumed));
  }

  /** The admitted apply: open the quad, apply, and resume when safe. */
  method TransactApply(w: World, s: Session, quad: u16, reg: u16, requested: u16, ghost b0: Banks)
    returns (r: Step<PreviewResult>, arming: Option<Arming>)
    requires Safe(w, s, b0) && PreviewQuiet(w.banks, b0, s.record)
    requires IsLoc(Loc(quad, reg)) && SourceElsewhere(s.record, quad, reg)
    modifies w`selector, w`banks, w`vme, w`mvlc, w`trace, w`sent, w`journal, s`record, w`faulty, w`refusals, w`clock
    ensures old(w.faulty) ==> w.faulty
    ensures !w.faulty ==>
              r.Done? && (r.value.passed <==>
                            requested != old(w.banks)[Loc(quad, reg)] && DependencyMet(old(w.banks), quad, reg, requested))
    ensures (w.Harmless() && !old(w.faulty)
             && requested != old(w.banks)[Loc(quad, reg)] && DependencyMet(old(w.banks), quad, reg, requested)) ==> arming.Some?
    ensures ApplyEnds(w, s, old(s.record), Loc(quad, reg), old(w.banks)[Loc(quad, reg)], requested, arming,
                      if r.Done? then Some(r.value.evidence) else None, b0)
    ensures r.Done? ==> r.value.admission == Admitted && r.value.active == r.value.evidence.verified
    ensures r.Done? && r.value.active ==> r.value.original == old(w.banks)[Loc(quad, reg)]
    ensures r.Done? && r.value.resumed ==> LocalValue(w.mvlc, DAQ_MODE) % 2 == 1
    ensures !w.faulty ==> r.Done? && r.value.resumed && w.selector == 0 && w.Value(w.base + ACQUISITION_CONTROL) == 1
    ensures r.Done? && r.value.passed ==>
              && PreviewLive(w, s, old(s.record), old(w.banks), Loc(quad, reg), requested)
              && r.value.active && r.value.original == old(w.banks)[Loc(quad, reg)]
              && w.sent == old(w.sent) + Guarded(w.base, quad, [SentVme(w.base + reg, requested)]) + ResumeWrites(w.base) && w.refusals == old(w.refusals)
  {
    var o: Opened;
    o, arming :- OpenAndApply(w, s, quad, reg, requested, b0);
    r := ConcludeApply(w, o);
    EndsEvenCut(w, s, old(s.record), Loc(quad, reg), old(w.banks)[Loc(quad, reg)], requested, arming, o.applied.evidence, b0);
  }

  /** ApplyDiagnosticParameterPreview. Whatever fails and wherever it crashes, session and journal keep
      accounting for every deviation if and only if the gap does not open. */
  method ApplyPreview(w: World, s: Session, quad: u16, reg: u16, requested: u16, ghost b0: Banks)
    returns (r: Step<PreviewResult>, arming: Option<Arming>)
    requires Safe(w, s, b0) && PreviewQuiet(w.banks, b0, s.record) && SourceElsewhere(s.record, quad, reg)
    modifies w`selector, w`banks, w`vme, w`mvlc, w`trace, w`sent, w`journal, s`record, w`faulty, w`refusals, w`clock
    ensures Complete(w.banks) && Complete(b0)
    ensures WithoutPreview(s.record) == WithoutPreview(old(s.record))
    ensures s.record != old(s.record) && s.record.previewRestoreRequired ==> PreviewLoc(s.record) == Loc(quad, reg)
    ensures old(w.faulty) ==> w.faulty
    ensures r.Done? ==> (r.value.admission == Rejected <==>
                           !(PreviewAllowed(s.running, s.journalPath, quad, reg) && ProfileValueAccepted(reg, requested)))
    ensures !w.faulty && old(Owns(w, s)) ==>
              r.Done? && (r.value.passed <==> ApplyDue(old(w.banks), s, quad, reg, requested))
    ensures (w.Harmless() && !old(w.faulty) && old(Owns(w, s)) && ApplyDue(old(w.banks), s, quad, reg, requested)) ==> arming.Some?
    ensures arming.Some? ==>
              && IsLoc(Loc(quad, reg))
              && arming.value.record == WithPreview(old(s.record), quad, reg, old(w.banks)[Loc(quad, reg)], requested)
    ensures w.sent != old(w.sent) || w.journal != old(w.journal) || (r.Done? && r.value.admission == Admitted) ==>
              old(Owns(w, s)) && OwnershipRead(w.adversary, old(w.clock), s.plan, old(s.record))
    ensures Safe(w, s, b0) <==> !GapOpened(arming, w.adversary, w.base)
    ensures Journaled(w.banks, b0, w.journal) <==> !GapOpened(arming, w.adversary, w.base)
    ensures r.Done? ==> r.value.evidence.WellFormed() && r.value.active == r.value.evidence.verified
    ensures r.Done? && r.value.active ==>
              && s.record.previewRestoreRequired && PreviewLoc(s.record) == Loc(quad, reg)
              && s.record.previewOriginal == r.value.original && s.record.previewApplied == requested
    ensures r.Done? && !r.value.active && (IsLoc(Loc(quad, reg)) ==> w.banks[Loc(quad, reg)] == old(w.banks)[Loc(quad, reg)]) ==>
              PreviewQuiet(w.banks, b0, s.record)
    ensures r.Done? && r.value.evidence.attempted ==>
              IsLoc(Loc(quad, reg)) && r.value.evidence.Possible(b0[Loc(quad, reg)], requested, w.banks[Loc(quad, reg)])
    ensures r.Done? && r.value.resumed ==> LocalValue(w.mvlc, DAQ_MODE) % 2 == 1
    ensures !w.faulty && r.Done? && r.value.admission == Admitted ==>
              r.value.resumed && w.selector == 0 && w.Value(w.base + ACQUISITION_CONTROL) == 1
    ensures r.Done? && r.value.passed ==>
              && IsLoc(Loc(quad, reg)) && PreviewLive(w, s, old(s.record), old(w.banks), Loc(quad, reg), requested)
              && r.value.active && r.value.original == old(w.banks)[Loc(quad, reg)]
              && w.sent == old(w.sent) + Guarded(w.base, quad, [SentVme(w.base + reg, requested)]) + ResumeWrites(w.base) && w.refusals == old(w.refusals)
    ensures r.Done? && r.value.admission != Admitted ==>
              && old(w.trace) <= w.trace && NoWrites(w.trace[|old(w.trace)|..]) && w.sent == old(w.sent)
              && w.banks == old(w.banks) && w.journal == old(w.journal) && s.record == old(s.record)
  {
    arming := None;
    var admission :- AdmitPreview(w, s, quad, reg, requested);
    if admission != Admitted { return Done(Untried(admission)), None; }
    r, arming := TransactApply(w, s, quad, reg, requested, b0);
  }

  /** An apply that has something to do and is allowed to. */
  ghost predicate ApplyDue(banks: Banks, s: Session, quad: u16, reg: u16, requested: u16)
    reads s`running
  {
    && PreviewAllowed(s.running, s.journalPath, quad, reg) && ProfileValueAccepted(reg, requested)
    && Loc(quad, reg) in banks && requested != banks[Loc(quad, reg)] && DependencyMet(banks, quad, reg, requested)
  }

  /** An adversary that opens the gap: the preview write takes effect but is reported failed, the rollback is
      reported failed and does nothing, everything else goes well. */
  function Spite(address: nat, original: u16, requested: u16): Adversary {
    (t, q) => if q == StoreVme(address, requested) then Fate(false, true, false)
              else if q == StoreVme(address, original) then Fate(false, false, false)
              else Fate(true, true, false)
  }

  lemma SpiteOpensGap(w: World, t: nat, armed: Record)
    requires w.adversary == Spite(w.base + armed.previewRegister, armed.previewOriginal, armed.previewApplied)
    requires IsSetting(armed.previewRegister) && armed.previewOriginal != armed.previewApplied
    ensures w.Harmless() && GapOpens(w.adversary, t, w.base, armed)
  {
  }

  /** Against that adversary every apply that is due loses its entry: the register holds the applied value
      and the journal has no trace of it. */
  method LoseAnEntry(w: World, s: Session, quad: u16, reg: u16, requested: u16, ghost b0: Banks)
    returns (r: Step<PreviewResult>)
    requires Safe(w, s, b0) && PreviewQuiet(w.banks, b0, s.record) && SourceElsewhere(s.record, quad, reg)
    requires !w.faulty && Owns(w, s) && ApplyDue(w.banks, s, quad, reg, requested)
    requires w.adversary == Spite(w.base + reg, w.banks[Loc(quad, reg)], requested)
    modifies w`selector, w`banks, w`vme, w`mvlc, w`trace, w`sent, w`journal, s`record, w`faulty, w`refusals, w`clock
    ensures !Journaled(w.banks, b0, w.journal)
  {
    ghost var armed := WithPreview(s.record, quad, reg, w.banks[Loc(quad, reg)], requested);
    forall t: nat ensures w.Harmless() && GapOpens(w.adversary, t, w.base, armed) { SpiteOpensGap(w, t, armed); }
    var arming;
    r, arming := ApplyPreview(w, s, quad, reg, requested, b0);
  }

  /** A preview that is gone from every place: original back, entry dropped, and the selector parked. */
  ghost predicate PreviewGone(w: World, s: Session, before: Record, banks: Banks)
    reads w`selector, w`banks, w`journal, s`record
  {
    && PreviewLoc(before) in banks && banks[PreviewLoc(before)] == before.previewApplied
    && w.banks == banks[PreviewLoc(before) := before.previewOriginal] && w.selector == 0
    && s.record == WithoutPreview(before) && w.journal == Some(s.record)
  }

  /** RestoreDiagnosticParameterPreview: restores only when the register still holds the applied
      value, and drops the pending entry only after the original is read back. */
  method RestorePreview(w: World, s: Session, quad: u16, reg: u16, original: u16, applied: u16,
                        resumeAfter: bool, automatic: bool, ghost b0: Banks)
    returns (r: Step<PreviewResult>)
    requires Safe(w, s, b0)
    requires s.record.previewRestoreRequired && PreviewLoc(s.record) == Loc(quad, reg)
    requires s.record.previewOriginal == original && s.record.previewApplied == applied
    modifies w`selector, w`banks, w`vme, w`mvlc, w`trace, w`sent, w`journal, s`record, w`faulty, w`refusals, w`clock
    ensures Safe(w, s, b0)
    ensures old(w.faulty) ==> w.faulty
    ensures !w.faulty && old(Owns(w, s)) && PreviewAllowed(s.running, s.journalPath, quad, reg) ==>
              r.Done? && (r.value.passed <==> old(w.banks)[Loc(quad, reg)] == applied)
    ensures r.Done? ==> (r.value.admission == Rejected <==> !PreviewAllowed(s.running, s.journalPath, quad, reg))
    ensures w.sent != old(w.sent) || w.journal != old(w.journal) || (r.Done? && r.value.admission == Admitted) ==>
              old(Owns(w, s)) && OwnershipRead(w.adversary, old(w.clock), s.plan, old(s.record))
    ensures s.record == old(s.record) || s.record == WithoutPreview(old(s.record))
    ensures r.Done? && r.value.active ==> s.record == old(s.record)
    ensures r.Done? && !r.value.active ==> PreviewQuiet(w.banks, b0, s.record)
    ensures r.Done? && r.value.passed ==> !s.record.previewRestoreRequired && PreviewQuiet(w.banks, b0, s.record)
    ensures r.Done? && r.value.passed ==>
              && (resumeAfter ==> r.value.resumed) && PreviewGone(w, s, old(s.record), old(w.banks))
              && w.sent == old(w.sent) + RestoreParameterWrites(w.base, old(s.record), resumeAfter)
              && w.refusals == old(w.refusals)
    ensures r.Done? && r.value.resumed ==> LocalValue(w.mvlc, DAQ_MODE) % 2 == 1
    ensures !w.faulty && r.Done? && r.value.admission == Admitted ==>
              && w.selector == 0 && r.value.resumed == resumeAfter
              && (r.value.resumed ==> w.Value(w.base + ACQUISITION_CONTROL) == 1)
    ensures r.Done? && r.value.admission != Admitted ==>
              && old(w.trace) <= w.trace && NoWrites(w.trace[|old(w.trace)|..]) && w.sent == old(w.sent)
              && w.banks == old(w.banks) && w.journal == old(w.journal) && s.record == old(s.record)
  {
    var pending := Untried(Rejected).(active := true, original := original);
    if !PreviewAllowed(s.running, s.journalPath, quad, reg) { return Done(pending); }
    var fingerprint :- VerifyOwnership(w, s.plan, s.record);
    if fingerprint != Verified { return Done(pending.(admission := NotOwner(fingerprint))); }
    r := AdmittedRestore(w, s, original, applied, resumeAfter, automatic, b0);
  }

  /** The admitted restore: transact, resume when that is wanted and safe. */
  method AdmittedRestore(w: World, s: Session, original: u16, applied: u16, resumeAfter: bool, automatic: bool, ghost b0: Banks)
    returns (r: Step<PreviewResult>)
    requires Safe(w, s, b0)
    requires s.record.previewRestoreRequired && s.record.previewOriginal == original && s.record.previewApplied == applied
    modifies w`selector, w`banks, w`vme, w`mvlc, w`trace, w`sent, w`journal, s`record, w`faulty, w`refusals, w`clock
    ensures Safe(w, s, b0)
    ensures old(w.faulty) ==> w.faulty
    ensures !w.faulty ==>
              && r.Done? && w.selector == 0 && r.value.resumed == resumeAfter
              && (r.value.passed <==> old(w.banks)[PreviewLoc(old(s.record))] == applied)
              && (r.value.resumed ==> w.Value(w.base + ACQUISITION_CONTROL) == 1)
    ensures s.record == old(s.record) || s.record == WithoutPreview(old(s.record))
    ensures r.Done? ==> r.value.admission == Admitted && r.value.original == original
    ensures r.Done? && r.value.active ==> s.record == old(s.record)
    ensures r.Done? && !r.value.active ==> PreviewQuiet(w.banks, b0, s.record)
    ensures r.Done? && r.value.passed ==>
              && !r.value.active && (resumeAfter ==> r.value.resumed) && PreviewGone(w, s, old(s.record), old(w.banks))
              && w.sent == old(w.sent) + RestoreParameterWrites(w.base, old(s.record), resumeAfter)
              && w.refusals == old(w.refusals)
    ensures r.Done? && r.value.resumed ==> LocalValue(w.mvlc, DAQ_MODE) % 2 == 1
  {
    var transacted :- TransactRestore(w, s, original, applied, automatic, b0);
    r := ConcludeRestore(w, transacted.0, transacted.1, original, resumeAfter);
  }

  /** What a passed restore sends. */
  function RestoreParameterWrites(base: nat, r: Record, resumeAfter: bool): seq<Event> {
    Guarded(base, r.previewQuad, [SentVme(base + r.previewRegister, r.previewOriginal)])
    + if resumeAfter then ResumeWrites(base) else []
  }

  /** Resume when that is wanted and safe, and report. */
  method ConcludeRestore(w: World, opening: Opening, end: Restoration, original: u16, resumeAfter: bool) returns (r: Step<PreviewResult>)
    modifies w`selector, w`banks, w`vme, w`mvlc, w`trace, w`sent, w`faulty, w`refusals, w`clock
    ensures w.banks == old(w.banks) && w.selector == old(w.selector) && (old(w.faulty) ==> w.faulty)
    ensures if resumeAfter && opening.paused && (!end.attempted || end.verified) && end.parked
            then old(w.sent) + ResumeWrites(w.base)[..1] <= w.sent else w.sent == old(w.sent)
    ensures !w.faulty ==>
              && r.Done?
              && r.value.resumed == (resumeAfter && opening.paused && (!end.attempted || end.verified) && end.parked)
              && (r.value.resumed ==> w.Value(w.base + ACQUISITION_CONTROL) == 1)
    ensures r.Done? ==>
              && r.value.admission == Admitted && r.value.original == original && r.value.active == !end.verified
              && r.value.restoreVerified == end.verified && r.value.paused == opening.paused
              && r.value.passed == (end.dropped && end.parked && (!resumeAfter || r.value.resumed))
              && (r.value.resumed ==> LocalValue(w.mvlc, DAQ_MODE) % 2 == 1)
    ensures r.Done? && (r.value.resumed || !resumeAfter) ==>
              w.sent == old(w.sent) + (if resumeAfter then ResumeWrites(w.base) else []) && w.refusals == old(w.refusals)
  {
    var resumed :- ResumeIf(w, resumeAfter && opening.paused && (!end.attempted || end.verified) && end.parked);
    r := Done(PreviewResult(
      Admitted, end.dropped && end.parked && (!resumeAfter || resumed), original, !end.verified, end.verified,
      UNTRIED, opening.paused, resumed));
  }

  /** Open the quad of the pending preview, and restore. */
  method TransactRestore(w: World, s: Session, original: u16, applied: u16, automatic: bool, ghost b0: Banks)
    returns (r: Step<(Opening, Restoration)>)
    requires Safe(w, s, b0)
    requires s.record.previewRestoreRequired && s.record.previewOriginal == original && s.record.previewApplied == applied
    modifies w`selector, w`banks, w`vme, w`mvlc, w`trace, w`sent, w`journal, s`record, w`faulty, w`refusals, w`clock
    ensures Safe(w, s, b0)
    ensures old(w.faulty) ==> w.faulty
    ensures !w.faulty ==>
              && r.Done? && r.value.0.paused && r.value.1.parked && w.selector == 0
              && r.value.1.attempted == r.value.1.verified == r.value.1.dropped
              && r.value.1.verified == (old(w.banks)[PreviewLoc(old(s.record))] == applied)
    ensures s.record == old(s.record) || s.record == WithoutPreview(old(s.record))
    ensures r.Done? && !r.value.1.verified ==> s.record == old(s.record)
    ensures r.Done? && r.value.1.verified ==> PreviewQuiet(w.banks, b0, s.record)
    ensures r.Done? && r.value.1.dropped && r.value.1.parked ==>
              && r.value.1.verified && PreviewGone(w, s, old(s.record), old(w.banks))
              && w.sent == old(w.sent)
                           + Guarded(w.base, old(s.record).previewQuad, [SentVme(w.base + old(s.record).previewRegister, original)])
              && w.refusals == old(w.refusals)
  {
    var opening :- OpenQuad(w, s.record.previewQuad, s.record.previewRegister);
    GuardedJoined(old(w.sent), w.base, s.record.previewQuad, SentVme(w.base + s.record.previewRegister, original));
    var end :- RestoreOpened(w, s, original, applied, opening, automatic, b0);
    r := Done((opening, end));
  }

  /** Drop the preview entry once its register holds the original again. */
  method DropPreview(w: World, s: Session, ghost b0: Banks) returns (r: Step<bool>)
    requires Safe(w, s, b0)
    requires s.record.previewRestoreRequired ==> w.banks[PreviewLoc(s.record)] == b0[PreviewLoc(s.record)]
    modifies w`journal, w`faulty, w`refusals, w`clock, s`record
    ensures Safe(w, s, b0)
    ensures old(w.faulty) ==> w.faulty
    ensures !w.faulty ==> r == Done(true)
    ensures s.record == old(s.record) || s.record == WithoutPreview(old(s.record))
    ensures r == Done(true) ==> s.record == WithoutPreview(old(s.record)) && w.journal == Some(s.record) && w.refusals == old(w.refusals)
  {
    CoversDropPreview(w.banks, b0, s.record);
    r := SaveSession(w, s, WithoutPreview(s.record));
  }

  datatype Restoration = Restoration(attempted: bool, verified: bool, parked: bool, dropped: bool)

  /** The restore transaction once the quad is open. */
  method RestoreOpened(w: World, s: Session, original: u16, applied: u16, opening: Opening, automatic: bool, ghost b0: Banks)
    returns (r: Step<Restoration>)
    requires Safe(w, s, b0)
    requires s.record.previewRestoreRequired && s.record.previewOriginal == original && s.record.previewApplied == applied
    requires opening.selected ==> w.selector == s.record.previewQuad
    requires opening.current.Some? ==> opening.selected && opening.current.value == w.banks[PreviewLoc(s.record)]
    modifies w`selector, w`banks, w`vme, w`trace, w`sent, w`journal, s`record, w`faulty, w`refusals, w`clock
    ensures Safe(w, s, b0)
    ensures old(w.faulty) ==> w.faulty
    ensures !w.faulty && opening.current.Some? ==>
              && r.Done? && r.value.parked
              && r.value.attempted == r.value.verified == r.value.dropped == (opening.current.value == applied)
    ensures s.record == old(s.record) || s.record == WithoutPreview(old(s.record))
    ensures r.Done? && !r.value.verified ==> s.record == old(s.record)
    ensures r.Done? && r.value.verified ==> PreviewQuiet(w.banks, b0, s.record)
    ensures r.Done? && r.value.dropped ==> r.value.verified && !s.record.previewRestoreRequired
    ensures r.Done? && r.value.verified ==> opening.current == Some(applied)
    ensures r.Done? && r.value.parked && opening.selected ==> w.selector == 0
    ensures r.Done? && !opening.selected ==> r.value.parked
    ensures r.Done? && r.value.dropped && r.value.parked ==>
              && PreviewGone(w, s, old(s.record), old(w.banks))
              && w.sent == old(w.sent) + [SentVme(w.base + old(s.record).previewRegister, original), SelectWrite(w.base, 0)] && w.refusals == old(w.refusals)
  {
    var tried :- WriteBack(w, s, original, applied, opening, automatic, b0);
    var end := Restoration(tried.0, tried.1, true, false);
    if opening.selected {
      var parked :- SelectQuad(w, 0);
      end := end.(parked := parked);
    }
    if end.verified {
      var dropped :- DropPreview(w, s, b0);
      end := end.(dropped := dropped);
    }
    r := Done(end);
  }

  /** Write the original over the applied value, if that is what the register holds: (attempted, verified). */
  method WriteBack(w: World, s: Session, original: u16, applied: u16, opening: Opening, automatic: bool, ghost b0: Banks)
    returns (r: Step<(bool, bool)>)
    requires Safe(w, s, b0)
    requires s.record.previewRestoreRequired && s.record.previewOriginal == original && s.record.previewApplied == applied
    requires opening.selected ==> w.selector == s.record.previewQuad
    requires opening.current.Some? ==> opening.selected && opening.current.value == w.banks[PreviewLoc(s.record)]
    modifies w`selector, w`banks, w`vme, w`trace, w`sent, w`faulty, w`refusals, w`clock
    ensures Safe(w, s, b0)
    ensures old(w.faulty) ==> w.faulty
    ensures !w.faulty && opening.current.Some? ==> r == Done((opening.current.value == applied, opening.current.value == applied))
    ensures !automatic && !w.adversary(old(w.clock), PollCancellation).reported ==> r == Done((false, false)) && w.sent == old(w.sent)
    ensures r.Done? && !r.value.0 ==> !r.value.1 && w.sent == old(w.sent)
    ensures r.Done? && r.value.0 ==> opening.current == Some(applied)
    ensures r.Done? && r.value.1 ==>
              && r.value.0 && opening.current == Some(applied) && PreviewQuiet(w.banks, b0, s.record)
              && w.banks == old(w.banks)[PreviewLoc(s.record) := original]
              && w.sent == old(w.sent) + [SentVme(w.base + s.record.previewRegister, original)] && w.refusals == old(w.refusals)
  {
    var cancelled := w.Cancelled();
    if opening.current.None? || opening.current.value != applied || (cancelled && !automatic) { return Done((false, false)); }
    RestoredIsQuiet(w.banks, b0, s.record);
    RestoringKeepsCover(w.banks, b0, w.journal, s.record, PreviewLoc(s.record));
    var verified :- WriteBanked(w, s.record.previewQuad, s.record.previewRegister, original);
    r := Done((true, verified));
  }

  /** Putting the journaled original back leaves nothing but the source location deviating. */
  lemma RestoredIsQuiet(banks: Banks, b0: Banks, r: Record)
    requires Covers(banks, b0, r) && r.previewRestoreRequired
    ensures PreviewQuiet(banks[PreviewLoc(r) := r.previewOriginal], b0, r)
    ensures Covers(banks[PreviewLoc(r) := r.previewOriginal], b0, r)
  {
  }
}
