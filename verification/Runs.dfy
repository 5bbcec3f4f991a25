/** Whole runs: any sequence of operator commands, cut short anywhere by crashes, with recovery
    attempts in between. */
module Runs {
  import opened Words
  import opened ScpRegistry
  import opened RecoveryRecord
  import opened Crate
  import opened Fingerprint
  import opened Source
  import opened Preview
  import opened Stop
  import opened Recovery

  datatype Command =
    | Begin(record: Record, plan: ReadoutPlan, path: string)
    | Change(quad: u16, source: nat)
    | RestoreWaveformSource(alreadyVerified: bool)
    | Apply(quad: u16, reg: u16, value: u16)
    | RestoreParameter(resume: bool, automatic: bool)
    | StopSession(quiesced: nat, ownershipCheck: bool)
    | Recover
    | Crash

  /** The preview between commands: none deviates, one is active, or one that the code believes inactive
      still holds its applied value. */
  datatype Live = Quiet | Active(quad: u16, reg: u16, original: u16, applied: u16) | Stranded

  /** A new session starts only when no journal is present: the prepared record is journaled before
      any module is touched, and marked active once acquisition has started. */
  method BeginSession(w: World, record: Record, plan: ReadoutPlan, path: string, ghost b0: Banks)
    returns (r: Step<Session?>)
    requires w.journal.None? && Pristine(w.banks, b0)
    requires record.formatVersion == FORMAT_VERSION && record.mdppBaseAddress == w.base
    requires !record.sourceRestoreRequired && !record.previewRestoreRequired
    modifies w`journal, w`faulty, w`refusals, w`clock
    ensures Journaled(w.banks, b0, w.journal) && JournalHere(w)
    ensures r.Done? && r.value != null ==>
              && fresh(r.value) && Safe(w, r.value, b0) && PreviewQuiet(w.banks, b0, r.value.record)
              && !r.value.record.previewRestoreRequired && r.value.plan == plan && r.value.journalPath == path
    ensures r.Done? && r.value != null ==>
              && r.value.record == record.(phase := if r.value.running then PHASE_ACTIVE else PHASE_PREPARED)
              && (r.value.running ==> w.journal == Some(r.value.record) && w.refusals == old(w.refusals))
    ensures old(w.faulty) ==> w.faulty
    ensures !w.faulty && ValidRecord(record.(phase := PHASE_ACTIVE)) ==>
              && r.Done? && r.value != null && r.value.running
              && r.value.record == record.(phase := PHASE_ACTIVE) && w.journal == Some(r.value.record)
  {
    var prepared :- w.Save(record.(phase := PHASE_PREPARED));
    if !prepared { return Done(null); }
    var s := new Session(plan, path, record.(phase := PHASE_PREPARED));
    var active :- w.Save(record.(phase := PHASE_ACTIVE));
    if active { s.record := record.(phase := PHASE_ACTIVE); s.running := true; }
    r := Done(s);
  }

  /** The state of a run between commands. */
  ghost predicate RunSafe(w: World, s: Session?, live: Live, b0: Banks)
    reads w, s
  {
    && Journaled(w.banks, b0, w.journal) && JournalHere(w)
    && (s != null ==>
          && Safe(w, s, b0)
          && match live
             case Quiet => PreviewQuiet(w.banks, b0, s.record)
             case Active(quad, reg, original, applied) =>
               && s.record.previewRestoreRequired && PreviewLoc(s.record) == Loc(quad, reg)
               && s.record.previewOriginal == original && s.record.previewApplied == applied
             case Stranded => true)
  }

  /** With no preview live, a source operation leaves nothing but its own register deviating. */
  lemma StillQuiet(before: Banks, after: Banks, b0: Banks, r0: Record, r1: Record, quad: nat)
    requires PreviewQuiet(before, b0, r0) && Covers(before, b0, r0) && Covers(after, b0, r1)
    requires WithoutSource(r0) == WithoutSource(r1) && PreviewElsewhere(r0, quad)
    requires OnlyChanges(before, after, Loc(quad, SAMPLE_CONFIGURATION))
    ensures PreviewQuiet(after, b0, r1)
  {
    forall l: Loc | IsLoc(l)
      ensures (r1.sourceRestoreRequired && l == SourceLoc(r1)) || after[l] == b0[l]
    {
      assert AccountedFor(after, b0, r1, l);
    }
  }

  /** Evidence is gone if and only if an apply among the commands opened the gap: `gap` is that apply's armed
      record and the time of arming, and what the adversary did from then on opens the gap. */
  ghost predicate LostOnlyBy(w: World, b0: Banks, gap: Option<Arming>, commands: seq<Command>)
    reads w`banks, w`journal
  {
    && (Journaled(w.banks, b0, w.journal) <==> gap.None?)
    && (gap.Some? ==>
          && gap.value.Lost(w.adversary, w.base)
          && var armed := gap.value.record;
             Apply(armed.previewQuad, armed.previewRegister, armed.previewApplied) in commands)
  }

  /** What a session holds in memory. */
  datatype Kept = Kept(record: Record, running: bool, path: string)

  /** Everything about a run between two commands: what the crate and the disk hold, the session, and whether the
      session owns the crate and recovery is possible. */
  datatype Moment = Moment(
    banks: Banks, selector: u16, journal: Option<Record>, session: Option<Kept>, live: Live, faulty: bool,
    owned: bool, recoverable: bool)

  ghost function Now(w: World, s: Session?, live: Live, b0: Banks): Moment
    reads w, s
  {
    var session := if s == null then None else Some(Kept(s.record, s.running, s.journalPath));
    var record := if s == null then w.journal else Some(s.record);
    Moment(w.banks, w.selector, w.journal, session, live, w.faulty,
           s != null && Owns(w, s), record.Some? && Recoverable(w, record.value, b0))
  }

  /** The isolation report of a session that quiesced and reset every other module. */
  function AllQuiesced(bases: seq<u32>): (isolation: seq<Isolation>)
    ensures |isolation| == |bases| && forall i | 0 <= i < |bases| :: isolation[i] == Isolation(bases[i], true, true, true)
  {
    seq(|bases|, i requires 0 <= i < |bases| => Isolation(bases[i], true, true, true))
  }

  /** A new session may begin. */
  predicate MayBegin(m: Moment, record: Record, base: u32) {
    && m.session.None? && m.journal.None? && record.mdppBaseAddress == base && record.formatVersion == FORMAT_VERSION
    && !record.sourceRestoreRequired && !record.previewRestoreRequired && ValidRecord(record.(phase := PHASE_ACTIVE))
  }

  /** What a command does when nothing goes wrong: the operations really are carried out. */
  ghost predicate Carried(m: Moment, c: Command, n: Moment, b0: Banks, base: u32) {
    match c
    case Crash => n.session.None?
    case Begin(record, plan, path) =>
      MayBegin(m, record, base) ==>
        && n.session == Some(Kept(record.(phase := PHASE_ACTIVE), true, path))
        && n.journal == Some(record.(phase := PHASE_ACTIVE)) && n.live == Quiet
    case Change(quad, source) =>
      (m.session.Some? && m.owned && m.session.value.path != "" && PreviewElsewhere(m.session.value.record, quad)
       && ChangeAllowed(m.session.value.record, m.session.value.running, quad, source)) ==>
        Changed(m, n, quad, source)
    case RestoreWaveformSource(alreadyVerified) =>
      (m.session.Some? && (alreadyVerified || m.owned) && m.session.value.path != ""
       && m.session.value.record.sourceRestoreRequired) ==>
        var r := m.session.value.record;
        && n.session == Some(m.session.value.(record := WithoutSource(r)))
        && n.banks == m.banks[SourceLoc(r) := r.sourceOriginal] && n.selector == 0
    case Apply(quad, reg, value) =>
      (m.session.Some? && m.live.Quiet? && m.owned && SourceElsewhere(m.session.value.record, quad, reg)
       && ApplyDueNow(m, quad, reg, value)) ==>
        AppliedNow(m, n, quad, reg, value)
    case RestoreParameter(resume, automatic) =>
      (m.session.Some? && m.live.Active? && m.owned
       && PreviewAllowed(m.session.value.running, m.session.value.path, m.live.quad, m.live.reg)
       && Loc(m.live.quad, m.live.reg) in m.banks && m.banks[Loc(m.live.quad, m.live.reg)] == m.live.applied) ==>
        && n.session == Some(m.session.value.(record := WithoutPreview(m.session.value.record))) && n.live == Quiet
        && n.banks == m.banks[Loc(m.live.quad, m.live.reg) := m.live.original] && n.selector == 0
    case StopSession(quiesced, ownershipCheck) =>
      (m.session.Some? && (ownershipCheck ==> m.owned)
       && !m.session.value.record.sourceRestoreRequired && !m.session.value.record.previewRestoreRequired
       && quiesced == Attempted(AllQuiesced(m.session.value.record.isolated))) ==>
        n.session.None? && n.journal.None? && Pristine(n.banks, b0)
    case Recover => m.recoverable ==> n.session.None? && n.journal.None? && Pristine(n.banks, b0)
  }

  ghost predicate Changed(m: Moment, n: Moment, quad: u16, source: nat)
    requires m.session.Some? && source <= 3
  {
    var l := Loc(quad, SAMPLE_CONFIGURATION);
    && l in m.banks
    && var requested := Requested(m.banks[l], source);
    && n.banks == m.banks[l := requested] && n.selector == 0
    && n.session == Some(m.session.value.(record := RecordAfter(m.session.value.record, quad, m.banks[l], requested)))
    && (n.session != m.session ==> n.journal == Some(n.session.value.record))
  }

  ghost predicate ApplyDueNow(m: Moment, quad: u16, reg: u16, value: u16)
    requires m.session.Some?
  {
    && PreviewAllowed(m.session.value.running, m.session.value.path, quad, reg) && ProfileValueAccepted(reg, value)
    && Loc(quad, reg) in m.banks && value != m.banks[Loc(quad, reg)] && DependencyMet(m.banks, quad, reg, value)
  }

  ghost predicate AppliedNow(m: Moment, n: Moment, quad: u16, reg: u16, value: u16)
    requires m.session.Some? && Loc(quad, reg) in m.banks
  {
    var l := Loc(quad, reg);
    && n.banks == m.banks[l := value] && n.selector == 0 && n.live == Active(quad, reg, m.banks[l], value)
    && n.session == Some(m.session.value.(record := WithPreview(m.session.value.record, quad, reg, m.banks[l], value)))
    && n.journal == Some(n.session.value.record)
  }

  /** One operator command. Returns the surviving session (null after a crash, a clean stop or a
      detachment), the live preview, and the apply that opened the gap, if this one did. */
  method Execute(w: World, s: Session?, live: Live, c: Command, ghost b0: Banks)
    returns (next: Session?, now: Live, gap: Option<Arming>)
    requires RunSafe(w, s, live, b0)
    modifies w, s
    ensures next == null || next == s || fresh(next)
    ensures LostOnlyBy(w, b0, gap, [c])
    ensures gap.None? ==> RunSafe(w, next, now, b0)
    ensures old(w.faulty) ==> w.faulty
    ensures !w.faulty ==> Carried(old(Now(w, s, live, b0)), c, Now(w, next, now, b0), b0, w.base)
  {
    next, now, gap := s, live, None;
    match c
    case Crash => next, now := null, Quiet;
    case Begin(record, plan, path) =>
      if s == null && w.journal.None? && record.mdppBaseAddress == w.base && record.formatVersion == FORMAT_VERSION
         && !record.sourceRestoreRequired && !record.previewRestoreRequired {
        var begun := BeginSession(w, record, plan, path, b0);
        next, now := if begun.Done? then begun.value else null, Quiet;
      }
    case Change(quad, source) =>
      if s != null && PreviewElsewhere(s.record, quad) { next, now := TrySourceChange(w, s, live, quad, source, b0); }
    case RestoreWaveformSource(alreadyVerified) =>
      if s != null { next, now := TrySourceRestore(w, s, live, alreadyVerified, b0); }
    case Apply(quad, reg, value) =>
      if s != null && live.Quiet? && SourceElsewhere(s.record, quad, reg) {
        next, now, gap := TryPreview(w, s, quad, reg, value, b0);
      }
    case RestoreParameter(resume, automatic) =>
      if s != null && live.Active? { next, now := TryRestore(w, s, live, resume, automatic, b0); }
    case StopSession(quiesced, ownershipCheck) =>
      if s != null { next, now := TryStop(w, s, live, quiesced, ownershipCheck, b0); }
    case Recover =>
      var record := if s != null then Some(s.record) else w.journal;
      if record.Some? { next, now := TryRecovery(w, s, record.value, b0); }
  }

  method TrySourceChange(w: World, s: Session, live: Live, quad: u16, source: nat, ghost b0: Banks)
    returns (next: Session?, now: Live)
    requires RunSafe(w, s, live, b0) && PreviewElsewhere(s.record, quad)
    modifies w, s
    ensures next == null || next == s
    ensures RunSafe(w, next, now, b0)
    ensures old(w.faulty) ==> w.faulty
    ensures !w.faulty ==> Carried(old(Now(w, s, live, b0)), Change(quad, source), Now(w, next, now, b0), b0, w.base)
  {
    next, now := s, live;
    var r := ChangeSource(w, s, quad, source, b0);
    if live.Quiet? { StillQuiet(old(w.banks), w.banks, b0, old(s.record), s.record, quad); }
    if r.Crashed? { next, now := null, Quiet; }
  }

  method TrySourceRestore(w: World, s: Session, live: Live, alreadyVerified: bool, ghost b0: Banks)
    returns (next: Session?, now: Live)
    requires RunSafe(w, s, live, b0)
    modifies w, s
    ensures next == null || next == s
    ensures RunSafe(w, next, now, b0)
    ensures old(w.faulty) ==> w.faulty
    ensures !w.faulty ==> Carried(old(Now(w, s, live, b0)), RestoreWaveformSource(alreadyVerified), Now(w, next, now, b0), b0, w.base)
  {
    next, now := s, live;
    var r := RestoreSource(w, s, alreadyVerified, b0);
    if live.Quiet? && old(s.record.sourceRestoreRequired) {
      StillQuiet(old(w.banks), w.banks, b0, old(s.record), s.record, old(s.record.sourceQuad));
    }
    if r.Crashed? { next, now := null, Quiet; }
  }

  method TryRestore(w: World, s: Session, live: Live, resume: bool, automatic: bool, ghost b0: Banks)
    returns (next: Session?, now: Live)
    requires RunSafe(w, s, live, b0) && live.Active?
    modifies w, s
    ensures next == null || next == s
    ensures RunSafe(w, next, now, b0)
    ensures old(w.faulty) ==> w.faulty
    ensures !w.faulty ==> Carried(old(Now(w, s, live, b0)), RestoreParameter(resume, automatic), Now(w, next, now, b0), b0, w.base)
  {
    next, now := s, live;
    var r := RestorePreview(w, s, live.quad, live.reg, live.original, live.applied, resume, automatic, b0);
    if r.Crashed? { next, now := null, Quiet; }
    else if !r.value.active { now := Quiet; }
  }

  method TryStop(w: World, s: Session, live: Live, quiesced: nat, ownershipCheck: bool, ghost b0: Banks)
    returns (next: Session?, now: Live)
    requires RunSafe(w, s, live, b0)
    modifies w, s
    ensures next == null || next == s
    ensures RunSafe(w, next, now, b0)
    ensures old(w.faulty) ==> w.faulty
    ensures !w.faulty ==> Carried(old(Now(w, s, live, b0)), StopSession(quiesced, ownershipCheck), Now(w, next, now, b0), b0, w.base)
  {
    next, now := s, live;
    var r, _ := StopAcquisition(w, s, AllQuiesced(s.record.isolated), quiesced, ownershipCheck, b0);
    if r != Done(StopState.Failed) { next, now := null, Quiet; }
  }

  /** Recovery works from the record of a session that is still there, or from the journal. */
  method TryRecovery(w: World, s: Session?, record: Record, ghost b0: Banks) returns (next: Session?, now: Live)
    requires Journaled(w.banks, b0, w.journal) && JournalHere(w) && ValidRecord(record) && record.mdppBaseAddress == w.base
    requires Covers(w.banks, b0, record) && (if s != null then record == s.record else w.journal == Some(record))
    modifies w
    ensures next == null && RunSafe(w, next, now, b0)
    ensures old(w.faulty) ==> w.faulty
    ensures !w.faulty && old(Recoverable(w, record, b0)) ==> w.journal == None && Pristine(w.banks, b0)
  {
    var r, _, _ := RecoverOrphan(w, record, b0);
    next, now := null, Quiet;
  }

  /** An apply command. The run loses its evidence if and only if the gap opens. */
  method TryPreview(w: World, s: Session, quad: u16, reg: u16, value: u16, ghost b0: Banks)
    returns (next: Session?, now: Live, gap: Option<Arming>)
    requires RunSafe(w, s, Quiet, b0) && SourceElsewhere(s.record, quad, reg)
    modifies w, s
    ensures next == null || next == s
    ensures LostOnlyBy(w, b0, gap, [Apply(quad, reg, value)])
    ensures gap.None? ==> RunSafe(w, next, now, b0)
    ensures old(w.faulty) ==> w.faulty
    ensures !w.faulty ==> Carried(old(Now(w, s, Quiet, b0)), Apply(quad, reg, value), Now(w, next, now, b0), b0, w.base)
  {
    var l := Loc(quad, reg);
    var before := w.banks;
    var r, arming := ApplyPreview(w, s, quad, reg, value, b0);
    gap := if GapOpened(arming, w.adversary, w.base) then arming else None;
    if r.Crashed? { return null, Quiet, gap; }
    next := s;
    if r.value.active {
      now := Active(quad, reg, r.value.original, value);
    } else if l in before && l in w.banks && w.banks[l] != before[l] {
      now := Stranded;
    } else {
      now := Quiet;
    }
  }

  /** The moments of a run: each command that ran without a fault so far was carried out, and at every moment but a
      last one lost to the gap, everything that deviates is journaled. */
  ghost predicate Chronicle(moments: seq<Moment>, commands: seq<Command>, gap: bool, b0: Banks, base: u32) {
    && 0 < |moments| <= |commands| + 1 && (!gap ==> |moments| == |commands| + 1)
    && (forall i | 0 <= i < |moments| && !(gap && i == |moments| - 1) :: Journaled(moments[i].banks, b0, moments[i].journal))
    && (forall i | 0 <= i < |moments| - 1 && !moments[i + 1].faulty :: Carried(moments[i], commands[i], moments[i + 1], b0, base))
  }

  /** Every run of any commands from a pristine crate, against any adversary, keeps the journal invariant
      unless and until an apply among them opens the gap; since a run may be cut (by Crash, or inside any
      operation) wherever it likes, that is at every moment. */
  method AnyRun(w: World, commands: seq<Command>, ghost b0: Banks) returns (gap: Option<Arming>, ghost moments: seq<Moment>)
    requires w.journal.None? && Pristine(w.banks, b0)
    modifies w
    ensures LostOnlyBy(w, b0, gap, commands)
    ensures (forall armed: Arming :: !armed.Lost(w.adversary, w.base)) ==> Journaled(w.banks, b0, w.journal)
    ensures gap.None? && w.journal.None? ==> Pristine(w.banks, b0)
    ensures Chronicle(moments, commands, gap.Some?, b0, w.base)
    ensures moments[0] == old(Now(w, null, Quiet, b0))
    ensures moments[|moments| - 1].banks == w.banks && moments[|moments| - 1].journal == w.journal
    ensures moments[|moments| - 1].faulty == w.faulty
  {
    var s: Session?, live := null, Quiet;
    gap := None;
    moments := [Now(w, null, Quiet, b0)];
    for i := 0 to |commands|
      invariant s == null || fresh(s)
      invariant gap.None? && RunSafe(w, s, live, b0)
      invariant Chronicle(moments, commands[..i], false, b0, w.base)
      invariant moments[0] == old(Now(w, null, Quiet, b0)) && moments[i] == Now(w, s, live, b0)
    {
      s, live, gap := Execute(w, s, live, commands[i], b0);
      var now := Now(w, s, live, b0);
      OneMoreMoment(moments, commands, i, now, gap.Some?, b0, w.base);
      moments := moments + [now];
      if gap.Some? { return; }
    }
    assert commands[..|commands|] == commands;
  }

  lemma OneMoreMoment(moments: seq<Moment>, commands: seq<Command>, i: nat, now: Moment, gap: bool, b0: Banks, base: u32)
    requires i < |commands| && Chronicle(moments, commands[..i], false, b0, base)
    requires (!gap ==> Journaled(now.banks, b0, now.journal)) && (!now.faulty ==> Carried(moments[i], commands[i], now, b0, base))
    ensures Chronicle(moments + [now], if gap then commands else commands[..i + 1], gap, b0, base)
  {
    var more, cs := moments + [now], if gap then commands else commands[..i + 1];
    forall k | 0 <= k < |more| - 1 && !more[k + 1].faulty ensures Carried(more[k], cs[k], more[k + 1], b0, base) {
      if k < i { assert cs[k] == commands[..i][k]; }
    }
  }
}
