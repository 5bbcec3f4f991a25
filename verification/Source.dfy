/** Pausing and resuming data taking inside a guarded transaction. */
module PauseResume {
  import opened Words
  import opened ScpRegistry
  import opened Crate
  import opened Fingerprint

  const HARDWARE_ID: u16 := 0x6008
  const FIRMWARE_REVISION: u16 := 0x600E
  const READOUT_RESET: u16 := 0x6034
  const ACQUISITION_CONTROL: u16 := 0x603A
  const FIFO_RESET: u16 := 0x603C

  datatype Paused = Paused(module_: bool, daqMode: bool) {
    predicate Failed() { !module_ || !daqMode }
  }

  /** What a pause, a selection and a resumption send. */
  function PauseWrites(base: nat): seq<Event> {
    [SentVme(base + ACQUISITION_CONTROL, 0), SentLocal([LocalWrite(DAQ_MODE, 0)])]
  }

  function SelectWrite(base: nat, quad: u16): Event { SentVme(base + SELECTOR_REGISTER, quad) }

  function ResumeWrites(base: nat): seq<Event> {
    [SentVme(base + FIFO_RESET, 1), SentVme(base + READOUT_RESET, 1), SentVme(base + ACQUISITION_CONTROL, 1),
     SentLocal([LocalWrite(DAQ_MODE, DAQ_ENABLE)])]
  }

  /** A guarded transaction on one quad: everything it sends, around the writes it is for. */
  function Guarded(base: nat, quad: u16, inner: seq<Event>): seq<Event> {
    PauseWrites(base) + [SelectWrite(base, quad)] + inner + [SelectWrite(base, 0)]
  }

  method Pause(w: World) returns (r: Step<Paused>)
    modifies w`selector, w`banks, w`vme, w`mvlc, w`trace, w`sent, w`faulty, w`refusals, w`clock
    ensures w.banks == old(w.banks) && w.selector == old(w.selector)
    ensures old(w.faulty) ==> w.faulty
    ensures !w.faulty ==> r == Done(Paused(true, true))
    ensures !w.faulty ==> w.Value(w.base + ACQUISITION_CONTROL) == 0
    ensures w.Harmless() ==> w.faulty == old(w.faulty)
    ensures r.Done? && r.value.daqMode ==> LocalValue(w.mvlc, DAQ_MODE) == 0
    ensures r.Done? ==> w.sent == old(w.sent) + PauseWrites(w.base)
    ensures r.Done? && !r.value.Failed() ==> w.refusals == old(w.refusals)
  {
    var stopped :- w.WriteVme(w.base + ACQUISITION_CONTROL, 0);
    var paused :- w.WriteLocal([LocalWrite(DAQ_MODE, 0)]);
    if !paused { return Done(Paused(stopped, false)); }
    var readback :- w.ReadLocal([DAQ_MODE]);
    r := Done(Paused(stopped, readback.Some? && readback.value[0] == 0));
  }

  /** Reset both buffers of the target, then let it run. */
  method StartModule(w: World) returns (r: Step<bool>)
    modifies w`selector, w`banks, w`vme, w`trace, w`sent, w`faulty, w`refusals, w`clock
    ensures w.banks == old(w.banks) && w.selector == old(w.selector)
    ensures old(w.faulty) ==> w.faulty
    ensures !w.faulty ==> r == Done(true) && w.Value(w.base + ACQUISITION_CONTROL) == 1
    ensures r == Done(true) ==> w.sent == old(w.sent) + ResumeWrites(w.base)[..3] && w.refusals == old(w.refusals)
    ensures old(w.sent) + ResumeWrites(w.base)[..1] <= w.sent
  {
    var fifo :- w.WriteVme(w.base + FIFO_RESET, 1);
    if !fifo { return Done(false); }
    var readout :- w.WriteVme(w.base + READOUT_RESET, 1);
    if !readout { return Done(false); }
    r := w.WriteVme(w.base + ACQUISITION_CONTROL, 1);
  }

  /** True when acquisition restarted and DAQ mode reads back enabled. */
  method Resume(w: World) returns (r: Step<bool>)
    modifies w`selector, w`banks, w`vme, w`mvlc, w`trace, w`sent, w`faulty, w`refusals, w`clock
    ensures w.banks == old(w.banks) && w.selector == old(w.selector)
    ensures old(w.faulty) ==> w.faulty
    ensures !w.faulty ==> r == Done(true) && w.Value(w.base + ACQUISITION_CONTROL) == 1
    ensures r == Done(true) ==>
              LocalValue(w.mvlc, DAQ_MODE) % 2 == 1 && w.sent == old(w.sent) + ResumeWrites(w.base) && w.refusals == old(w.refusals)
    ensures old(w.sent) + ResumeWrites(w.base)[..1] <= w.sent
  {
    var started :- StartModule(w);
    if !started { return Done(false); }
    assert ResumeWrites(w.base) == ResumeWrites(w.base)[..3] + [SentLocal([LocalWrite(DAQ_MODE, DAQ_ENABLE)])];
    var enabled :- w.WriteLocal([LocalWrite(DAQ_MODE, DAQ_ENABLE)]);
    if !enabled { return Done(false); }
    var readback :- w.ReadLocal([DAQ_MODE]);
    r := Done(readback.Some? && readback.value[0] % 2 == 1);
  }

  /** Resume when that is safe. */
  method ResumeIf(w: World, safe: bool) returns (r: Step<bool>)
    modifies w`selector, w`banks, w`vme, w`mvlc, w`trace, w`sent, w`faulty, w`refusals, w`clock
    ensures w.banks == old(w.banks) && w.selector == old(w.selector)
    ensures old(w.faulty) ==> w.faulty
    ensures !w.faulty ==> r == Done(safe) && (safe ==> w.Value(w.base + ACQUISITION_CONTROL) == 1)
    ensures r == Done(true) ==>
              safe && LocalValue(w.mvlc, DAQ_MODE) % 2 == 1 && w.sent == old(w.sent) + ResumeWrites(w.base) && w.refusals == old(w.refusals)
    ensures !safe ==> w.sent == old(w.sent) && w.refusals == old(w.refusals)
    ensures safe ==> old(w.sent) + ResumeWrites(w.base)[..1] <= w.sent
  {
    if !safe { return Done(false); }
    r := Resume(w);
  }

  /** Write the bank selector; parking is selecting quad zero. */
  method SelectQuad(w: World, quad: u16) returns (r: Step<bool>)
    modifies w`selector, w`banks, w`vme, w`trace, w`sent, w`faulty, w`refusals, w`clock
    ensures w.banks == old(w.banks) && (w.selector == old(w.selector) || w.selector == quad)
    ensures old(w.faulty) ==> w.faulty
    ensures !w.faulty ==> r == Done(true)
    ensures r == Done(true) ==> w.selector == quad && w.refusals == old(w.refusals)
    ensures w.sent == old(w.sent) + [SelectWrite(w.base, quad)]
    ensures w.Harmless() ==> w.faulty == old(w.faulty)
    ensures var f := w.adversary(old(w.clock), StoreVme(w.base + SELECTOR_REGISTER, quad));
            w.clock == old(w.clock) + 1 && r == (if f.crash then Crashed else Done(f.reported))
  {
    r := w.WriteVme(w.base + SELECTOR_REGISTER, quad);
  }

  datatype Opening = Opening(paused: bool, selected: bool, current: Option<u16>)

  /** Pause, select a quad and read one of its registers: no banked register changes. */
  method OpenQuad(w: World, quad: u16, reg: u16) returns (r: Step<Opening>)
    requires IsLoc(Loc(quad, reg)) && Complete(w.banks)
    modifies w`selector, w`banks, w`vme, w`mvlc, w`trace, w`sent, w`faulty, w`refusals, w`clock
    ensures w.banks == old(w.banks)
    ensures old(w.faulty) ==> w.faulty
    ensures !w.faulty ==> r.Done? && r.value.paused && r.value.current.Some?
    ensures w.Harmless() ==> w.faulty == old(w.faulty)
    ensures r.Done? && r.value.paused ==> LocalValue(w.mvlc, DAQ_MODE) == 0
    ensures r.Done? && r.value.selected ==> r.value.paused && w.selector == quad
    ensures r.Done? ==>
              w.sent == old(w.sent) + (PauseWrites(w.base) + if r.value.paused then [SelectWrite(w.base, quad)] else [])
    ensures r.Done? && r.value.current.Some? ==>
              r.value.selected && r.value.current.value == w.banks[Loc(quad, reg)] && w.refusals == old(w.refusals)
  {
    var paused :- Pause(w);
    if paused.Failed() { return Done(Opening(false, false, None)); }
    var selected :- SelectQuad(w, quad);
    if !selected { return Done(Opening(true, false, None)); }
    var current :- w.ReadVme(w.base + reg);
    r := Done(Opening(true, true, current));
  }
}

/** Temporary waveform-source changes: journal before write, verify, roll back, park, resume. */
module Source {
  import opened Words
  import opened ScpRegistry
  import opened RecoveryRecord
  import opened Crate
  import opened Fingerprint
  import opened PauseResume

  /** The in-memory session. Its record may lag behind or run ahead of the durable journal,
      because a save that reports failure may still have been installed. */
  class Session {
    const plan: ReadoutPlan
    const journalPath: string
    var record: Record
    var running: bool

    constructor (plan: ReadoutPlan, journalPath: string, record: Record)
      ensures this.plan == plan && this.journalPath == journalPath && this.record == record && !running
    {
      this.plan, this.journalPath, this.record, running := plan, journalPath, record, false;
    }
  }

  /** Both the durable journal and the in-memory record account for every deviation. */
  ghost predicate Safe(w: World, s: Session, b0: Banks)
    reads w`banks, w`journal, s`record
  {
    && Journaled(w.banks, b0, w.journal) && Covers(w.banks, b0, s.record)
    && JournalHere(w) && ValidRecord(s.record) && s.record.mdppBaseAddress == w.base
    && s.record.formatVersion == FORMAT_VERSION
  }

  function WithSource(r: Record, quad: u16, original: u16, applied: u16): Record {
    r.(sourceRestoreRequired := true, sourceQuad := quad, sourceOriginal := original,
       sourceAppliedAvailable := true, sourceApplied := applied)
  }

  function WithoutSource(r: Record): Record {
    r.(sourceRestoreRequired := false, sourceQuad := 0, sourceOriginal := 0,
       sourceAppliedAvailable := false, sourceApplied := 0)
  }

  /** SaveSourceRecoveryState and SavePreviewRecoveryState: the session's record follows only a
      reported success. */
  method SaveSession(w: World, s: Session, record: Record) returns (r: Step<bool>)
    modifies w`journal, s`record, w`faulty, w`refusals, w`clock
    ensures r == Done(true) ==> ValidRecord(record) && w.journal == Some(record) && s.record == record && w.refusals == old(w.refusals)
    ensures w.journal == old(w.journal) || (w.journal == Some(record) && ValidRecord(record))
    ensures r != Done(true) ==> s.record == old(s.record)
    ensures old(w.faulty) ==> w.faulty
    ensures !w.faulty ==> r == Done(ValidRecord(record))
    ensures ValidRecord(record) ==>
              var f := w.adversary(old(w.clock), SaveJournal(record));
              && w.clock == old(w.clock) + 1 && r == (if f.crash then Crashed else Done(f.reported))
              && w.journal == (if f.reported || f.effective then Some(record) else old(w.journal))
  {
    var saved :- w.Save(record);
    if saved { s.record := record; }
    r := Done(saved);
  }

  /** How far an operation got before touching hardware. */
  datatype Admission = Rejected | NotOwner(outcome: LiveOutcome) | Admitted

  datatype ChangeResult = ChangeResult(
    admission: Admission, passed: bool, writeAttempted: bool, writeVerified: bool,
    rollbackVerified: bool, parked: bool, resumed: bool)

  function Refused(admission: Admission): ChangeResult {
    ChangeResult(admission, false, false, false, false, false, false)
  }

  function Requested(live: u16, source: nat): u16
    requires source <= 3
  {
    live / 4 * 4 + source
  }

  /** A request replaces exactly the two source bits; within a pending deviation it can only mean
      the original or the applied configuration. */
  lemma RequestedBits(live: u16, source: nat, other: u16)
    requires source <= 3
    ensures SameUpperBits(Requested(live, source), live) && Requested(live, source) % 4 == source
    ensures SameUpperBits(live, other) && source == other % 4 ==> Requested(live, source) == other
  {
  }

  /** Guards that refuse a request before any hardware access. */
  predicate ChangeAllowed(record: Record, running: bool, quad: nat, source: nat) {
    && quad < QUAD_COUNT && source <= 3 && running
    && (record.sourceRestoreRequired ==>
          && record.sourceQuad == quad
          && (source == record.sourceOriginal % 4
              || (record.sourceAppliedAvailable && source == record.sourceApplied % 4)))
  }

  /** A pending preview is not on the location whose source would change. */
  predicate PreviewElsewhere(r: Record, quad: nat) {
    r.previewRestoreRequired ==> PreviewLoc(r) != Loc(quad, SAMPLE_CONFIGURATION)
  }

  /** What a permitted request can mean: the journaled (or live) original is the true original, and a
      request that is neither the live value nor a return to the original starts from the original. */
  lemma SourceChoices(banks: Banks, b0: Banks, r: Record, quad: u16, source: nat)
    requires Covers(banks, b0, r) && PreviewElsewhere(r, quad) && ChangeAllowed(r, true, quad, source)
    ensures var l := Loc(quad, SAMPLE_CONFIGURATION);
            var requested := Requested(banks[l], source);
            && b0[l] == (if r.sourceRestoreRequired then r.sourceOriginal else banks[l])
            && SameUpperBits(requested, b0[l])
            && (requested != banks[l] && requested != b0[l] ==> banks[l] == b0[l])
            && (r.sourceRestoreRequired ==> SourceLoc(r) == l)
  {
    var l := Loc(quad, SAMPLE_CONFIGURATION);
    assert AccountedFor(banks, b0, r, l);
    RequestedBits(banks[l], source, r.sourceOriginal);
    RequestedBits(banks[l], source, r.sourceApplied);
  }

  /** Moving one register between its original and its journaled applied value keeps coverage. */
  lemma CoversPoke(banks: Banks, b0: Banks, r: Record, value: u16)
    requires Covers(banks, b0, r) && r.sourceRestoreRequired
    requires value == r.sourceOriginal || value == r.sourceApplied
    ensures Covers(banks[SourceLoc(r) := value], b0, r)
  {
  }

  /** A record whose source location already holds the original can have its source entry
      set truthfully, or dropped. */
  lemma CoversReplaceSource(banks: Banks, b0: Banks, r: Record, quad: u16, applied: u16)
    requires Covers(banks, b0, r) && quad < QUAD_COUNT
    requires r.sourceRestoreRequired ==> banks[SourceLoc(r)] == b0[SourceLoc(r)]
    ensures Covers(banks, b0, WithoutSource(r))
    ensures SameUpperBits(applied, b0[Loc(quad, SAMPLE_CONFIGURATION)])
            && PreviewElsewhere(r, quad)
            ==> Covers(banks, b0, WithSource(r, quad, b0[Loc(quad, SAMPLE_CONFIGURATION)], applied))
  {
  }

  /** A register write and its readback under an adversary: whether the process crashes, whether the value
      is written, whether it is then read, and the time afterwards. */
  datatype WriteFate = WriteFate(crashed: bool, wrote: bool, read: bool, end: nat)

  function FateOfWrite(o: Adversary, t: nat, address: nat, value: u16): WriteFate {
    var f, g := o(t, StoreVme(address, value)), o(t + 1, LoadVme(address));
    WriteFate(f.crash || (f.reported && g.crash), f.effective, f.reported && g.reported,
              if f.crash || !f.reported then t + 1 else t + 2)
  }

  /** Write one banked register of the selected quad and read it back. */
  method WriteBanked(w: World, quad: nat, reg: u16, value: u16) returns (r: Step<bool>)
    requires w.selector == quad && IsLoc(Loc(quad, reg)) && Complete(w.banks)
    modifies w`selector, w`banks, w`vme, w`trace, w`sent, w`faulty, w`refusals, w`clock
    ensures w.selector == quad
    ensures old(w.faulty) ==> w.faulty
    ensures !w.faulty ==> r == Done(true)
    ensures w.banks == old(w.banks) || w.banks == old(w.banks)[Loc(quad, reg) := value]
    ensures r == Done(true) ==> w.banks == old(w.banks)[Loc(quad, reg) := value]
    ensures w.sent == old(w.sent) + [SentVme(w.base + reg, value)]
    ensures r == Done(true) ==> w.refusals == old(w.refusals)
    ensures var x := FateOfWrite(w.adversary, old(w.clock), w.base + reg, value);
            && w.clock == x.end && (r.Crashed? <==> x.crashed)
            && w.banks == (if x.wrote then old(w.banks)[Loc(quad, reg) := value] else old(w.banks))
            && (r.Done? ==> r.value == (x.read && w.banks[Loc(quad, reg)] == value))
  {
    var written :- w.WriteVme(w.base + reg, value);
    if !written { return Done(false); }
    var readback :- w.ReadVme(w.base + reg);
    r := Done(readback.Some? && readback.value == value);
  }

  /** The session currently owns the crate, as far as the live fingerprint tells. */
  ghost predicate Owns(w: World, s: Session)
    reads w`mvlc, s`record
  {
    LiveCheck(s.plan, s.record, LocalValues(w.mvlc, LiveAddresses(s.plan, s.record))) == Verified
  }

  /** Everything between the capture of the live configuration and the parking of the selector. */
  datatype Core = Core(
    failed: bool, writeAttempted: bool, writeVerified: bool, rollbackVerified: bool,
    armed: bool, returnsToOriginal: bool)

  /** Both records tolerate either of two values at one location. */
  ghost predicate EitherWay(w: World, s: Session, l: Loc, a: u16, b: u16, b0: Banks)
    reads w`banks, w`journal, s`record
  {
    && Journaled(w.banks[l := a], b0, w.journal) && Covers(w.banks[l := a], b0, s.record)
    && Journaled(w.banks[l := b], b0, w.journal) && Covers(w.banks[l := b], b0, s.record)
  }

  /** Drop the source entry once its register holds the original again. */
  method DropSource(w: World, s: Session, ghost b0: Banks) returns (r: Step<bool>)
    requires Safe(w, s, b0)
    requires s.record.sourceRestoreRequired ==> w.banks[SourceLoc(s.record)] == b0[SourceLoc(s.record)]
    modifies w`journal, w`faulty, w`refusals, w`clock, s`record
    ensures Safe(w, s, b0)
    ensures old(w.faulty) ==> w.faulty
    ensures !w.faulty ==> r == Done(true)
    ensures s.record == old(s.record) || s.record == WithoutSource(old(s.record))
    ensures r == Done(true) ==> s.record == WithoutSource(old(s.record)) && w.journal == Some(s.record) && w.refusals == old(w.refusals)
  {
    CoversReplaceSource(w.banks, b0, s.record, 0, 0);
    r := SaveSession(w, s, WithoutSource(s.record));
  }

  /** Journal the deviation before it can exist. */
  method ArmSource(w: World, s: Session, quad: u16, original: u16, requested: u16, ghost b0: Banks) returns (r: Step<bool>)
    requires Safe(w, s, b0) && PreviewElsewhere(s.record, quad) && quad < QUAD_COUNT
    requires s.record.sourceRestoreRequired ==> w.banks[SourceLoc(s.record)] == b0[SourceLoc(s.record)]
    requires original == b0[Loc(quad, SAMPLE_CONFIGURATION)]
    requires requested != original && SameUpperBits(requested, original)
    modifies w`journal, w`faulty, w`refusals, w`clock, s`record
    ensures Safe(w, s, b0)
    ensures old(w.faulty) ==> w.faulty
    ensures !w.faulty ==> r == Done(true)
    ensures s.record == old(s.record) || s.record == WithSource(old(s.record), quad, original, requested)
    ensures r == Done(true) ==>
              && s.record == WithSource(old(s.record), quad, original, requested) && w.journal == Some(s.record)
              && w.refusals == old(w.refusals)
              && EitherWay(w, s, Loc(quad, SAMPLE_CONFIGURATION), original, requested, b0)
  {
    CoversReplaceSource(w.banks, b0, s.record, quad, requested);
    r := SaveSession(w, s, WithSource(s.record, quad, original, requested));
    if r == Done(true) {
      CoversPoke(w.banks, b0, s.record, original);
      CoversPoke(w.banks, b0, s.record, requested);
    }
  }

  /** The journaled write and, when it is not confirmed, its rollback. */
  method TrySource(w: World, s: Session, quad: u16, live: u16, requested: u16, ghost b0: Banks)
    returns (r: Step<(bool, bool)>)
    requires Safe(w, s, b0) && quad < QUAD_COUNT && w.selector == quad
    requires live == w.banks[Loc(quad, SAMPLE_CONFIGURATION)]
    requires EitherWay(w, s, Loc(quad, SAMPLE_CONFIGURATION), live, requested, b0)
    modifies w`selector, w`banks, w`vme, w`trace, w`sent, w`faulty, w`refusals, w`clock
    ensures Safe(w, s, b0) && w.selector == quad
    ensures old(w.faulty) ==> w.faulty
    ensures !w.faulty ==> r == Done((true, false))
    ensures w.banks == old(w.banks) || w.banks == old(w.banks)[Loc(quad, SAMPLE_CONFIGURATION) := requested]
    ensures r.Done? && r.value.0 ==>
              && w.banks == old(w.banks)[Loc(quad, SAMPLE_CONFIGURATION) := requested]
              && w.sent == old(w.sent) + [SentVme(w.base + SAMPLE_CONFIGURATION, requested)] && w.refusals == old(w.refusals)
    ensures old(w.sent) + [SentVme(w.base + SAMPLE_CONFIGURATION, requested)] <= w.sent
    ensures r.Done? && r.value.1 ==> !r.value.0
    ensures r.Done? && r.value.1 ==> w.banks == old(w.banks)
  {
    var l := Loc(quad, SAMPLE_CONFIGURATION);
    assert w.banks[l := live] == w.banks == w.banks[l := requested][l := live];
    var verified :- WriteBanked(w, quad, SAMPLE_CONFIGURATION, requested);
    if verified { return Done((true, false)); }
    var rolledBack :- WriteBanked(w, quad, SAMPLE_CONFIGURATION, live);
    r := Done((false, rolledBack));
  }

  /** What setting the configuration of the selected quad sends. */
  function SourceWrites(base: nat, live: u16, requested: u16): seq<Event> {
    if requested == live then [] else [SentVme(base + SAMPLE_CONFIGURATION, requested)]
  }

  /** The session record after a passed change. */
  function RecordAfter(r: Record, quad: u16, live: u16, requested: u16): Record {
    if r.sourceRestoreRequired && requested == r.sourceOriginal then WithoutSource(r)
    else if requested == live then r
    else WithSource(r, quad, if r.sourceRestoreRequired then r.sourceOriginal else live, requested)
  }

  /** The register holds the requested configuration, written by exactly what that takes. */
  ghost predicate Rewritten(w: World, banks: Banks, sent: seq<Event>, quad: u16, live: u16, requested: u16)
    reads w`banks, w`sent
  {
    w.banks == banks[Loc(quad, SAMPLE_CONFIGURATION) := requested] && w.sent == sent + SourceWrites(w.base, live, requested)
  }

  method ApplySource(w: World, s: Session, quad: u16, source: nat, live: u16, ghost b0: Banks)
    returns (r: Step<Core>)
    requires Safe(w, s, b0) && PreviewElsewhere(s.record, quad)
    requires ChangeAllowed(s.record, true, quad, source)
    requires w.selector == quad && live == w.banks[Loc(quad, SAMPLE_CONFIGURATION)]
    modifies w`selector, w`banks, w`vme, w`trace, w`sent, w`journal, s`record, w`faulty, w`refusals, w`clock
    ensures Safe(w, s, b0) && w.selector == quad
    ensures old(w.faulty) ==> w.faulty
    ensures !w.faulty ==> r.Done? && r.value.writeVerified && !r.value.failed
    ensures !w.adversary(old(w.clock), PollCancellation).reported ==>
              w.sent == old(w.sent) && w.journal == old(w.journal) && r.Done? && !r.value.writeVerified
    ensures WithoutSource(s.record) == WithoutSource(old(s.record))
    ensures OnlyChanges(old(w.banks), w.banks, Loc(quad, SAMPLE_CONFIGURATION))
    ensures s.record.sourceRestoreRequired ==> s.record.sourceQuad == quad
    ensures r.Done? ==> CoreHolds(w, s, old(s.record), old(w.banks), old(w.sent), quad, live, Requested(live, source), r.value, b0)
    ensures r.Done? && r.value.writeVerified ==> w.refusals == old(w.refusals)
  {
    var l := Loc(quad, SAMPLE_CONFIGURATION);
    var requested := Requested(live, source);
    SourceChoices(w.banks, b0, s.record, quad, source);
    var original := if s.record.sourceRestoreRequired then s.record.sourceOriginal else live;
    var returns_ := s.record.sourceRestoreRequired && requested == original;
    var c := Core(false, false, false, false, false, returns_);

    assert w.banks[l := live] == w.banks;
    var cancelled := w.Cancelled();
    if cancelled { return Done(c.(failed := true)); }
    if requested == live { return Done(c.(writeVerified := true)); }
    r := AttemptSource(w, s, quad, live, original, requested, b0);
  }

  /** What is known after an attempt, in terms of the state before: every flag is truthful. */
  ghost predicate CoreHolds(w: World, s: Session, before: Record, banks: Banks, sent: seq<Event>,
                            quad: u16, live: u16, requested: u16, c: Core, b0: Banks)
    reads w`banks, w`sent, w`journal, s`record
  {
    var l := Loc(quad, SAMPLE_CONFIGURATION);
    && l in w.banks && l in b0
    && c.returnsToOriginal == (before.sourceRestoreRequired && requested == before.sourceOriginal)
    && (c.armed ==> !before.sourceRestoreRequired)
    && (c.writeVerified ==> Rewritten(w, banks, sent, quad, live, requested) && !c.rollbackVerified)
    && (c.rollbackVerified ==> w.banks == banks && c.writeAttempted)
    && (c.writeAttempted ==> sent + [SentVme(w.base + SAMPLE_CONFIGURATION, requested)] <= w.sent)
    && (!c.writeAttempted ==> w.sent == sent && w.banks == banks)
    && (c.writeVerified && !c.returnsToOriginal ==>
          && s.record == RecordAfter(before, quad, live, requested)
          && (s.record != before ==> w.journal == Some(s.record)))
    && (c.returnsToOriginal ==> s.record == before)
    && (KnownGone(c) ==> w.banks[l] == b0[l])
  }

  /** Journal the deviation unless the request ends it, then write. */
  method AttemptSource(w: World, s: Session, quad: u16, live: u16, original: u16, requested: u16, ghost b0: Banks)
    returns (r: Step<Core>)
    requires Safe(w, s, b0) && PreviewElsewhere(s.record, quad) && quad < QUAD_COUNT
    requires w.selector == quad && live == w.banks[Loc(quad, SAMPLE_CONFIGURATION)] != requested
    requires original == b0[Loc(quad, SAMPLE_CONFIGURATION)] && SameUpperBits(requested, original)
    requires if s.record.sourceRestoreRequired then s.record.sourceQuad == quad && original == s.record.sourceOriginal
             else original == live
    requires requested != original ==> live == original
    modifies w`selector, w`banks, w`vme, w`trace, w`sent, w`journal, s`record, w`faulty, w`refusals, w`clock
    ensures Safe(w, s, b0) && w.selector == quad
    ensures old(w.faulty) ==> w.faulty
    ensures !w.faulty ==> r.Done? && r.value.writeVerified && !r.value.failed
    ensures WithoutSource(s.record) == WithoutSource(old(s.record))
    ensures OnlyChanges(old(w.banks), w.banks, Loc(quad, SAMPLE_CONFIGURATION))
    ensures s.record.sourceRestoreRequired ==> s.record.sourceQuad == quad
    ensures r.Done? ==> CoreHolds(w, s, old(s.record), old(w.banks), old(w.sent), quad, live, requested, r.value, b0)
    ensures r.Done? && r.value.writeVerified ==> w.refusals == old(w.refusals)
  {
    var l := Loc(quad, SAMPLE_CONFIGURATION);
    var wasActive := s.record.sourceRestoreRequired;
    var c := Core(false, false, false, false, false, wasActive && requested == original);
    assert w.banks[l := live] == w.banks;
    if requested == original {
      RestoringKeepsCover(w.banks, b0, w.journal, s.record, l);
    } else {
      var saved :- ArmSource(w, s, quad, original, requested, b0);
      c := c.(armed := !wasActive && saved, failed := !saved);
      if !saved { return Done(c); }
    }
    var outcome :- TrySource(w, s, quad, live, requested, b0);
    r := Done(c.(writeAttempted := true, writeVerified := outcome.0, rollbackVerified := outcome.1, failed := !outcome.0));
  }

  datatype Conclusion = Conclusion(parked: bool, saved: bool, resumed: bool)

  /** The register is known to hold its original again. */
  predicate KnownGone(c: Core) { (c.returnsToOriginal && c.writeVerified) || (c.armed && c.rollbackVerified) }

  /** Park the selector and drop a deviation that is known to be gone: (parked, saved). */
  method ParkChange(w: World, s: Session, quad: u16, selected: bool, gone: bool, ghost b0: Banks)
    returns (r: Step<(bool, bool)>)
    requires Safe(w, s, b0) && quad < QUAD_COUNT
    requires s.record.sourceRestoreRequired ==> s.record.sourceQuad == quad
    requires gone ==> w.banks[Loc(quad, SAMPLE_CONFIGURATION)] == b0[Loc(quad, SAMPLE_CONFIGURATION)]
    modifies w`selector, w`banks, w`vme, w`trace, w`sent, w`journal, s`record, w`faulty, w`refusals, w`clock
    ensures Safe(w, s, b0) && w.banks == old(w.banks) && old(w.sent) <= w.sent
    ensures old(w.faulty) ==> w.faulty
    ensures !w.faulty ==> r == Done((selected, true))
    ensures r.Done? && r.value.0 ==> w.selector == 0
    ensures r.Done? ==> w.sent == old(w.sent) + if selected then [SelectWrite(w.base, 0)] else []
    ensures r.Done? && r.value.0 ==> selected
    ensures r.Done? && r.value.0 && r.value.1 ==> w.refusals == old(w.refusals)
    ensures WithoutSource(s.record) == WithoutSource(old(s.record))
    ensures r.Done? && r.value.1 && gone ==> s.record == WithoutSource(old(s.record)) && w.journal == Some(s.record)
    ensures !gone ==> s.record == old(s.record) && w.journal == old(w.journal)
  {
    var parked := false;
    if selected { parked :- SelectQuad(w, 0); }
    var saved := true;
    if gone { saved :- DropSource(w, s, b0); }
    r := Done((parked, saved));
  }

  /** Data taking may go on: it was paused, the configuration is known, and no quad stays selected. */
  predicate ResumeSafe(opening: Opening, c: Core, parked: bool) {
    && opening.paused && (!c.writeAttempted || c.writeVerified || c.rollbackVerified)
    && (!opening.selected || parked)
  }

  /** After the parking write, if there was one, the first write of a resumption was sent. */
  ghost predicate ResumeTried(w: World, before: seq<Event>, parking: bool)
    reads w`sent
  {
    before + (if parking then [SelectWrite(w.base, 0)] else []) + ResumeWrites(w.base)[..1] <= w.sent
  }

  /** Park the selector, drop a deviation that is known to be gone, and resume when safe. */
  method ConcludeChange(w: World, s: Session, quad: u16, opening: Opening, c: Core, ghost b0: Banks)
    returns (r: Step<Conclusion>)
    requires Safe(w, s, b0) && quad < QUAD_COUNT
    requires s.record.sourceRestoreRequired ==> s.record.sourceQuad == quad
    requires KnownGone(c) ==> w.banks[Loc(quad, SAMPLE_CONFIGURATION)] == b0[Loc(quad, SAMPLE_CONFIGURATION)]
    modifies w`selector, w`banks, w`vme, w`mvlc, w`trace, w`sent, w`journal, s`record, w`faulty, w`refusals, w`clock
    ensures Safe(w, s, b0) && w.banks == old(w.banks) && old(w.sent) <= w.sent
    ensures old(w.faulty) ==> w.faulty
    ensures !w.faulty && opening.paused && opening.selected && c.writeVerified ==> r == Done(Conclusion(true, true, true))
    ensures r.Done? && r.value.parked ==> w.selector == 0
    ensures r.Done? && r.value.resumed ==>
              LocalValue(w.mvlc, DAQ_MODE) % 2 == 1 && (!w.faulty ==> w.Value(w.base + ACQUISITION_CONTROL) == 1)
    ensures r.Done? && r.value.parked && r.value.resumed ==>
              w.sent == old(w.sent) + ([SelectWrite(w.base, 0)] + ResumeWrites(w.base))
    ensures r.Done? && r.value.parked && r.value.saved && r.value.resumed ==> w.refusals == old(w.refusals)
    ensures r.Done? ==>
              (ResumeSafe(opening, c, r.value.parked) <==> ResumeTried(w, old(w.sent), opening.selected))
              && (r.value.resumed ==> ResumeSafe(opening, c, r.value.parked))
    ensures WithoutSource(s.record) == WithoutSource(old(s.record))
    ensures r.Done? && r.value.saved && KnownGone(c) ==> s.record == WithoutSource(old(s.record)) && w.journal == Some(s.record)
    ensures !KnownGone(c) ==> s.record == old(s.record) && w.journal == old(w.journal)
  {
    var end :- ParkChange(w, s, quad, opening.selected, KnownGone(c), b0);
    var resumed :- ResumeIf(w, ResumeSafe(opening, c, end.0));
    r := Done(Conclusion(end.0, end.1, resumed));
  }

  lemma GuardedWhole(start: seq<Event>, base: nat, quad: u16, inner: seq<Event>)
    ensures start + (PauseWrites(base) + [SelectWrite(base, quad)]) + inner + ([SelectWrite(base, 0)] + ResumeWrites(base))
            == start + (Guarded(base, quad, inner) + ResumeWrites(base))
  {
  }

  /** A source that is live in every place: written, recorded, journaled unless the record is as before, and the
      selector parked. */
  ghost predicate SourceLive(w: World, s: Session, before: Record, banks: Banks, quad: u16, requested: u16)
    requires quad < QUAD_COUNT
    reads w`selector, w`banks, w`journal, s`record
  {
    var l := Loc(quad, SAMPLE_CONFIGURATION);
    && l in banks && w.banks == banks[l := requested] && w.selector == 0
    && s.record == RecordAfter(before, quad, banks[l], requested)
    && (s.record != before ==> w.journal == Some(s.record))
  }

  /** What a passed source change has sent. */
  function ChangeWrites(base: nat, quad: u16, live: u16, requested: u16): seq<Event> {
    Guarded(base, quad, SourceWrites(base, live, requested)) + ResumeWrites(base)
  }

  /** Open the quad, apply, park, and resume when safe. */
  method TransactSource(w: World, s: Session, quad: u16, source: nat, ghost b0: Banks)
    returns (r: Step<ChangeResult>)
    requires Safe(w, s, b0) && PreviewElsewhere(s.record, quad) && ChangeAllowed(s.record, true, quad, source)
    modifies w`selector, w`banks, w`vme, w`mvlc, w`trace, w`sent, w`journal, s`record, w`faulty, w`refusals, w`clock
    ensures Safe(w, s, b0)
    ensures old(w.faulty) ==> w.faulty
    ensures !w.faulty ==> r.Done? && r.value.passed && r.value.resumed
    ensures WithoutSource(s.record) == WithoutSource(old(s.record))
    ensures OnlyChanges(old(w.banks), w.banks, Loc(quad, SAMPLE_CONFIGURATION))
    ensures var l := Loc(quad, SAMPLE_CONFIGURATION);
            var requested := Requested(old(w.banks)[l], source);
            && (r.Done? && r.value.passed ==>
                  && SourceLive(w, s, old(s.record), old(w.banks), quad, requested)
                  && w.sent == old(w.sent) + ChangeWrites(w.base, quad, old(w.banks)[l], requested)
                  && w.refusals == old(w.refusals) && r.value.writeVerified && r.value.resumed)
            && (r.Done? && r.value.writeVerified ==> w.banks == old(w.banks)[l := requested] && !r.value.rollbackVerified)
            && (r.Done? && r.value.rollbackVerified ==> w.banks == old(w.banks) && r.value.writeAttempted)
            && (r.Done? && r.value.writeAttempted ==>
                  old(w.sent) + (PauseWrites(w.base) + [SelectWrite(w.base, quad)])
                  + [SentVme(w.base + SAMPLE_CONFIGURATION, requested)] <= w.sent)
            && (r.Done? && !r.value.writeAttempted ==> w.banks == old(w.banks))
    ensures r.Done? ==> r.value.admission == Admitted && (r.value.parked ==> w.selector == 0)
    ensures r.Done? && r.value.resumed ==>
              LocalValue(w.mvlc, DAQ_MODE) % 2 == 1 && (!w.faulty ==> w.Value(w.base + ACQUISITION_CONTROL) == 1)
  {
    var opening :- OpenQuad(w, quad, SAMPLE_CONFIGURATION);
    var c := Core(opening.current.None?, false, false, false, false, false);
    if opening.current.Some? {
      c :- ApplySource(w, s, quad, source, opening.current.value, b0);
      GuardedWhole(old(w.sent), w.base, quad, SourceWrites(w.base, opening.current.value, Requested(opening.current.value, source)));
    }
    var end :- ConcludeChange(w, s, quad, opening, c, b0);
    r := Done(ChangeResult(
      Admitted, !c.failed && c.writeVerified && end.parked && end.saved && end.resumed,
      c.writeAttempted, c.writeVerified, c.rollbackVerified, end.parked, end.resumed));
  }

  /** ChangeDiagnosticWaveformSource. Whatever fails, and wherever the process crashes, the journal
      and the session keep accounting for every register that differs from its original. Nothing is sent unless
      the crate has just been read and found to be the session's own. */
  method ChangeSource(w: World, s: Session, quad: nat, source: nat, ghost b0: Banks)
    returns (r: Step<ChangeResult>)
    requires Safe(w, s, b0) && PreviewElsewhere(s.record, quad)
    modifies w`selector, w`banks, w`vme, w`mvlc, w`trace, w`sent, w`journal, s`record, w`faulty, w`refusals, w`clock
    ensures old(w.faulty) ==> w.faulty
    ensures Safe(w, s, b0)
    ensures r.Done? ==> (r.value.admission == Rejected <==>
                           !old(ChangeAllowed(s.record, s.running, quad, source)) || s.journalPath == "")
    ensures !w.faulty && old(Owns(w, s)) ==> r.Done? && ((r.value.passed && r.value.resumed) || r.value.admission == Rejected)
    ensures w.sent != old(w.sent) || w.journal != old(w.journal) || (r.Done? && r.value.admission == Admitted) ==>
              old(Owns(w, s)) && OwnershipRead(w.adversary, old(w.clock), s.plan, old(s.record))
    ensures WithoutSource(s.record) == WithoutSource(old(s.record))
    ensures OnlyChanges(old(w.banks), w.banks, Loc(quad, SAMPLE_CONFIGURATION))
    ensures r.Done? && r.value.passed ==>
              var l := Loc(quad, SAMPLE_CONFIGURATION);
              && source <= 3 && IsLoc(l)
              && SourceLive(w, s, old(s.record), old(w.banks), quad, Requested(old(w.banks)[l], source))
              && w.sent == old(w.sent) + ChangeWrites(w.base, quad, old(w.banks)[l], Requested(old(w.banks)[l], source))
              && w.refusals == old(w.refusals)
    ensures r.Done? && r.value.rollbackVerified ==> w.banks == old(w.banks) && r.value.writeAttempted && !r.value.writeVerified
    ensures r.Done? && !r.value.writeAttempted ==> w.banks == old(w.banks)
    ensures r.Done? && r.value.parked ==> w.selector == 0
    ensures r.Done? && r.value.resumed ==>
              LocalValue(w.mvlc, DAQ_MODE) % 2 == 1 && (!w.faulty ==> w.Value(w.base + ACQUISITION_CONTROL) == 1)
    ensures r.Done? && r.value.admission != Admitted ==>
              && old(w.trace) <= w.trace && NoWrites(w.trace[|old(w.trace)|..]) && w.sent == old(w.sent)
              && w.banks == old(w.banks) && w.journal == old(w.journal) && s.record == old(s.record)
  {
    if !ChangeAllowed(s.record, s.running, quad, source) || s.journalPath == "" { return Done(Refused(Rejected)); }
    var fingerprint :- VerifyOwnership(w, s.plan, s.record);
    if fingerprint != Verified { return Done(Refused(NotOwner(fingerprint))); }
    r := TransactSource(w, s, quad, source, b0);
  }

  /** What putting the journaled source configuration back sends. */
  function RestoreWrites(base: nat, r: Record): seq<Event> {
    [SelectWrite(base, r.sourceQuad), SentVme(base + SAMPLE_CONFIGURATION, r.sourceOriginal), SelectWrite(base, 0)]
  }

  /** RestoreDiagnosticWaveformSource: puts the journaled original back, and clears the pending
      entry only once the original is read back and the selector is parked. */
  method RestoreSource(w: World, s: Session, alreadyVerifiedAndPaused: bool, ghost b0: Banks)
    returns (r: Step<ChangeResult>)
    requires Safe(w, s, b0)
    modifies w`selector, w`banks, w`vme, w`mvlc, w`trace, w`sent, w`journal, s`record, w`faulty, w`refusals, w`clock
    ensures old(w.faulty) ==> w.faulty
    ensures Safe(w, s, b0)
    ensures !w.faulty && s.journalPath != "" && (alreadyVerifiedAndPaused || old(Owns(w, s))) ==> r.Done? && r.value.passed
    ensures r.Done? && !old(s.record).sourceRestoreRequired ==> r.value.passed
    ensures r.Done? ==> !r.value.resumed && (r.value.writeVerified ==> r.value.writeAttempted) && r.value.rollbackVerified == r.value.writeVerified
    ensures (r.Done? && old(s.record).sourceRestoreRequired) ==> (r.value.admission == Rejected <==> s.journalPath == "")
    ensures w.sent != old(w.sent) && !alreadyVerifiedAndPaused ==>
              old(Owns(w, s)) && OwnershipRead(w.adversary, old(w.clock), s.plan, old(s.record))
    ensures w.banks != old(w.banks) && !alreadyVerifiedAndPaused ==> LocalValue(w.mvlc, DAQ_MODE) == 0
    ensures WithoutSource(s.record) == WithoutSource(old(s.record))
    ensures OnlyChanges(old(w.banks), w.banks, SourceLoc(old(s.record)))
    ensures !old(s.record).sourceRestoreRequired ==> w.banks == old(w.banks) && s.record == old(s.record)
    ensures r.Done? && r.value.passed ==> !s.record.sourceRestoreRequired
    ensures r.Done? && r.value.passed && old(s.record).sourceRestoreRequired ==>
              && s.record == WithoutSource(old(s.record)) && w.journal == Some(s.record)
              && w.selector == 0
              && w.banks == old(w.banks)[SourceLoc(old(s.record)) := old(s.record).sourceOriginal]
              && w.sent == old(w.sent) + (if alreadyVerifiedAndPaused then [] else PauseWrites(w.base)) + RestoreWrites(w.base, old(s.record)) && w.refusals == old(w.refusals)
    ensures r.Done? && r.value.admission != Admitted ==>
              && old(w.trace) <= w.trace && NoWrites(w.trace[|old(w.trace)|..])
              && w.banks == old(w.banks) && w.journal == old(w.journal) && s.record == old(s.record)
  {
    if !s.record.sourceRestoreRequired { return Done(Refused(Rejected).(passed := true)); }
    if s.journalPath == "" { return Done(Refused(Rejected)); }
    if !alreadyVerifiedAndPaused {
      var fingerprint :- VerifyOwnership(w, s.plan, s.record);
      if fingerprint != Verified { return Done(Refused(NotOwner(fingerprint))); }
      var paused :- Pause(w);
      if paused.Failed() { return Done(Refused(Admitted)); }
    }
    var end :- RestoreJournaled(w, s, b0);
    r := Done(ChangeResult(Admitted, end.verified && end.parked && end.dropped, end.attempted, end.verified, end.verified,
                           end.parked, false));
  }

  datatype Returned = Returned(attempted: bool, verified: bool, parked: bool, dropped: bool)

  /** Select, write the journaled original back, park, and drop the entry. */
  method RestoreJournaled(w: World, s: Session, ghost b0: Banks) returns (r: Step<Returned>)
    requires Safe(w, s, b0) && s.record.sourceRestoreRequired
    modifies w`selector, w`banks, w`vme, w`trace, w`sent, w`journal, s`record, w`faulty, w`refusals, w`clock
    ensures Safe(w, s, b0)
    ensures old(w.faulty) ==> w.faulty
    ensures !w.faulty ==> r == Done(Returned(true, true, true, true))
    ensures s.record == old(s.record) || s.record == WithoutSource(old(s.record))
    ensures OnlyChanges(old(w.banks), w.banks, SourceLoc(old(s.record)))
    ensures r.Done? && r.value.dropped ==>
              && s.record == WithoutSource(old(s.record)) && w.journal == Some(s.record) && w.refusals == old(w.refusals)
              && r.value.verified && r.value.parked
    ensures r.Done? && r.value.verified ==>
              r.value.attempted && w.banks == old(w.banks)[SourceLoc(old(s.record)) := old(s.record).sourceOriginal]
    ensures r.Done? ==> r.value.attempted == w.adversary(old(w.clock), StoreVme(w.base + SELECTOR_REGISTER, old(s.record).sourceQuad)).reported
    ensures r.Done? && r.value.parked ==> w.selector == 0
    ensures r.Done? ==>
              w.sent == old(w.sent) + if r.value.attempted then RestoreWrites(w.base, old(s.record)) else RestoreWrites(w.base, old(s.record))[..1]
  {
    var selected :- SelectQuad(w, s.record.sourceQuad);
    if !selected { return Done(Returned(false, false, false, false)); }
    RestoringKeepsCover(w.banks, b0, w.journal, s.record, SourceLoc(s.record));
    var verified :- WriteBanked(w, s.record.sourceQuad, SAMPLE_CONFIGURATION, s.record.sourceOriginal);
    var parked :- SelectQuad(w, 0);
    if !verified || !parked { return Done(Returned(true, verified, parked, false)); }
    var dropped :- DropSource(w, s, b0);
    r := Done(Returned(true, verified, parked, dropped));
  }
}
