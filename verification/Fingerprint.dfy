/** The diagnostic readout stack and the two independent checks of tuner ownership: the live check
    used while a session runs, and the journal check used by crash recovery. */
module Fingerprint {
  import opened Words
  import opened RecoveryRecord
  import opened Crate

  const DAQ_MODE: u16 := 0x1300
  const DAQ_ENABLE: u32 := 0xF
  const MVLC_HARDWARE_ID: u16 := 0x6008
  const MVLC_FIRMWARE: u16 := 0x600E
  const STACK_MEMORY_BEGIN: u16 := 0x2000
  const FINGERPRINT_COUNT: nat := 11

  datatype ReadoutPlan = ReadoutPlan(
    stackMemoryOffset: u16, stackOffsetRegister: u16, stackTriggerRegister: u16,
    triggerValue: u16, uploads: seq<LocalWrite>)

  predicate PlanPossible(mdppBase: u32, irqLevel: u16) {
    mdppBase % 0x1_0000 == 0 && 1 <= irqLevel <= 6
  }

  function StackWords(mdppBase: u32): seq<u32>
    requires mdppBase % 0x1_0000 == 0
  {
    [0xF301_0000, 0x1208_FFFF, mdppBase, 0x2309_0001, mdppBase + 0x6034, 1, 0xF400_0000]
  }

  /** The commands of a controller stack: begin with output to a pipe, a VME block read or write with its address
      modifier, and the end. */
  datatype StackCommand =
    | Begin(pipe: nat)
    | ReadBlock(modifier: nat, maximum: nat, address: u32)
    | WriteWord(modifier: nat, address: u32, value: u32)
    | End

  /** What stack words mean, none if they are no program. */
  function Program(words: seq<u32>): Option<seq<StackCommand>> {
    if words == [] then Some([])
    else
      var code := words[0] / 0x100_0000;
      if code == 0xF3 then Prefixed(Begin(words[0] / 0x1_0000 % 0x100), Program(words[1..]))
      else if code == 0xF4 && words[0] % 0x100_0000 == 0 then Prefixed(End, Program(words[1..]))
      else if code == 0x12 && |words| >= 2 then
        Prefixed(ReadBlock(words[0] / 0x1_0000 % 0x100, words[0] % 0x1_0000, words[1]), Program(words[2..]))
      else if code == 0x23 && |words| >= 3 && words[0] % 0x1_0000 == 1 then
        Prefixed(WriteWord(words[0] / 0x1_0000 % 0x100, words[1], words[2]), Program(words[3..]))
      else None
  }

  function Prefixed(c: StackCommand, rest: Option<seq<StackCommand>>): Option<seq<StackCommand>> {
    if rest.None? then None else Some([c] + rest.value)
  }

  /** The readout stack reads one event's block from the module's own address to the data pipe, and then resets
      that module's readout; it touches nothing else. */
  lemma StackReadsOneModule(base: u32)
    requires base % 0x1_0000 == 0
    ensures Program(StackWords(base))
         == Some([Begin(1), ReadBlock(0x08, 0xFFFF, base), WriteWord(0x09, base + 0x6034, 1), End])
  {
    var w1: seq<u32> := [0x1208_FFFF, base, 0x2309_0001, base + 0x6034, 1, 0xF400_0000];
    var w2: seq<u32> := [0x2309_0001, base + 0x6034, 1, 0xF400_0000];
    var w3: seq<u32> := [0xF400_0000];
    var w4: seq<u32> := [];
    assert w3[1..] == w4 && w2[3..] == w3 && w1[2..] == w2 && StackWords(base)[1..] == w1;
    assert Program(w4) == Some([]);
    assert Program(w3) == Prefixed(End, Program(w4));
    assert Program(w2) == Prefixed(WriteWord(0x09, base + 0x6034, 1), Program(w3));
    assert Program(w1) == Prefixed(ReadBlock(0x08, 0xFFFF, base), Program(w2));
    assert Program(StackWords(base)) == Prefixed(Begin(1), Program(w1));
    var read, write := ReadBlock(0x08, 0xFFFF, base), WriteWord(0x09, base + 0x6034, 1);
    assert [End] + [] == [End] && [write] + [End] == [write, End] && [read] + [write, End] == [read, write, End];
    assert [Begin(1)] + [read, write, End] == [Begin(1), read, write, End];
  }

  /** Closed form of the plan: stack 1, its offset and trigger registers, an IRQ trigger, and the
      seven stack words at consecutive local addresses. */
  function PlanFor(mdppBase: u32, irqLevel: u16): ReadoutPlan
    requires PlanPossible(mdppBase, irqLevel)
  {
    ReadoutPlan(0x200, 0x1204, 0x1104, 64 + irqLevel - 1,
      seq(7, i requires 0 <= i < 7 => LocalWrite(0x2200 + 4 * i, StackWords(mdppBase)[i])))
  }

  /** MakeMvlcSingleMdppReadoutPlan: builds the upload list with a running local address. */
  method MakeReadoutPlan(mdppBase: u32, irqLevel: u16) returns (r: Option<ReadoutPlan>)
    ensures r.Some? <==> PlanPossible(mdppBase, irqLevel)
    ensures r.Some? ==> r.value == PlanFor(mdppBase, irqLevel)
    ensures r.Some? ==>
              && r.value.triggerValue / 32 == 2 && r.value.triggerValue % 32 + 1 == irqLevel
              && r.value.stackOffsetRegister - 0x1200 == r.value.stackTriggerRegister - 0x1100 == 4
              && r.value.stackMemoryOffset == 4 * 128
              && forall i | 0 <= i < |r.value.uploads| ::
                   r.value.uploads[i].address == STACK_MEMORY_BEGIN + r.value.stackMemoryOffset + 4 * i
  {
    if mdppBase % 0x1_0000 != 0 { return None; }
    if irqLevel < 1 || irqLevel > 6 { return None; }
    var words := StackWords(mdppBase);
    var offset: u16 := 1 * 128 * 4;
    var localAddress: u16 := STACK_MEMORY_BEGIN + offset;
    var uploads: seq<LocalWrite> := [];
    for i := 0 to |words|
      invariant localAddress == 0x2200 + 4 * i
      invariant |uploads| == i
      invariant forall k | 0 <= k < i :: uploads[k] == LocalWrite(0x2200 + 4 * k, words[k])
    {
      uploads := uploads + [LocalWrite(localAddress, words[i])];
      localAddress := localAddress + 4;
    }
    r := Some(ReadoutPlan(offset, 0x1200 + 1 * 4, 0x1100 + 1 * 4, 2 * 32 + (irqLevel - 1), uploads));
    assert uploads == PlanFor(mdppBase, irqLevel).uploads;
  }

  /** The registers that identify a tuner-owned controller: DAQ mode, stack trigger, stack offset,
      the seven stack words and the ownership token. */
  function FingerprintAddresses(trigger: u16, offset: u16, uploads: seq<LocalWrite>, token: u16): (r: seq<u16>)
    ensures |r| == |uploads| + 4
  {
    [DAQ_MODE, trigger, offset] + seq(|uploads|, i requires 0 <= i < |uploads| => uploads[i].address) + [token]
  }

  function FingerprintValues(trigger: u32, offset: u32, uploads: seq<LocalWrite>, token: u32): (r: seq<u32>)
    ensures |r| == |uploads| + 4
  {
    [0, trigger, offset] + seq(|uploads|, i requires 0 <= i < |uploads| => uploads[i].value) + [token]
  }

  datatype LiveOutcome = Verified | ForeignFingerprint | CommunicationUnavailable

  function LiveAddresses(plan: ReadoutPlan, record: Record): seq<u16> {
    FingerprintAddresses(plan.stackTriggerRegister, plan.stackOffsetRegister, plan.uploads, record.ownershipTokenRegister)
  }

  /** VerifyDiagnosticOwnershipFingerprint after a successful batch read. */
  function LiveCheck(plan: ReadoutPlan, record: Record, values: seq<u32>): LiveOutcome
    requires |values| == |plan.uploads| + 4
  {
    if values[0] % 2 == 0 then ForeignFingerprint
    else if values[1] != plan.triggerValue || values[2] != plan.stackMemoryOffset then ForeignFingerprint
    else if exists i | 0 <= i < |plan.uploads| :: values[3 + i] != plan.uploads[i].value then ForeignFingerprint
    else if values[3 + |plan.uploads|] != record.ownershipTokenValue then ForeignFingerprint
    else Verified
  }

  /** The ownership check that starts at time `t` gets an answer. */
  predicate OwnershipRead(o: Adversary, t: nat, plan: ReadoutPlan, record: Record) {
    o(t, LoadLocals(LiveAddresses(plan, record))).reported
  }

  /** The live ownership check: one batch read of the whole fingerprint; sends no write. */
  method VerifyOwnership(w: World, plan: ReadoutPlan, record: Record) returns (r: Step<LiveOutcome>)
    modifies w`trace, w`faulty, w`refusals, w`clock
    ensures old(w.trace) <= w.trace && NoWrites(w.trace[|old(w.trace)|..])
    ensures old(w.faulty) ==> w.faulty
    ensures !w.faulty ==> r.Done? && r.value != CommunicationUnavailable
    ensures w.Harmless() ==> w.faulty == old(w.faulty)
    ensures r.Done? && r.value != CommunicationUnavailable ==>
              r.value == LiveCheck(plan, record, LocalValues(w.mvlc, LiveAddresses(plan, record)))
    ensures r.Done? ==> (r.value == CommunicationUnavailable <==> !OwnershipRead(w.adversary, old(w.clock), plan, record))
    ensures r.Done? && r.value != CommunicationUnavailable ==> w.refusals == old(w.refusals)
  {
    var read :- w.ReadLocal(LiveAddresses(plan, record));
    if read.None? { return Done(CommunicationUnavailable); }
    r := Done(LiveCheck(plan, record, read.value));
  }

  datatype Verdict = OrphanConfirmed | ForeignOrMismatched | AlreadyClean | IdleWithRestoration

  datatype Expectation = Expectation(addresses: seq<u16>, values: seq<u32>)

  predicate Reconstructible(record: Record) { PlanPossible(record.mdppBaseAddress, record.mdppIrqLevel) }

  function Expected(record: Record): (e: Expectation)
    requires Reconstructible(record)
    ensures |e.addresses| == FINGERPRINT_COUNT && |e.values| == FINGERPRINT_COUNT
  {
    var plan := PlanFor(record.mdppBaseAddress, record.mdppIrqLevel);
    Expectation(
      FingerprintAddresses(record.stackTriggerRegister, record.stackOffsetRegister, plan.uploads, record.ownershipTokenRegister),
      FingerprintValues(record.stackTriggerValue, record.stackOffsetValue, plan.uploads, record.ownershipTokenValue))
  }

  /** Fill the two fixed arrays by index. */
  method FillExpectation(record: Record, uploads: seq<LocalWrite>) returns (e: Expectation)
    requires |uploads| == 7
    ensures e.addresses == FingerprintAddresses(record.stackTriggerRegister, record.stackOffsetRegister, uploads,
                                                record.ownershipTokenRegister)
    ensures e.values == FingerprintValues(record.stackTriggerValue, record.stackOffsetValue, uploads, record.ownershipTokenValue)
  {
    ghost var a := FingerprintAddresses(record.stackTriggerRegister, record.stackOffsetRegister, uploads, record.ownershipTokenRegister);
    ghost var v := FingerprintValues(record.stackTriggerValue, record.stackOffsetValue, uploads, record.ownershipTokenValue);
    var addresses := new u16[FINGERPRINT_COUNT](i => 0);
    var values := new u32[FINGERPRINT_COUNT](i => 0);
    addresses[0], addresses[1], addresses[2] := DAQ_MODE, record.stackTriggerRegister, record.stackOffsetRegister;
    values[1], values[2] := record.stackTriggerValue, record.stackOffsetValue;
    var index := 3;
    while index < 10
      invariant 3 <= index <= 10
      invariant forall k | 0 <= k < index :: addresses[k] == a[k] && values[k] == v[k]
    {
      addresses[index] := uploads[index - 3].address;
      values[index] := uploads[index - 3].value;
      index := index + 1;
    }
    addresses[index] := record.ownershipTokenRegister;
    values[index] := record.ownershipTokenValue;
    e := Expectation(addresses[..], values[..]);
  }

  /** BuildTunerRecoveryFingerprintExpectation. */
  method BuildExpectation(record: Record) returns (r: Option<Expectation>)
    ensures r.Some? <==> Reconstructible(record)
    ensures r.Some? ==> r.value == Expected(record)
  {
    var readout := MakeReadoutPlan(record.mdppBaseAddress, record.mdppIrqLevel);
    if readout.None? || |readout.value.uploads| != 7 { return None; }
    var e := FillExpectation(record, readout.value.uploads);
    r := Some(e);
  }

  datatype LiveFingerprint = LiveFingerprint(mvlcHardwareId: u32, mvlcFirmwareRevision: u32, values: seq<u32>)

  /** What the journal check must answer, stated without its scan. */
  ghost function VerdictOf(record: Record, live: LiveFingerprint): Verdict
    requires |live.values| == FINGERPRINT_COUNT
  {
    if live.mvlcHardwareId != record.mvlcHardwareId || live.mvlcFirmwareRevision != record.mvlcFirmwareRevision then
      ForeignOrMismatched
    else if live.values[0] == 0 then
      if record.previewRestoreRequired || record.sourceRestoreRequired then IdleWithRestoration else AlreadyClean
    else if Reconstructible(record) && live.values[1..] == Expected(record).values[1..] then OrphanConfirmed
    else ForeignOrMismatched
  }

  /** EvaluateTunerRecoveryFingerprint: the scan that stops at the first mismatched field. */
  method EvaluateFingerprint(record: Record, live: LiveFingerprint) returns (verdict: Verdict)
    requires |live.values| == FINGERPRINT_COUNT
    ensures verdict == VerdictOf(record, live)
  {
    if live.mvlcHardwareId != record.mvlcHardwareId { return ForeignOrMismatched; }
    if live.mvlcFirmwareRevision != record.mvlcFirmwareRevision { return ForeignOrMismatched; }
    if live.values[0] == 0 {
      return if record.previewRestoreRequired || record.sourceRestoreRequired then IdleWithRestoration else AlreadyClean;
    }
    var expected := BuildExpectation(record);
    if expected.None? { return ForeignOrMismatched; }
    var index := 1;
    while index < |live.values|
      invariant 1 <= index <= FINGERPRINT_COUNT
      invariant forall k | 1 <= k < index :: live.values[k] == expected.value.values[k]
    {
      if live.values[index] != expected.value.values[index] {
        assert live.values[1..][index - 1] != expected.value.values[1..][index - 1];
        return ForeignOrMismatched;
      }
      index := index + 1;
    }
    assert live.values[1..] == expected.value.values[1..];
    return OrphanConfirmed;
  }

  /** A session built by Prepare: the record's fingerprint fields are copied from the plan for its
      own base address and IRQ level, and the token register follows the last stack word. */
  predicate Prepared(plan: ReadoutPlan, record: Record) {
    && PlanPossible(record.mdppBaseAddress, record.mdppIrqLevel)
    && plan == PlanFor(record.mdppBaseAddress, record.mdppIrqLevel)
    && record.stackTriggerRegister == plan.stackTriggerRegister && record.stackTriggerValue == plan.triggerValue
    && record.stackOffsetRegister == plan.stackOffsetRegister && record.stackOffsetValue == plan.stackMemoryOffset
    && record.ownershipTokenRegister == plan.uploads[6].address + 4
    && record.ownershipTokenValue != 0
  }

  /** What Prepare has established before it builds the recovery record. */
  datatype Preparation = Preparation(
    host: string, commandPort: u16, mvlcHardwareId: u32, mvlcFirmwareRevision: u32,
    targetBase: u32, hardwareId: u16, irqLevel: u16, outputFormat: u16,
    requestedToken: u32, randomToken: u32, isolated: seq<u32>)

  /** A preparation whose record the journal will take. */
  predicate Journalable(p: Preparation) {
    && 0 < |p.host| <= 255 && (forall i | 0 <= i < |p.host| :: PrintableNoSpace(p.host[i])) && p.commandPort != 0
    && p.mvlcHardwareId == 0x5008 && p.hardwareId in {0x5007, 0x500C}
    && p.targetBase != 0 && p.targetBase % 0x1_0000 == 0
    && |p.isolated| <= 15 && p.targetBase !in p.isolated && 0 !in p.isolated
    && (forall i | 0 <= i < |p.isolated| :: p.isolated[i] % 0x1_0000 == 0)
    && (forall i, j | 0 <= i < j < |p.isolated| :: p.isolated[i] != p.isolated[j])
  }

  /** Both restore entries are empty. */
  predicate NothingToRestore(r: Record) {
    r == r.(sourceRestoreRequired := false, sourceQuad := 0, sourceOriginal := 0, sourceAppliedAvailable := false, sourceApplied := 0,
            previewRestoreRequired := false, previewQuad := 0, previewRegister := 0, previewOriginal := 0, previewApplied := 0)
  }

  /** The readout plan and the recovery record of a new session: refused exactly when no plan is possible,
      and otherwise a prepared session with nothing to restore. */
  method PrepareRecord(p: Preparation) returns (r: Option<(ReadoutPlan, Record)>)
    requires p.randomToken != 0
    ensures r.Some? <==> PlanPossible(p.targetBase, p.irqLevel)
    ensures r.Some? ==>
              var record := r.value.1;
              && Prepared(r.value.0, record) && record.formatVersion == FORMAT_VERSION && record.phase == PHASE_PREPARED
              && record.host == p.host && record.commandPort == p.commandPort
              && record.mvlcHardwareId == p.mvlcHardwareId && record.mvlcFirmwareRevision == p.mvlcFirmwareRevision
              && record.mdppBaseAddress == p.targetBase && record.mdppHardwareId == p.hardwareId
              && record.mdppIrqLevel == p.irqLevel && record.mdppOutputFormat == p.outputFormat
              && record.isolated == p.isolated && NothingToRestore(record)
              && (ValidRecord(record) <==> Journalable(p))
  {
    var readout := MakeReadoutPlan(p.targetBase, p.irqLevel);
    if readout.None? { return None; }
    var plan := readout.value;
    var record := Record(
      FORMAT_VERSION, PHASE_PREPARED, p.host, p.commandPort, p.mvlcHardwareId, p.mvlcFirmwareRevision,
      p.targetBase, p.hardwareId, p.irqLevel, p.outputFormat,
      plan.stackTriggerRegister, plan.triggerValue, plan.stackOffsetRegister, plan.stackMemoryOffset,
      plan.uploads[|plan.uploads| - 1].address + 4, if p.requestedToken == 0 then p.randomToken else p.requestedToken,
      p.isolated, false, 0, 0, false, 0, false, 0, 0, 0, 0);
    r := Some((plan, record));
  }

  /** The controller memory as the journal check reads it. */
  function JournalView(mem: map<u16, u32>, record: Record): LiveFingerprint
    requires Reconstructible(record)
  {
    LiveFingerprint(record.mvlcHardwareId, record.mvlcFirmwareRevision, LocalValues(mem, Expected(record).addresses))
  }

  /** The two ownership checks agree on every controller memory with matching identity. */
  lemma OwnershipChecksAgree(plan: ReadoutPlan, record: Record, mem: map<u16, u32>)
    requires Prepared(plan, record)
    ensures LiveCheck(plan, record, LocalValues(mem, LiveAddresses(plan, record))) == Verified
            <==> LocalValue(mem, DAQ_MODE) % 2 == 1
                 && VerdictOf(record, JournalView(mem, record)) == OrphanConfirmed
  {
    var addresses := LiveAddresses(plan, record);
    assert addresses == Expected(record).addresses;
    var values := LocalValues(mem, addresses);
    var expected := Expected(record).values;
    assert expected[3 + 7] == record.ownershipTokenValue;
    assert forall i | 0 <= i < 7 :: expected[3 + i] == plan.uploads[i].value;
    if LiveCheck(plan, record, values) == Verified {
      forall k | 1 <= k < 11 ensures values[k] == expected[k] {
        if 3 <= k < 10 { assert values[3 + (k - 3)] == plan.uploads[k - 3].value; }
      }
      assert values[1..] == expected[1..];
    }
    if values[0] % 2 == 1 && VerdictOf(record, JournalView(mem, record)) == OrphanConfirmed {
      forall k | 1 <= k < 11 ensures values[k] == expected[k] {
        assert values[1..][k - 1] == expected[1..][k - 1];
      }
    }
  }

  /** Every controller-local write that a successful Start sends, in order. */
  function StartWrites(plan: ReadoutPlan, record: Record): seq<LocalWrite> {
    plan.uploads
    + [LocalWrite(record.ownershipTokenRegister, record.ownershipTokenValue),
       LocalWrite(plan.stackOffsetRegister, plan.stackMemoryOffset),
       LocalWrite(plan.stackTriggerRegister, 0),
       LocalWrite(plan.stackTriggerRegister, plan.triggerValue),
       LocalWrite(DAQ_MODE, DAQ_ENABLE)]
  }

  lemma {:induction false} Untouched(mem: map<u16, u32>, writes: seq<LocalWrite>, address: u16)
    requires forall k | 0 <= k < |writes| :: writes[k].address != address
    ensures LocalValue(ApplyWrites(mem, writes), address) == LocalValue(mem, address)
  {
    if writes != [] { Untouched(mem, writes[..|writes| - 1], address); }
  }

  /** The readout stack, its offset and the ownership token are in place. */
  predicate StackInPlace(plan: ReadoutPlan, record: Record, mem: map<u16, u32>) {
    && (forall i | 0 <= i < |plan.uploads| :: LocalValue(mem, plan.uploads[i].address) == plan.uploads[i].value)
    && LocalValue(mem, plan.stackOffsetRegister) == plan.stackMemoryOffset
    && LocalValue(mem, record.ownershipTokenRegister) == record.ownershipTokenValue
  }

  /** A start that stops anywhere never leaves a half-uploaded stack armed: the trigger is as before, off, or the
      plan's with the whole stack in place; and data taking is enabled only with the trigger set. */
  lemma StartNeverHalfArmed(plan: ReadoutPlan, record: Record, before: map<u16, u32>, k: nat)
    requires Prepared(plan, record) && k <= |StartWrites(plan, record)| && LocalValue(before, DAQ_MODE) == 0
    ensures var mem := ApplyWrites(before, StartWrites(plan, record)[..k]);
            var trigger := LocalValue(mem, plan.stackTriggerRegister);
            && (trigger in {LocalValue(before, plan.stackTriggerRegister), 0}
                || (trigger == plan.triggerValue && StackInPlace(plan, record, mem)))
            && (LocalValue(mem, DAQ_MODE) != 0 ==> trigger == plan.triggerValue && StackInPlace(plan, record, mem))
  {
    var writes := StartWrites(plan, record);
    assert |writes| == 12 && forall i | 0 <= i < 7 :: writes[i] == LocalWrite(0x2200 + 4 * i, plan.uploads[i].value);
    if k < 12 { Untouched(before, writes[..k], DAQ_MODE); }
    if k <= 9 {
      Untouched(before, writes[..k], plan.stackTriggerRegister);
    } else {
      StackStays(plan, record, before, writes[..k]);
      LastWriteWins(before, writes[..k], if k == 12 then 10 else k - 1);
    }
  }

  lemma StackStays(plan: ReadoutPlan, record: Record, before: map<u16, u32>, writes: seq<LocalWrite>)
    requires Prepared(plan, record) && |writes| >= 10 && writes <= StartWrites(plan, record)
    ensures StackInPlace(plan, record, ApplyWrites(before, writes))
  {
    var all := StartWrites(plan, record);
    assert forall i | 0 <= i < 7 :: all[i] == LocalWrite(0x2200 + 4 * i, plan.uploads[i].value);
    assert forall i | 0 <= i < |writes| :: writes[i] == all[i];
    forall i | 0 <= i < 9 ensures LocalValue(ApplyWrites(before, writes), writes[i].address) == writes[i].value {
      LastWriteWins(before, writes, i);
    }
    assert writes[7].address == record.ownershipTokenRegister && writes[8].address == plan.stackOffsetRegister;
    forall i | 0 <= i < |plan.uploads|
      ensures LocalValue(ApplyWrites(before, writes), plan.uploads[i].address) == plan.uploads[i].value
    {
      assert writes[i] == plan.uploads[i];
    }
  }

  /** The memory a successful Start leaves behind passes both checks, whatever was there before. */
  lemma StartSatisfiesBothChecks(plan: ReadoutPlan, record: Record, before: map<u16, u32>)
    requires Prepared(plan, record)
    ensures var mem := ApplyWrites(before, StartWrites(plan, record));
            && LiveCheck(plan, record, LocalValues(mem, LiveAddresses(plan, record))) == Verified
            && VerdictOf(record, JournalView(mem, record)) == OrphanConfirmed
  {
    var writes := StartWrites(plan, record);
    var mem := ApplyWrites(before, writes);
    assert |writes| == 12;
    assert forall i | 0 <= i < 7 :: writes[i] == LocalWrite(0x2200 + 4 * i, plan.uploads[i].value);
    forall k | 0 <= k < 12 && k != 9
      ensures LocalValue(mem, writes[k].address) == writes[k].value
    {
      LastWriteWins(before, writes, k);
    }
    var addresses := LiveAddresses(plan, record);
    var values := LocalValues(mem, addresses);
    assert forall i | 0 <= i < 7 :: addresses[3 + i] == writes[i].address;
    assert addresses[10] == writes[7].address && values[10] == record.ownershipTokenValue;
    assert values[0] == DAQ_ENABLE by { assert addresses[0] == writes[11].address; }
    assert values[1] == plan.triggerValue by { assert addresses[1] == writes[10].address; }
    assert values[2] == plan.stackMemoryOffset by { assert addresses[2] == writes[8].address; }
    assert forall i | 0 <= i < 7 :: values[3 + i] == plan.uploads[i].value;
    OwnershipChecksAgree(plan, record, mem);
  }
}
