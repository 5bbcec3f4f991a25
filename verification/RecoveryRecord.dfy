/** The tuner recovery record (journal formats 1 to 4) and its validation rules. */
module RecoveryRecord {
  import opened Words

  const PHASE_PREPARED: u16 := 1
  const PHASE_ACTIVE: u16 := 2
  const FORMAT_VERSION: u32 := 4

  datatype Record = Record(
    formatVersion: u32,
    phase: u16,
    host: string,
    commandPort: u16,
    mvlcHardwareId: u32,
    mvlcFirmwareRevision: u32,
    mdppBaseAddress: u32,
    mdppHardwareId: u16,
    mdppIrqLevel: u16,
    mdppOutputFormat: u16,
    stackTriggerRegister: u16,
    stackTriggerValue: u32,
    stackOffsetRegister: u16,
    stackOffsetValue: u32,
    ownershipTokenRegister: u16,
    ownershipTokenValue: u32,
    isolated: seq<u32>,
    sourceRestoreRequired: bool,
    sourceQuad: u16,
    sourceOriginal: u16,
    sourceAppliedAvailable: bool,
    sourceApplied: u16,
    previewRestoreRequired: bool,
    previewQuad: u16,
    previewRegister: u16,
    previewOriginal: u16,
    previewApplied: u16)

  /** Two configurations that differ at most in the two waveform-source bits. */
  predicate SameUpperBits(a: u16, b: u16) { a / 4 == b / 4 }

  predicate PrintableNoSpace(c: char) { c as int > 0x20 && c as int != 0x7F }

  predicate ValidHost(host: string) {
    && 0 < |host| <= 255
    && forall i | 0 <= i < |host| :: PrintableNoSpace(host[i])
  }

  predicate ValidIsolated(r: Record) {
    && |r.isolated| <= 15
    && (forall i | 0 <= i < |r.isolated| ::
          r.isolated[i] != 0 && r.isolated[i] % 0x1_0000 == 0 && r.isolated[i] != r.mdppBaseAddress)
    && (forall i, j | 0 <= i < j < |r.isolated| :: r.isolated[i] != r.isolated[j])
  }

  predicate ValidSourceFields(r: Record) {
    && (r.sourceRestoreRequired ==> r.sourceQuad <= 7)
    && (r.formatVersion < 4 ==> !r.sourceAppliedAvailable)
    && (r.formatVersion >= 4 && r.sourceRestoreRequired ==> r.sourceAppliedAvailable)
    && (r.sourceAppliedAvailable ==>
          r.sourceApplied != r.sourceOriginal && SameUpperBits(r.sourceApplied, r.sourceOriginal))
    && (!r.sourceRestoreRequired ==> !r.sourceAppliedAvailable)
  }

  predicate ValidRecord(r: Record) {
    && 1 <= r.formatVersion <= FORMAT_VERSION
    && (r.phase == PHASE_PREPARED || r.phase == PHASE_ACTIVE)
    && ValidHost(r.host) && r.commandPort != 0
    && r.mvlcHardwareId == 0x5008
    && r.mdppBaseAddress != 0 && r.mdppBaseAddress % 0x1_0000 == 0
    && (r.mdppHardwareId == 0x5007 || r.mdppHardwareId == 0x500C)
    && 1 <= r.mdppIrqLevel <= 6
    && r.stackTriggerRegister != 0 && r.stackOffsetRegister != 0
    && r.ownershipTokenRegister != 0 && r.ownershipTokenValue != 0
    && (r.formatVersion == 1 ==> r.isolated == [])
    && ValidIsolated(r)
    && (r.previewRestoreRequired ==> r.previewQuad <= 7 && r.previewRegister != 0)
    && ValidSourceFields(r)
  }
}
