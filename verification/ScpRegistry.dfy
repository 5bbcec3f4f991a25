/** The FW2051 SCP setting table: which registers are banked, which values they accept,
    and which pairs of registers constrain each other. */
module ScpRegistry {
  import opened Words

  const SELECTOR_REGISTER: u16 := 0x6100
  const SAMPLE_CONFIGURATION: u16 := 0x614A
  const TIMING_FILTER: u16 := 0x6110
  const SHAPING_TIME: u16 := 0x6124
  const PRE_SAMPLES: u16 := 0x6146
  const TOTAL_SAMPLES: u16 := 0x6148
  const QUAD_COUNT: nat := 8
  const BROADCAST: nat := 8
  const FW2051: u16 := 0x2051

  datatype ValueRule = Range | EvenRange | SampleConfiguration
  datatype DependencyRule = NoRule | NotAbove | NotBelow | LessThan | GreaterThan

  datatype Setting = Setting(
    offset: u16, minimum: u16, maximum: u16, valueRule: ValueRule,
    dependencyRule: DependencyRule, dependencyRegister: u16)

  function Plain(offset: u16, minimum: u16, maximum: u16): Setting {
    Setting(offset, minimum, maximum, Range, NoRule, 0)
  }

  /** Offsets of the seventeen banked registers in table order. */
  const REGISTRY: seq<u16> := [
    0x6110, 0x6112, 0x6114, 0x6116, 0x6118, 0x611A, 0x611C, 0x611E, 0x6120, 0x6122, 0x6124,
    0x6126, 0x6128, 0x612A, 0x6146, 0x6148, 0x614A
  ]

  /** Whether an offset names a banked setting: closed form of the table's offset column. */
  predicate IsSetting(offset: nat) {
    offset % 2 == 0 && (0x6110 <= offset <= 0x612A || 0x6146 <= offset <= 0x614A)
  }

  /** FindFw2051ScpSetting: the table entry with the given offset. */
  function FindSetting(offset: nat): (r: Option<Setting>)
    ensures r.Some? <==> IsSetting(offset)
    ensures r.Some? ==> r.value.offset == offset
  {
    if !IsSetting(offset) then None
    else Some(
      if offset == TIMING_FILTER then Setting(offset, 1, 125, Range, NotAbove, SHAPING_TIME)
      else if offset <= 0x6118 then Plain(offset, 64, 0xFFFF)
      else if offset == 0x611A then Plain(offset, 100, 20000)
      else if offset <= 0x6122 then Plain(offset, 0, 0xFFFF)
      else if offset == SHAPING_TIME then Setting(offset, 8, 1000, Range, NotBelow, TIMING_FILTER)
      else if offset == 0x6126 then Plain(offset, 0, 3)
      else if offset == 0x6128 then Plain(offset, 16, 1000)
      else if offset == 0x612A then Plain(offset, 0, 127)
      else if offset == PRE_SAMPLES then Setting(offset, 0, 488, Range, LessThan, TOTAL_SAMPLES)
      else if offset == TOTAL_SAMPLES then Setting(offset, 2, 488, EvenRange, GreaterThan, PRE_SAMPLES)
      else Setting(offset, 0, 0x00C3, SampleConfiguration, NoRule, 0))
  }

  /** Table position of a banked offset. */
  function TableIndex(offset: nat): (i: nat)
    requires IsSetting(offset)
    ensures i < 17
  {
    if offset <= 0x612A then (offset - 0x6110) / 2 else 14 + (offset - 0x6146) / 2
  }

  /** The table lists exactly the banked offsets, each once. */
  lemma TableExact(offset: nat, k: nat)
    requires k < |REGISTRY|
    ensures |REGISTRY| == 17
    ensures IsSetting(REGISTRY[k]) && TableIndex(REGISTRY[k]) == k
    ensures IsSetting(offset) ==> REGISTRY[TableIndex(offset)] == offset
  {
    if IsSetting(offset) {
      var i := TableIndex(offset);
      assert offset == if i < 14 then 0x6110 + 2 * i else 0x6146 + 2 * (i - 14);
    }
  }

  /** ValidateFw2051ScpSettingValue: true when the value is accepted. */
  predicate ValueAccepted(s: Setting, value: u16) {
    && (s.valueRule == SampleConfiguration ==> value < 0x100 && value / 4 % 16 == 0)
    && s.minimum <= value <= s.maximum
    && (s.valueRule == EvenRange ==> value % 2 == 0)
  }

  predicate ProfileValueAccepted(offset: nat, value: u16) {
    FindSetting(offset).Some? && ValueAccepted(FindSetting(offset).value, value)
  }

  predicate DependencySatisfied(s: Setting, value: u16, dependencyValue: u16) {
    match s.dependencyRule
    case NoRule => true
    case NotAbove => value <= dependencyValue
    case NotBelow => value >= dependencyValue
    case LessThan => value < dependencyValue
    case GreaterThan => value > dependencyValue
  }
}
