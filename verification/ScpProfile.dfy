/** Configuration snapshots, their bank image, and the comparison of a profile with live hardware. */
module ScpProfile {
  import opened Words
  import opened ScpRegistry
  import opened Crate
  import opened Transaction

  const PROFILE_FORMAT_VERSION: u32 := 1
  const MDPP32_ID: u16 := 0x5007
  const MDPP32_ALTERNATE_ID: u16 := 0x500C
  const VALUE_COUNT: nat := 141

  type Four = s: seq<u16> | |s| == 4 witness [0, 0, 0, 0]

  datatype Quad = Quad(
    quad: u16, timingFilter: u16, poleZero: Four, gain: u16, thresholds: Four, shapingTime: u16,
    baselineRestorer: u16, resetTime: u16, signalRiseTime: u16, preSamples: u16, totalSamples: u16,
    sampleConfiguration: u16)

  /** Fw2051ScpQuadRegisterValue: the field a banked register is mirrored in. */
  function Get(quad: Quad, offset: nat): (value: Option<u16>)
    ensures value.Some? <==> IsSetting(offset)
  {
    if !IsSetting(offset) then None
    else if offset == TIMING_FILTER then Some(quad.timingFilter)
    else if offset <= 0x6118 then Some(quad.poleZero[(offset - 0x6112) / 2])
    else if offset == 0x611A then Some(quad.gain)
    else if offset <= 0x6122 then Some(quad.thresholds[(offset - 0x611C) / 2])
    else if offset == SHAPING_TIME then Some(quad.shapingTime)
    else if offset == 0x6126 then Some(quad.baselineRestorer)
    else if offset == 0x6128 then Some(quad.resetTime)
    else if offset == 0x612A then Some(quad.signalRiseTime)
    else if offset == PRE_SAMPLES then Some(quad.preSamples)
    else if offset == TOTAL_SAMPLES then Some(quad.totalSamples)
    else Some(quad.sampleConfiguration)
  }

  datatype Snapshot = Snapshot(
    complete: bool, parked: bool, base: u32, hardwareId: u16, firmware: u16, irqLevel: u16, outputFormat: u16,
    quads: seq<Quad>)

  datatype Profile = Profile(formatVersion: u32, configuration: Snapshot)

  /** ValidateFw2051ScpConfiguration. */
  predicate ValidConfiguration(c: Snapshot) {
    && c.complete && c.parked && c.base != 0
    && (c.hardwareId == MDPP32_ID || c.hardwareId == MDPP32_ALTERNATE_ID)
    && c.firmware / 0x1000 % 0x10 == 2 && c.firmware == FW2051
    && |c.quads| == QUAD_COUNT
    && forall i | 0 <= i < |c.quads| :: c.quads[i].quad == i
  }

  predicate Comparable(profile: Profile, live: Snapshot) {
    && profile.formatVersion == PROFILE_FORMAT_VERSION
    && ValidConfiguration(profile.configuration) && ValidConfiguration(live)
  }

  ghost function AllLocs(): set<Loc> {
    set q, r | 0 <= q < QUAD_COUNT && 0x6110 <= r <= 0x614A && IsSetting(r) :: Loc(q, r)
  }

  /** The banked registers a snapshot describes. */
  ghost function Bank(quads: seq<Quad>): (b: Banks)
    requires |quads| == QUAD_COUNT
    ensures Full(b)
  {
    assert forall l: Loc :: IsLoc(l) ==> l == Loc(l.quad, l.reg);
    map l | l in AllLocs() :: Get(quads[l.quad], l.reg).value
  }

  lemma BankValue(quads: seq<Quad>, q: nat, r: nat)
    requires |quads| == QUAD_COUNT && q < QUAD_COUNT && IsSetting(r)
    ensures Value(Bank(quads), Loc(q, r)) == Get(quads[q], r).value
  {
  }

  /** A difference outside the banks: its register, if it has one. */
  datatype GlobalDifference = GlobalDifference(reg: Option<u16>, profileValue: u32, liveValue: u32)

  /** Differences in the order they are listed: module-wide ones, then the banked ones. */
  datatype Comparison = Comparison(
    comparable: bool, valuesCompared: nat, globals: seq<GlobalDifference>, banked: seq<RegisterStep>)

  const INCOMPARABLE: Comparison := Comparison(false, 0, [], [])

  function GlobalIf(reg: Option<u16>, profileValue: u32, liveValue: u32): seq<GlobalDifference> {
    if profileValue == liveValue then [] else [GlobalDifference(reg, profileValue, liveValue)]
  }

  function GlobalDifferences(p: Snapshot, live: Snapshot): seq<GlobalDifference> {
    GlobalIf(None, p.base, live.base) + GlobalIf(Some(0x6008), p.hardwareId, live.hardwareId)
    + GlobalIf(Some(0x600E), p.firmware, live.firmware) + GlobalIf(Some(0x6010), p.irqLevel, live.irqLevel)
    + GlobalIf(Some(0x6044), p.outputFormat, live.outputFormat)
  }

  /** What a snapshot holds outside the banks: at a register, or the base address. */
  function GlobalValue(s: Snapshot, reg: Option<u16>): Option<u32> {
    match reg
    case None => Some(s.base)
    case Some(r) =>
      if r == 0x6008 then Some(s.hardwareId)
      else if r == 0x600E then Some(s.firmware)
      else if r == 0x6010 then Some(s.irqLevel)
      else if r == 0x6044 then Some(s.outputFormat)
      else None
  }

  /** A global difference is listed exactly where profile and module disagree, with the value of each. */
  lemma GlobalMembers(p: Snapshot, live: Snapshot, d: GlobalDifference)
    ensures d in GlobalDifferences(p, live) <==>
            && GlobalValue(p, d.reg) == Some(d.profileValue) && GlobalValue(live, d.reg) == Some(d.liveValue)
            && d.profileValue != d.liveValue
  {
    var ds := GlobalIf(None, p.base, live.base) + GlobalIf(Some(0x6008), p.hardwareId, live.hardwareId)
              + GlobalIf(Some(0x600E), p.firmware, live.firmware);
    assert d in GlobalDifferences(p, live) <==>
           || d in ds || d in GlobalIf(Some(0x6010), p.irqLevel, live.irqLevel)
           || d in GlobalIf(Some(0x6044), p.outputFormat, live.outputFormat);
  }

  /** Differences of the first `n` quads, registers in the order of a table. */
  function ListedIn(live: Banks, target: Banks, table: seq<u16>, n: nat): seq<RegisterStep> {
    if n == 0 then [] else ListedIn(live, target, table, n - 1) + Differing(live, target, n - 1, table)
  }

  /** Banked differences of the first `n` quads in registry order. */
  function Listed(live: Banks, target: Banks, n: nat): seq<RegisterStep> { ListedIn(live, target, REGISTRY, n) }

  lemma InConcat(xs: seq<RegisterStep>, ys: seq<RegisterStep>, s: RegisterStep)
    ensures s in xs + ys <==> s in xs || s in ys
  {
  }

  lemma {:induction false} ListedInMembers(live: Banks, target: Banks, table: seq<u16>, n: nat, s: RegisterStep)
    ensures s in ListedIn(live, target, table, n) <==>
            && s.quad < n && s.reg in table && s.expected == Value(live, At(s)) && s.value == Value(target, At(s))
            && s.expected != s.value
    decreases n
  {
    if n > 0 {
      var before: nat := n - 1;
      ListedInMembers(live, target, table, before, s);
      DifferingMembers(live, target, before, table, s);
      var listed, more := ListedIn(live, target, table, before), Differing(live, target, before, table);
      assert ListedIn(live, target, table, n) == listed + more;
      InConcat(listed, more, s);
    }
  }

  lemma RegistryListed(r: nat)
    ensures Distinct(REGISTRY) && (r in REGISTRY <==> IsSetting(r))
  {
    forall i | 0 <= i < |REGISTRY| ensures IsSetting(REGISTRY[i]) && TableIndex(REGISTRY[i]) == i { TableExact(0, i); }
    TableExact(r, 0);
  }

  /** A banked difference is listed exactly where the images disagree. */
  lemma ListedMembers(live: Banks, target: Banks, n: nat, s: RegisterStep)
    ensures s in Listed(live, target, n) <==>
            && s.quad < n && IsSetting(s.reg) && s.expected == Value(live, At(s)) && s.value == Value(target, At(s))
            && s.expected != s.value
  {
    ListedInMembers(live, target, REGISTRY, n, s);
    RegistryListed(s.reg);
  }

  /** Nothing is listed exactly when the images are equal. */
  lemma NothingListed(live: Banks, target: Banks)
    requires Full(live) && Full(target)
    ensures Listed(live, target, QUAD_COUNT) == [] <==> live == target
  {
    var listed := Listed(live, target, QUAD_COUNT);
    if listed != [] {
      ListedMembers(live, target, QUAD_COUNT, listed[0]);
    } else {
      forall l | l in live ensures live[l] == target[l] {
        ListedMembers(live, target, QUAD_COUNT, RegisterStep(l.quad, l.reg, live[l], target[l]));
      }
      assert live.Keys == target.Keys;
    }
  }

  /** Differences of one quad, appended in table order. */
  method CompareQuad(
    table: seq<u16>, index: nat, wanted: Quad, found: Quad, banked: seq<RegisterStep>, ghost live: Banks, ghost target: Banks)
    returns (compared: nat, more: seq<RegisterStep>)
    requires forall k | 0 <= k < |table| :: IsSetting(table[k])
    requires forall r | IsSetting(r) :: Value(live, Loc(index, r)) == Get(found, r).value
    requires forall r | IsSetting(r) :: Value(target, Loc(index, r)) == Get(wanted, r).value
    ensures compared == |table| && more == banked + Differing(live, target, index, table)
  {
    compared, more := 0, banked;
    for k := 0 to |table|
      invariant compared == k && more == banked + Differing(live, target, index, table[..k])
    {
      var profileValue, liveValue := Get(wanted, table[k]).value, Get(found, table[k]).value;
      assert table[..k + 1][..k] == table[..k];
      compared := compared + 1;
      if profileValue != liveValue { more := more + [RegisterStep(index, table[k], liveValue, profileValue)]; }
    }
    assert table[..|table|] == table;
  }

  /** CompareFw2051ScpConfiguration. */
  method Compare(profile: Profile, live: Snapshot) returns (c: Comparison)
    ensures c.comparable <==> Comparable(profile, live)
    ensures !c.comparable ==> c == INCOMPARABLE
    ensures c.comparable ==>
              && c.valuesCompared == VALUE_COUNT
              && c.globals == GlobalDifferences(profile.configuration, live)
              && c.banked == Listed(Bank(live.quads), Bank(profile.configuration.quads), QUAD_COUNT)
  {
    if profile.formatVersion != PROFILE_FORMAT_VERSION { return INCOMPARABLE; }
    if !ValidConfiguration(profile.configuration) || !ValidConfiguration(live) { return INCOMPARABLE; }
    var p := profile.configuration;
    var compared, banked := 5, [];
    forall k | 0 <= k < |REGISTRY| ensures IsSetting(REGISTRY[k]) { TableExact(0, k); }
    ghost var target, actual := Bank(p.quads), Bank(live.quads);
    for index := 0 to |p.quads|
      invariant compared == 5 + 17 * index && banked == Listed(actual, target, index)
    {
      forall r | IsSetting(r)
        ensures Value(actual, Loc(index, r)) == Get(live.quads[index], r).value
        ensures Value(target, Loc(index, r)) == Get(p.quads[index], r).value
      {
        BankValue(p.quads, index, r);
        BankValue(live.quads, index, r);
      }
      var count;
      count, banked := CompareQuad(REGISTRY, index, p.quads[index], live.quads[index], banked, actual, target);
      compared := compared + count;
    }
    return Comparison(true, compared, GlobalDifferences(p, live), banked);
  }
}
