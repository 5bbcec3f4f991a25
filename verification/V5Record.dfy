/** The version 5 recovery record: evidence of an endpoint, an identity, a restore snapshot, and the
    ordered register deviations made since. */
module V5Record {
  import opened Words
  import opened ScpRegistry
  import opened ScpProfile
  import opened RecoveryRecord

  const MAXIMUM_DEVIATIONS: nat := 1024
  const MAXIMUM_ISOLATED: nat := 15
  const IRQ_LEVEL: u16 := 0x6010
  const OUTPUT_FORMAT: u16 := 0x6044

  datatype Phase = Home | Preparing | Goal | Group | AutomaticLearnSignal | AutomaticEnergy | AutomaticTiming
                 | Manual | GroupResult | Restoring | NextGroup | Finished

  datatype Scope = GlobalScope | QuadScope

  datatype Deviation = Deviation(
    ordinal: u32, scope: Scope, quad: Option<u16>, reg: u16, original: u16, previous: u16, requested: u16, phase: Phase)

  datatype EndpointKind = DirectEthernet | SshBridge

  datatype Endpoint = Endpoint(kind: EndpointKind, host: string, port: u16, destination: string, command: string)

  datatype Identity = Identity(
    mvlcHardwareId: u32, mvlcFirmware: u32, targetBase: u32, targetHardwareId: u16, targetFirmware: u16)

  datatype Ownership = Ownership(
    triggerRegister: u16, triggerValue: u32, offsetRegister: u16, offsetValue: u32,
    tokenRegister: u16, tokenValue: u32, isolated: seq<u32>)

  datatype Data = Data(
    phase: Phase, endpoint: Endpoint, identity: Identity, parkingRequired: bool,
    ownership: Option<Ownership>, snapshot: Option<Snapshot>, deviations: seq<Deviation>)

  /** IsSingleOpaqueArgument. */
  predicate OpaqueArgument(s: string, maximum: nat) {
    0 < |s| <= maximum && forall i | 0 <= i < |s| :: PrintableNoSpace(s[i])
  }

  /** ValidateControllerEndpoint. */
  predicate ValidEndpoint(e: Endpoint) {
    && OpaqueArgument(e.host, 255) && e.port != 0 && e.port != 0xFFFF
    && (e.kind == SshBridge ==> OpaqueArgument(e.destination, 255) && OpaqueArgument(e.command, 511))
  }

  predicate ValidIdentity(i: Identity) {
    && i.mvlcHardwareId == 0x5008 && i.mvlcFirmware == 0x0046
    && i.targetBase % 0x1_0000 == 0
    && (i.targetHardwareId == MDPP32_ID || i.targetHardwareId == MDPP32_ALTERNATE_ID) && i.targetFirmware == FW2051
  }

  predicate ValidOwnership(o: Ownership, i: Identity) {
    && o.triggerRegister != 0 && o.offsetRegister != 0 && o.tokenRegister != 0 && o.tokenValue != 0
    && |o.isolated| <= MAXIMUM_ISOLATED
    && (forall k | 0 <= k < |o.isolated| :: o.isolated[k] % 0x1_0000 == 0 && o.isolated[k] != i.targetBase)
    && (forall j, k | 0 <= j < k < |o.isolated| :: o.isolated[j] != o.isolated[k])
  }

  predicate ValidSnapshot(s: Snapshot, i: Identity) {
    && s.complete && s.parked
    && s.base == i.targetBase && s.hardwareId == i.targetHardwareId && s.firmware == i.targetFirmware
    && |s.quads| == QUAD_COUNT
    && forall k | 0 <= k < |s.quads| :: s.quads[k].quad == k
  }

  /** A register that a deviation can be about. */
  datatype Place = Global(reg: u16) | Banked(quad: u16, reg: u16)

  function PlaceOf(d: Deviation): Option<Place> {
    match d.scope
    case GlobalScope => if d.quad.Some? then None else Some(Global(d.reg))
    case QuadScope => if d.quad.None? then None else Some(Banked(d.quad.value, d.reg))
  }

  /** The snapshot's value of a place, if the snapshot covers it. */
  function Captured(s: Snapshot, p: Place): Option<u16> {
    match p
    case Global(reg) => if reg == IRQ_LEVEL then Some(s.irqLevel) else if reg == OUTPUT_FORMAT then Some(s.outputFormat) else None
    case Banked(quad, reg) => if quad < |s.quads| then Get(s.quads[quad], reg) else None
  }

  /** The value of a place after the snapshot has been changed by each deviation in turn. */
  function Replayed(s: Snapshot, ds: seq<Deviation>, p: Place): Option<u16> {
    if ds == [] then Captured(s, p)
    else if PlaceOf(ds[|ds| - 1]) == Some(p) then Some(ds[|ds| - 1].requested)
    else Replayed(s, ds[..|ds| - 1], p)
  }

  /** The next deviation records a real change of one covered register, as replay finds it. */
  predicate Continues(s: Snapshot, ds: seq<Deviation>, d: Deviation) {
    && d.ordinal == |ds| && PlaceOf(d).Some?
    && Captured(s, PlaceOf(d).value) == Some(d.original)
    && Replayed(s, ds, PlaceOf(d).value) == Some(d.previous)
    && d.requested != d.previous
  }

  /** An ordered history of real single-register changes starting from the snapshot. */
  predicate IsHistory(s: Snapshot, ds: seq<Deviation>) {
    ds != [] ==> IsHistory(s, ds[..|ds| - 1]) && Continues(s, ds[..|ds| - 1], ds[|ds| - 1])
  }

  /** ValidateV5Data. */
  predicate ValidData(d: Data) {
    && ValidEndpoint(d.endpoint) && ValidIdentity(d.identity)
    && (d.ownership.Some? ==> ValidOwnership(d.ownership.value, d.identity))
    && match d.snapshot
       case None => d.phase == Preparing && d.deviations == []
       case Some(s) => ValidSnapshot(s, d.identity) && |d.deviations| <= MAXIMUM_DEVIATIONS && IsHistory(s, d.deviations)
  }
}

/** The chain validator and the live-value classifier. */
module V5Chain {
  import opened Words
  import opened ScpRegistry
  import opened ScpProfile
  import opened V5Record

  /** SnapshotValue. */
  function SnapshotValue(s: Snapshot, d: Deviation): (value: Option<u16>)
    ensures value == if PlaceOf(d).Some? then Captured(s, PlaceOf(d).value) else None
  {
    if d.scope == GlobalScope then
      if d.quad.Some? then None
      else if d.reg == IRQ_LEVEL then Some(s.irqLevel)
      else if d.reg == OUTPUT_FORMAT then Some(s.outputFormat)
      else None
    else if d.quad.None? || d.quad.value >= |s.quads| || FindSetting(d.reg).None? then None
    else Get(s.quads[d.quad.value], d.reg)
  }

  /** DeviationLocationKey: scope, quad and register packed into disjoint bit fields. */
  function LocationKey(d: Deviation): nat {
    (if d.scope == QuadScope then 0x1_0000_0000 else 0) + (if d.quad.Some? then d.quad.value * 0x1_0000 else 0) + d.reg
  }

  /** The packed key separates places. */
  lemma KeyInjective(a: Deviation, b: Deviation)
    requires PlaceOf(a).Some? && PlaceOf(b).Some?
    ensures LocationKey(a) == LocationKey(b) <==> PlaceOf(a) == PlaceOf(b)
  {
  }

  /** The map holds, under packed keys, exactly what replay has changed. */
  ghost predicate Tracks(working: map<nat, u16>, s: Snapshot, ds: seq<Deviation>) {
    forall d: Deviation | PlaceOf(d).Some? ::
      Replayed(s, ds, PlaceOf(d).value)
      == if LocationKey(d) in working then Some(working[LocationKey(d)]) else Captured(s, PlaceOf(d).value)
  }

  lemma TracksOneMore(working: map<nat, u16>, s: Snapshot, ds: seq<Deviation>, d: Deviation)
    requires Tracks(working, s, ds) && PlaceOf(d).Some?
    ensures Tracks(working[LocationKey(d) := d.requested], s, ds + [d])
  {
    assert (ds + [d])[..|ds|] == ds;
    forall e: Deviation | PlaceOf(e).Some?
      ensures Replayed(s, ds + [d], PlaceOf(e).value)
           == if LocationKey(e) in working[LocationKey(d) := d.requested]
              then Some(working[LocationKey(d) := d.requested][LocationKey(e)]) else Captured(s, PlaceOf(e).value)
    {
      KeyInjective(d, e);
    }
  }

  lemma HistoryOneMore(s: Snapshot, ds: seq<Deviation>, i: nat)
    requires i < |ds|
    ensures IsHistory(s, ds[..i + 1]) <==> IsHistory(s, ds[..i]) && Continues(s, ds[..i], ds[i])
  {
    assert ds[..i + 1][..i] == ds[..i];
  }

  lemma {:induction false} HistoryPrefix(s: Snapshot, ds: seq<Deviation>, i: nat)
    requires IsHistory(s, ds) && i <= |ds|
    ensures IsHistory(s, ds[..i])
    decreases |ds|
  {
    if i < |ds| {
      HistoryPrefix(s, ds[..|ds| - 1], i);
      assert ds[..|ds| - 1][..i] == ds[..i];
    } else {
      assert ds[..i] == ds;
    }
  }

  /** The deviation loop of ValidateV5Data accepts exactly the histories. */
  method ValidateDeviations(s: Snapshot, ds: seq<Deviation>) returns (ok: bool)
    ensures ok <==> |ds| <= MAXIMUM_DEVIATIONS && IsHistory(s, ds)
  {
    if |ds| > MAXIMUM_DEVIATIONS { return false; }
    var working: map<nat, u16> := map[];
    for index := 0 to |ds|
      invariant IsHistory(s, ds[..index]) && Tracks(working, s, ds[..index])
    {
      var d := ds[index];
      HistoryOneMore(s, ds, index);
      if IsHistory(s, ds) { HistoryPrefix(s, ds, index + 1); }
      if d.ordinal != index { return false; }
      var original := SnapshotValue(s, d);
      if original.None? || original.value != d.original { return false; }
      var key := LocationKey(d);
      var expectedPrevious := if key in working then working[key] else original.value;
      assert Replayed(s, ds[..index], PlaceOf(d).value) == Some(expectedPrevious);
      if d.previous != expectedPrevious || d.requested == expectedPrevious { return false; }
      TracksOneMore(working, s, ds[..index], d);
      assert ds[..index] + [d] == ds[..index + 1];
      working := working[key := d.requested];
    }
    assert ds[..|ds|] == ds;
    return true;
  }

  /** ValidateV5Data. */
  method ValidateData(d: Data) returns (ok: bool)
    ensures ok <==> ValidData(d)
  {
    if !ValidEndpoint(d.endpoint) || !ValidIdentity(d.identity) { return false; }
    if d.ownership.Some? && !ValidOwnership(d.ownership.value, d.identity) { return false; }
    if d.snapshot.None? { return d.phase == Preparing && d.deviations == []; }
    if !ValidSnapshot(d.snapshot.value, d.identity) { return false; }
    ok := ValidateDeviations(d.snapshot.value, d.deviations);
  }

  datatype Action = BlockAndRetain | NoWriteAlreadyOriginal | RestoreOriginal

  /** ClassifyTunerRecoveryV5LiveValue: the first of the three known values that the live one equals. */
  function Classify(d: Deviation, live: u16): (a: Action)
    ensures a == BlockAndRetain <==> live != d.original && live != d.previous && live != d.requested
    ensures a == NoWriteAlreadyOriginal <==> live == d.original
  {
    if live == d.original then NoWriteAlreadyOriginal
    else if live == d.previous then RestoreOriginal
    else if live == d.requested then RestoreOriginal
    else BlockAndRetain
  }

  /** Deviation `j` is the latest of its place. */
  predicate Latest(ds: seq<Deviation>, j: nat) {
    j < |ds| && forall k | j < k < |ds| :: PlaceOf(ds[k]) != PlaceOf(ds[j])
  }

  /** The live value of a place if the crash came during the last recorded write: that write may or may
      not have happened, all earlier ones have. */
  predicate LiveAfterCrash(s: Snapshot, ds: seq<Deviation>, p: Place, live: u16) {
    || Replayed(s, ds, p) == Some(live)
    || (ds != [] && Replayed(s, ds[..|ds| - 1], p) == Some(live))
  }

  lemma {:induction false} LatestReplayed(s: Snapshot, ds: seq<Deviation>, j: nat)
    requires Latest(ds, j) && PlaceOf(ds[j]).Some?
    ensures Replayed(s, ds, PlaceOf(ds[j]).value) == Some(ds[j].requested)
    decreases |ds|
  {
    if j < |ds| - 1 { LatestReplayed(s, ds[..|ds| - 1], j); }
  }

  /** After a crash during the last write, the classifier on the place's latest deviation never blocks,
      names the snapshot value as the one to restore, and skips the write only if that value is live. */
  lemma {:induction false} CrashNeverBlocks(s: Snapshot, ds: seq<Deviation>, j: nat, live: u16)
    requires IsHistory(s, ds) && Latest(ds, j) && PlaceOf(ds[j]).Some?
    requires LiveAfterCrash(s, ds, PlaceOf(ds[j]).value, live)
    ensures Classify(ds[j], live) != BlockAndRetain
    ensures Captured(s, PlaceOf(ds[j]).value) == Some(ds[j].original)
    ensures Classify(ds[j], live) == NoWriteAlreadyOriginal <==> Captured(s, PlaceOf(ds[j]).value) == Some(live)
  {
    HistoryPrefix(s, ds, j + 1);
    assert ds[..j + 1][..j] == ds[..j];
    LatestReplayed(s, ds, j);
    if j < |ds| - 1 { LatestReplayed(s, ds[..|ds| - 1], j); }
  }
}
