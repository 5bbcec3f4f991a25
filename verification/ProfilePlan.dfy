/** The planners that turn a profile comparison into an ordered transaction. */
module ProfilePlan {
  import opened Words
  import opened ScpRegistry
  import opened Crate
  import opened Transaction
  import opened WriteOrder
  import opened ScpProfile

  datatype Plan = Plan(success: bool, valuesCompared: nat, differences: nat, steps: seq<RegisterStep>)

  /** Every value of the profile is one its register accepts. */
  predicate QuadAccepted(quad: Quad) {
    && (forall k | 0 <= k < |REGISTRY| :: Get(quad, REGISTRY[k]).Some? && ProfileValueAccepted(REGISTRY[k], Get(quad, REGISTRY[k]).value))
    && quad.timingFilter <= quad.shapingTime && quad.preSamples < quad.totalSamples
  }

  /** When the banked planner accepts: comparable, nothing module-wide differs, and a sound profile. */
  predicate Plannable(profile: Profile, live: Snapshot) {
    && Comparable(profile, live)
    && GlobalDifferences(profile.configuration, live) == []
    && forall q | 0 <= q < QUAD_COUNT :: QuadAccepted(profile.configuration.quads[q])
  }

  /** The planned order and the table order visit the same registers of a quad. */
  lemma SameRegisters(live: Banks, target: Banks, q: nat)
    requires Full(live) && Full(target) && q < QUAD_COUNT
    ensures Locs(q, QuadOrder(live, target, q)) == Locs(q, REGISTRY)
  {
    var order := QuadOrder(live, target, q);
    OrderListed(live, target, q);
    forall l: Loc ensures l in Locs(q, order) <==> l in Locs(q, REGISTRY) {
      if l.reg < 0x1_0000 {
        RegistryListed(l.reg);
        InLocs(q, l.reg, l.quad, order);
        InLocs(q, l.reg, l.quad, REGISTRY);
      }
    }
  }

  lemma QuadDifferencesPlanned(live: Banks, target: Banks, q: nat)
    requires Full(live) && Full(target) && q < QUAD_COUNT
    ensures |QuadSteps(live, target, q)| == |Differing(live, target, q, REGISTRY)|
  {
    RegistryListed(0);
    forall i | 0 <= i < |REGISTRY| ensures IsLoc(Loc(q, REGISTRY[i])) { TableExact(0, i); }
    OrderListed(live, target, q);
    DifferingCount(live, target, q, QuadOrder(live, target, q));
    DifferingCount(live, target, q, REGISTRY);
    SameRegisters(live, target, q);
  }

  lemma {:induction false} AsManyPlanned(live: Banks, target: Banks, table: seq<u16>, n: nat)
    requires forall q: nat | q < n :: |QuadSteps(live, target, q)| == |Differing(live, target, q, table)|
    ensures |PlannedSteps(live, target, n)| == |ListedIn(live, target, table, n)|
    decreases n
  {
    if n > 0 { AsManyPlanned(live, target, table, n - 1); }
  }

  /** The plan has one step per listed difference. */
  lemma EveryDifferencePlanned(live: Banks, target: Banks, n: nat)
    requires Full(live) && Full(target) && n <= QUAD_COUNT
    ensures |PlannedSteps(live, target, n)| == |Listed(live, target, n)|
  {
    forall q: nat | q < n ensures |QuadSteps(live, target, q)| == |Differing(live, target, q, REGISTRY)| {
      QuadDifferencesPlanned(live, target, q);
    }
    AsManyPlanned(live, target, REGISTRY, n);
  }

  lemma AcceptedCoupled(quads: seq<Quad>)
    requires |quads| == QUAD_COUNT
    ensures (forall q | 0 <= q < QUAD_COUNT :: QuadAccepted(quads[q])) ==> Coupled(Bank(quads))
  {
  }

  /** Look the difference up and append it as a step, if there is one. */
  method AddDifference(
    differences: seq<RegisterStep>, steps: seq<RegisterStep>, quad: nat, reg: u16,
    ghost live: Banks, ghost target: Banks, ghost before: seq<RegisterStep>, ghost done: seq<u16>)
    returns (more: seq<RegisterStep>)
    requires differences == Listed(live, target, QUAD_COUNT) && quad < QUAD_COUNT && IsSetting(reg)
    requires steps == before + Differing(live, target, quad, done)
    ensures more == before + Differing(live, target, quad, done + [reg])
  {
    ghost var wanted := RegisterStep(quad, reg, Value(live, Loc(quad, reg)), Value(target, Loc(quad, reg)));
    ListedMembers(live, target, QUAD_COUNT, wanted);
    assert (done + [reg])[..|done|] == done;
    for i := 0 to |differences|
      invariant forall j | 0 <= j < i :: differences[j].quad != quad || differences[j].reg != reg
    {
      if differences[i].quad == quad && differences[i].reg == reg {
        ListedMembers(live, target, QUAD_COUNT, differences[i]);
        assert differences[i] == wanted;
        return steps + [differences[i]];
      }
    }
    return steps;
  }

  /** The two registers of a coupled pair, in their planned order. */
  method AddPair(
    differences: seq<RegisterStep>, steps: seq<RegisterStep>, quad: nat, constrained: u16, boundary: u16,
    currentBoundary: u16, targetConstrained: u16, targetBoundary: u16,
    ghost live: Banks, ghost target: Banks, ghost before: seq<RegisterStep>, ghost done: seq<u16>)
    returns (ok: bool, more: seq<RegisterStep>)
    requires differences == Listed(live, target, QUAD_COUNT) && quad < QUAD_COUNT && IsPair(constrained, boundary)
    requires currentBoundary == Value(live, Loc(quad, boundary))
    requires targetConstrained == Value(target, Loc(quad, constrained)) && targetBoundary == Value(target, Loc(quad, boundary))
    requires steps == before + Differing(live, target, quad, done)
    ensures ok <==> && ProfileValueAccepted(constrained, targetConstrained) && ProfileValueAccepted(boundary, targetBoundary)
                    && Related(constrained, targetConstrained, targetBoundary)
    ensures ok ==> more == before + Differing(live, target, quad, done + PairOrder(live, target, quad, constrained, boundary))
  {
    OrderPlanned(live, target, quad, constrained, boundary);
    var planned := CoupledWriteOrder(constrained, boundary, currentBoundary, targetConstrained, targetBoundary);
    if planned.None? { return false, []; }
    more := AddTwo(differences, steps, quad, planned.value, live, target, before, done);
    ok := true;
  }

  /** What the coupled planner answers for the pair of a quad. */
  lemma OrderPlanned(live: Banks, target: Banks, quad: nat, c: u16, b: u16)
    requires quad < QUAD_COUNT && IsPair(c, b)
    ensures var tc, tb := Value(target, Loc(quad, c)), Value(target, Loc(quad, b));
            CoupledWriteOrder(c, b, Value(live, Loc(quad, b)), tc, tb)
            == if ProfileValueAccepted(c, tc) && ProfileValueAccepted(b, tb) && Related(c, tc, tb)
               then Some(PairOrder(live, target, quad, c, b)) else None
    ensures PairOrder(live, target, quad, c, b) in {[c, b], [b, c]} && IsSetting(c) && IsSetting(b)
  {
    var tc, tb := Value(target, Loc(quad, c)), Value(target, Loc(quad, b));
    CoupledOrderSafe(c, b, 0, Value(live, Loc(quad, b)), tc, tb);
  }

  /** Two registers in a given order. */
  method AddTwo(
    differences: seq<RegisterStep>, steps: seq<RegisterStep>, quad: nat, order: seq<u16>,
    ghost live: Banks, ghost target: Banks, ghost before: seq<RegisterStep>, ghost done: seq<u16>)
    returns (more: seq<RegisterStep>)
    requires differences == Listed(live, target, QUAD_COUNT) && quad < QUAD_COUNT
    requires |order| == 2 && IsSetting(order[0]) && IsSetting(order[1])
    requires steps == before + Differing(live, target, quad, done)
    ensures more == before + Differing(live, target, quad, done + order)
  {
    more := AddDifference(differences, steps, quad, order[0], live, target, before, done);
    more := AddDifference(differences, more, quad, order[1], live, target, before, done + [order[0]]);
    assert done + [order[0]] + [order[1]] == done + order;
  }

  /** The steps of one quad: independent registers, then the two coupled pairs. */
  method AddQuad(
    differences: seq<RegisterStep>, steps: seq<RegisterStep>, quad: nat, current: Quad, wanted: Quad,
    ghost live: Banks, ghost target: Banks)
    returns (ok: bool, more: seq<RegisterStep>)
    requires differences == Listed(live, target, QUAD_COUNT) && quad < QUAD_COUNT
    requires Mirrors(current, live, quad) && Mirrors(wanted, target, quad)
    ensures QuadAccepted(wanted) ==> ok
    ensures ok ==> more == steps + QuadSteps(live, target, quad)
  {
    more := steps;
    assert steps + Differing(live, target, quad, INDEPENDENT[..0]) == steps;
    for k := 0 to |INDEPENDENT|
      invariant more == steps + Differing(live, target, quad, INDEPENDENT[..k])
    {
      IndependentExact(0, k);
      more := AddDifference(differences, more, quad, INDEPENDENT[k], live, target, steps, INDEPENDENT[..k]);
      assert INDEPENDENT[..k] + [INDEPENDENT[k]] == INDEPENDENT[..k + 1];
    }
    assert INDEPENDENT[..|INDEPENDENT|] == INDEPENDENT;
    ok, more := AddPair(differences, more, quad, TIMING_FILTER, SHAPING_TIME, current.shapingTime,
                        wanted.timingFilter, wanted.shapingTime, live, target, steps, INDEPENDENT);
    if QuadAccepted(wanted) { PairValuesAccepted(wanted); }
    if !ok { return; }
    ok, more := AddPair(differences, more, quad, PRE_SAMPLES, TOTAL_SAMPLES, current.totalSamples,
                        wanted.preSamples, wanted.totalSamples, live, target, steps,
                        INDEPENDENT + PairOrder(live, target, quad, TIMING_FILTER, SHAPING_TIME));
  }

  lemma PairValuesAccepted(quad: Quad)
    requires QuadAccepted(quad)
    ensures ProfileValueAccepted(TIMING_FILTER, quad.timingFilter) && ProfileValueAccepted(SHAPING_TIME, quad.shapingTime)
    ensures ProfileValueAccepted(PRE_SAMPLES, quad.preSamples) && ProfileValueAccepted(TOTAL_SAMPLES, quad.totalSamples)
  {
    assert REGISTRY[0] == TIMING_FILTER && REGISTRY[10] == SHAPING_TIME;
    assert REGISTRY[14] == PRE_SAMPLES && REGISTRY[15] == TOTAL_SAMPLES;
  }

  /** The coupled fields of a quad record are those of a bank. */
  predicate Mirrors(quad: Quad, b: Banks, q: nat) {
    && quad.timingFilter == Value(b, Loc(q, TIMING_FILTER)) && quad.shapingTime == Value(b, Loc(q, SHAPING_TIME))
    && quad.preSamples == Value(b, Loc(q, PRE_SAMPLES)) && quad.totalSamples == Value(b, Loc(q, TOTAL_SAMPLES))
  }

  lemma BankMirrors(quads: seq<Quad>, q: nat)
    requires |quads| == QUAD_COUNT && q < QUAD_COUNT
    ensures Mirrors(quads[q], Bank(quads), q)
  {
  }

  /** All values of a quad, checked one register at a time. */
  method CheckQuad(quad: Quad) returns (ok: bool)
    ensures ok <==> QuadAccepted(quad)
  {
    for k := 0 to |REGISTRY|
      invariant forall j | 0 <= j < k :: Get(quad, REGISTRY[j]).Some? && ProfileValueAccepted(REGISTRY[j], Get(quad, REGISTRY[j]).value)
    {
      var value := Get(quad, REGISTRY[k]);
      if value.None? || !ProfileValueAccepted(REGISTRY[k], value.value) { return false; }
    }
    return quad.timingFilter <= quad.shapingTime && quad.preSamples < quad.totalSamples;
  }

  /** The steps of all quads; none is refused when every quad of the profile is accepted. */
  method AddQuads(differences: seq<RegisterStep>, live: seq<Quad>, target: seq<Quad>)
    returns (ok: bool, steps: seq<RegisterStep>)
    requires |live| == |target| == QUAD_COUNT && differences == Listed(Bank(live), Bank(target), QUAD_COUNT)
    requires forall q | 0 <= q < |target| :: QuadAccepted(target[q])
    ensures ok && steps == PlannedSteps(Bank(live), Bank(target), QUAD_COUNT)
  {
    ghost var from, to := Bank(live), Bank(target);
    steps := [];
    for q := 0 to |live|
      invariant steps == PlannedSteps(from, to, q)
    {
      BankMirrors(live, q);
      BankMirrors(target, q);
      ok, steps := AddQuad(differences, steps, q, live[q], target[q], from, to);
      if !ok { return; }
    }
    ok := true;
  }

  /** PlanFw2051ScpProfileApplication. It succeeds on every plannable pair, so neither the coupled-order
      refusal nor the unaccounted-difference refusal can fire. */
  method PlanProfileApplication(profile: Profile, live: Snapshot) returns (plan: Plan)
    ensures plan.success <==> Plannable(profile, live)
    ensures !plan.success ==> plan.steps == []
    ensures plan.success ==>
              && plan.valuesCompared == VALUE_COUNT && plan.differences == |plan.steps|
              && plan.steps == PlannedSteps(Bank(live.quads), Bank(profile.configuration.quads), QUAD_COUNT)
  {
    var comparison := Compare(profile, live);
    plan := Plan(false, comparison.valuesCompared, |comparison.globals| + |comparison.banked|, []);
    if !comparison.comparable || |comparison.globals| > 0 { return; }
    var target := profile.configuration.quads;
    for q := 0 to |target|
      invariant forall j | 0 <= j < q :: QuadAccepted(target[j])
    {
      var ok := CheckQuad(target[q]);
      if !ok { return; }
    }
    var ok, steps := AddQuads(comparison.banked, live.quads, target);
    EveryDifferencePlanned(Bank(live.quads), Bank(target), QUAD_COUNT);
    if !ok || |steps| != |comparison.banked| { return; }
    plan := plan.(success := true, steps := steps);
  }

  /** From any live configuration that satisfies the coupled constraints: every prefix of an accepted plan
      keeps them in all quads, undoing an executed prefix in reverse (down to any point) keeps them and
      returns to the states passed on the way, and the whole plan leaves no difference. */
  lemma AppliedProfile(profile: Profile, live: Snapshot, k: nat, n: nat)
    requires Plannable(profile, live) && Coupled(Bank(live.quads))
    requires k <= n <= |PlannedSteps(Bank(live.quads), Bank(profile.configuration.quads), QUAD_COUNT)|
    ensures var b, target := Bank(live.quads), Bank(profile.configuration.quads);
            var steps := PlannedSteps(b, target, QUAD_COUNT);
            && Coupled(WriteAll(b, steps[..n]))
            && UndoAll(WriteAll(b, steps[..n]), steps[k..n]) == WriteAll(b, steps[..k])
            && UndoAll(WriteAll(b, steps[..n]), steps[0..n]) == b
            && Listed(WriteAll(b, steps), target, QUAD_COUNT) == []
  {
    var b, target := Bank(live.quads), Bank(profile.configuration.quads);
    var steps := PlannedSteps(b, target, QUAD_COUNT);
    AcceptedCoupled(profile.configuration.quads);
    PlanArrives(b, target);
    PrefixSafe(b, steps, n);
    UndoRetraces(b, steps, k, n);
    UndoRetraces(b, steps, 0, n);
    NothingListed(target, target);
  }

  const REQUIRED_IRQ: u16 := 1
  const REQUIRED_FORMAT: u16 := 0x0018

  datatype StartupPlan = StartupPlan(
    success: bool, valuesCompared: nat, differences: nat, contractDifferences: nat, bankedDifferences: nat,
    application: Option<Plan>)

  /** The live configuration with the two module-wide values that the startup preparation owns. */
  function Prepared(live: Snapshot): Snapshot { live.(irqLevel := REQUIRED_IRQ, outputFormat := REQUIRED_FORMAT) }

  predicate StartupReady(profile: Profile, live: Snapshot) {
    && profile.configuration.hardwareId == MDPP32_ID && live.hardwareId == MDPP32_ID
    && profile.configuration.irqLevel == REQUIRED_IRQ && profile.configuration.outputFormat == REQUIRED_FORMAT
    && Plannable(profile, Prepared(live))
  }

  predicate IsContract(d: GlobalDifference) { d.reg == Some(0x6010) || d.reg == Some(0x6044) }

  /** Only the two contract registers differ module-wide exactly when preparing them leaves no difference. */
  lemma ContractOnly(p: Snapshot, live: Snapshot)
    requires p.irqLevel == REQUIRED_IRQ && p.outputFormat == REQUIRED_FORMAT
    ensures GlobalDifferences(p, Prepared(live)) == [] <==>
            forall i | 0 <= i < |GlobalDifferences(p, live)| :: IsContract(GlobalDifferences(p, live)[i])
  {
    var ds := GlobalDifferences(p, live);
    var first := GlobalIf(None, p.base, live.base) + GlobalIf(Some(0x6008), p.hardwareId, live.hardwareId)
                 + GlobalIf(Some(0x600E), p.firmware, live.firmware);
    assert GlobalDifferences(p, Prepared(live)) == first + [] + [];
    if first != [] { assert ds[0] == first[0] && !IsContract(first[0]); }
  }

  /** PlanFw2051ScpStandaloneStartup. */
  method PlanStandaloneStartup(profile: Profile, live: Snapshot) returns (plan: StartupPlan)
    ensures plan.success <==> StartupReady(profile, live)
    ensures plan.success ==>
              && plan.valuesCompared == VALUE_COUNT
              && plan.differences == plan.contractDifferences + plan.bankedDifferences
              && plan.application.Some? && |plan.application.value.steps| == plan.bankedDifferences
              && plan.application.value.steps
                 == PlannedSteps(Bank(live.quads), Bank(profile.configuration.quads), QUAD_COUNT)
    ensures !plan.success ==> plan.application.None?
    ensures Comparable(profile, live) ==>
              && plan.valuesCompared == VALUE_COUNT
              && plan.differences == |GlobalDifferences(profile.configuration, live)|
                                     + |Listed(Bank(live.quads), Bank(profile.configuration.quads), QUAD_COUNT)|
    ensures !Comparable(profile, live) ==> plan == StartupPlan(false, 0, 0, 0, 0, None)
  {
    var comparison := Compare(profile, live);
    plan := StartupPlan(false, comparison.valuesCompared, |comparison.globals| + |comparison.banked|, 0, 0, None);
    if !comparison.comparable { return; }
    var target := profile.configuration;
    if || target.hardwareId != MDPP32_ID || target.firmware != FW2051
       || live.hardwareId != MDPP32_ID || live.firmware != FW2051 { return; }
    if target.irqLevel != REQUIRED_IRQ || target.outputFormat != REQUIRED_FORMAT { return; }
    ContractOnly(target, live);
    for i := 0 to |comparison.globals|
      invariant forall j | 0 <= j < i :: IsContract(comparison.globals[j])
    {
      if !IsContract(comparison.globals[i]) { return; }
    }
    var contract, banked := |comparison.globals|, |comparison.banked|;
    var application := PlanProfileApplication(profile, Prepared(live));
    if !application.success { return; }
    EveryDifferencePlanned(Bank(live.quads), Bank(target.quads), QUAD_COUNT);
    if |application.steps| != banked { return; }
    plan := plan.(success := true, contractDifferences := contract, bankedDifferences := banked, application := Some(application));
  }
}
