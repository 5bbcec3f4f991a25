/** Ordered register transactions between two bank images: what a walk through them visits. */
module Transaction {
  import opened Words
  import opened ScpRegistry
  import opened Crate

  /** One planned write: location, the value expected before it, and the value written. */
  datatype RegisterStep = RegisterStep(quad: nat, reg: u16, expected: u16, value: u16)

  function At(s: RegisterStep): Loc { Loc(s.quad, s.reg) }

  /** Exactly the banked registers of the eight quads have a value. */
  ghost predicate Full(b: Banks) { forall l: Loc :: l in b <==> IsLoc(l) }

  predicate Ordered(b: Banks, q: nat) {
    && Loc(q, TIMING_FILTER) in b && Loc(q, SHAPING_TIME) in b
    && Loc(q, PRE_SAMPLES) in b && Loc(q, TOTAL_SAMPLES) in b
    && b[Loc(q, TIMING_FILTER)] <= b[Loc(q, SHAPING_TIME)]
    && b[Loc(q, PRE_SAMPLES)] < b[Loc(q, TOTAL_SAMPLES)]
  }

  /** Both coupled constraints hold in all quads. */
  predicate Coupled(b: Banks) { forall q: nat | q < QUAD_COUNT :: Ordered(b, q) }

  function Value(b: Banks, l: Loc): u16 { if l in b then b[l] else 0 }

  function Write(b: Banks, s: RegisterStep): Banks { b[At(s) := s.value] }

  function WriteAll(b: Banks, steps: seq<RegisterStep>): Banks {
    if steps == [] then b else Write(WriteAll(b, steps[..|steps| - 1]), steps[|steps| - 1])
  }

  /** Put the steps back, the last one first. */
  function UndoAll(b: Banks, steps: seq<RegisterStep>): Banks
    decreases |steps|
  {
    if steps == [] then b
    else UndoAll(b[At(steps[|steps| - 1]) := steps[|steps| - 1].expected], steps[..|steps| - 1])
  }

  predicate Finds(b: Banks, s: RegisterStep) { At(s) in b && b[At(s)] == s.expected }

  /** Each step finds the value it expects, and every state on the way satisfies the constraints. */
  predicate SafeWalk(b: Banks, steps: seq<RegisterStep>) {
    && Coupled(WriteAll(b, steps))
    && (steps != [] ==>
          SafeWalk(b, steps[..|steps| - 1]) && Finds(WriteAll(b, steps[..|steps| - 1]), steps[|steps| - 1]))
  }

  lemma WalkOn(b: Banks, steps: seq<RegisterStep>, s: RegisterStep)
    ensures WriteAll(b, steps + [s]) == Write(WriteAll(b, steps), s)
    ensures SafeWalk(b, steps + [s]) <==>
            SafeWalk(b, steps) && Finds(WriteAll(b, steps), s) && Coupled(Write(WriteAll(b, steps), s))
  {
  }

  lemma {:induction false} WalkConcat(b: Banks, xs: seq<RegisterStep>, ys: seq<RegisterStep>)
    ensures WriteAll(b, xs + ys) == WriteAll(WriteAll(b, xs), ys)
    ensures SafeWalk(b, xs) && SafeWalk(WriteAll(b, xs), ys) ==> SafeWalk(b, xs + ys)
    decreases |ys|
  {
    if ys == [] {
      assert xs + ys == xs;
    } else {
      var front, last := ys[..|ys| - 1], ys[|ys| - 1];
      WalkConcat(b, xs, front);
      assert xs + ys == (xs + front) + [last];
      WalkOn(b, xs + front, last);
    }
  }

  predicate Walks(b: Banks, steps: seq<RegisterStep>, end: Banks) { SafeWalk(b, steps) && WriteAll(b, steps) == end }

  lemma WalksCompose(a: Banks, xs: seq<RegisterStep>, b: Banks, ys: seq<RegisterStep>, c: Banks)
    requires Walks(a, xs, b) && Walks(b, ys, c)
    ensures Walks(a, xs + ys, c)
  {
    WalkConcat(a, xs, ys);
  }

  /** Every prefix of a safe walk is safe. */
  lemma {:induction false} PrefixSafe(b: Banks, steps: seq<RegisterStep>, n: nat)
    requires SafeWalk(b, steps) && n <= |steps|
    ensures SafeWalk(b, steps[..n]) && Coupled(WriteAll(b, steps[..n]))
    decreases |steps|
  {
    if n < |steps| {
      var front := steps[..|steps| - 1];
      PrefixSafe(b, front, n);
      assert front[..n] == steps[..n];
    } else {
      assert steps[..n] == steps;
    }
  }

  /** Undoing any executed prefix in reverse passes only through states the walk had visited. */
  lemma {:induction false} UndoRetraces(b: Banks, steps: seq<RegisterStep>, k: nat, n: nat)
    requires SafeWalk(b, steps) && k <= n <= |steps|
    ensures UndoAll(WriteAll(b, steps[..n]), steps[k..n]) == WriteAll(b, steps[..k])
    ensures Coupled(UndoAll(WriteAll(b, steps[..n]), steps[k..n]))
    decreases n
  {
    PrefixSafe(b, steps, k);
    if k < n {
      PrefixSafe(b, steps, n);
      var before, last := WriteAll(b, steps[..n - 1]), steps[n - 1];
      assert steps[..n][..n - 1] == steps[..n - 1];
      assert Write(before, last)[At(last) := last.expected] == before;
      assert steps[k..n][..n - 1 - k] == steps[k..n - 1];
      UndoRetraces(b, steps, k, n - 1);
    }
  }

  /** The steps that carry the listed registers of one quad from `live` to `target`. */
  function Differing(live: Banks, target: Banks, q: nat, regs: seq<u16>): seq<RegisterStep> {
    if regs == [] then []
    else
      var last := regs[|regs| - 1];
      var was, wanted := Value(live, Loc(q, last)), Value(target, Loc(q, last));
      Differing(live, target, q, regs[..|regs| - 1])
      + if was == wanted then [] else [RegisterStep(q, last, was, wanted)]
  }

  function Locs(q: nat, regs: seq<u16>): set<Loc> { set i | 0 <= i < |regs| :: Loc(q, regs[i]) }

  predicate Distinct(regs: seq<u16>) { forall i, j | 0 <= i < j < |regs| :: regs[i] != regs[j] }

  /** `live` with the locations in `done` already at their target. */
  function Mix(live: Banks, target: Banks, done: set<Loc>): Banks {
    map l | l in live :: if l in done && l in target then target[l] else live[l]
  }

  /** Moving one more location to its target is the write of its step, or nothing if it agrees. */
  lemma MixOneMore(live: Banks, target: Banks, done: set<Loc>, l: Loc)
    requires l in live && l in target && l !in done
    ensures Mix(live, target, done)[l] == live[l]
    ensures Mix(live, target, done + {l})
            == (if live[l] == target[l] then Mix(live, target, done) else Mix(live, target, done)[l := target[l]])
  {
  }

  /** Walking through the differing registers of one quad, when every mixture met is safe. */
  lemma {:induction false} DifferingWalk(live: Banks, target: Banks, q: nat, regs: seq<u16>, done: set<Loc>)
    requires Distinct(regs)
    requires forall i | 0 <= i < |regs| :: Loc(q, regs[i]) in live && Loc(q, regs[i]) in target && Loc(q, regs[i]) !in done
    requires forall k | 0 <= k <= |regs| :: Coupled(Mix(live, target, done + Locs(q, regs[..k])))
    ensures var steps := Differing(live, target, q, regs);
            && SafeWalk(Mix(live, target, done), steps)
            && WriteAll(Mix(live, target, done), steps) == Mix(live, target, done + Locs(q, regs))
  {
    assert regs[..|regs|] == regs;
    if regs == [] {
      assert done + Locs(q, regs) == done;
    } else {
      var front, l := regs[..|regs| - 1], Loc(q, regs[|regs| - 1]);
      forall k | 0 <= k <= |front| ensures Coupled(Mix(live, target, done + Locs(q, front[..k]))) {
        assert front[..k] == regs[..k];
      }
      DifferingWalk(live, target, q, front, done);
      LocsOneMore(q, front, regs[|regs| - 1]);
      assert regs == front + [regs[|regs| - 1]];
      assert done + Locs(q, regs) == (done + Locs(q, front)) + {l};
      MixOneMore(live, target, done + Locs(q, front), l);
      var steps := Differing(live, target, q, front);
      if live[l] == target[l] {
        assert steps + [] == steps;
      } else {
        WalkOn(Mix(live, target, done), steps, RegisterStep(q, l.reg, live[l], target[l]));
      }
    }
  }

  lemma LocsOneMore(q: nat, regs: seq<u16>, r: u16)
    ensures Locs(q, regs + [r]) == Locs(q, regs) + {Loc(q, r)}
    ensures Loc(q, r) in Locs(q, regs) ==> r in regs
  {
    var more := regs + [r];
    forall l | l in Locs(q, regs) ensures l in Locs(q, more) {
      var i :| 0 <= i < |regs| && l == Loc(q, regs[i]);
      assert l == Loc(q, more[i]);
    }
    assert Loc(q, more[|regs|]) == Loc(q, r);
  }

  /** The differing locations of a set. */
  function Unequal(live: Banks, target: Banks, at: set<Loc>): set<Loc> {
    set l | l in at && l in live && l in target && live[l] != target[l]
  }

  /** How many listed registers differ depends on the set of registers, not on their order. */
  lemma {:induction false} DifferingCount(live: Banks, target: Banks, q: nat, regs: seq<u16>)
    requires forall i | 0 <= i < |regs| :: Loc(q, regs[i]) in live && Loc(q, regs[i]) in target
    requires Distinct(regs)
    ensures |Differing(live, target, q, regs)| == |Unequal(live, target, Locs(q, regs))|
  {
    if regs != [] {
      var front, last := regs[..|regs| - 1], regs[|regs| - 1];
      DifferingCount(live, target, q, front);
      LocsOneMore(q, front, last);
      var l := Loc(q, last);
      assert regs == front + [last];
      var before := Unequal(live, target, Locs(q, front));
      assert l !in before;
      assert Unequal(live, target, Locs(q, regs)) == if live[l] != target[l] then before + {l} else before;
    }
  }

  /** A step is listed exactly for a listed register that differs. */
  lemma {:induction false} DifferingMembers(live: Banks, target: Banks, q: nat, regs: seq<u16>, s: RegisterStep)
    ensures s in Differing(live, target, q, regs) <==>
            && s.quad == q && s.reg in regs && s.expected == Value(live, At(s)) && s.value == Value(target, At(s))
            && s.expected != s.value
  {
    if regs != [] {
      var front := regs[..|regs| - 1];
      DifferingMembers(live, target, q, front, s);
      assert regs == front + [regs[|regs| - 1]];
    }
  }
}

/** The order in which a quad's registers are moved to a profile. */
module WriteOrder {
  import opened Words
  import opened ScpRegistry
  import opened Crate
  import opened Transaction

  /** Fw2051ScpIndependentRegisterOrder. */
  const INDEPENDENT: seq<u16> := [
    0x6112, 0x6114, 0x6116, 0x6118, 0x611A, 0x611C, 0x611E, 0x6120, 0x6122, 0x6126, 0x6128, 0x612A, 0x614A
  ]

  /** PlanFw2051ScpCoupledWriteOrder: which of a coupled pair is written first, or a refusal. */
  function CoupledWriteOrder(
    constrained: u16, boundary: u16, currentBoundary: u16, targetConstrained: u16, targetBoundary: u16): Option<seq<u16>>
  {
    var c, b := FindSetting(constrained), FindSetting(boundary);
    if || c.None? || b.None?
       || c.value.dependencyRule == NoRule || b.value.dependencyRule == NoRule
       || c.value.dependencyRegister != boundary || b.value.dependencyRegister != constrained then None
    else if !ProfileValueAccepted(constrained, targetConstrained) then None
    else if !ProfileValueAccepted(boundary, targetBoundary) then None
    else if || !DependencySatisfied(c.value, targetConstrained, targetBoundary)
            || !DependencySatisfied(b.value, targetBoundary, targetConstrained) then None
    else if DependencySatisfied(c.value, targetConstrained, currentBoundary) then Some([constrained, boundary])
    else Some([boundary, constrained])
  }

  /** The relation of a coupled pair, for either kind of pair. */
  predicate Related(constrained: u16, c: u16, b: u16) { if constrained == TIMING_FILTER then c <= b else c < b }

  predicate IsPair(constrained: u16, boundary: u16) {
    (constrained == TIMING_FILTER && boundary == SHAPING_TIME) || (constrained == PRE_SAMPLES && boundary == TOTAL_SAMPLES)
  }

  /** The order is refused exactly for bad targets, and is safe from every valid pair: the state between
      the two writes satisfies the relation too. */
  lemma CoupledOrderSafe(constrained: u16, boundary: u16, c0: u16, b0: u16, c1: u16, b1: u16)
    requires IsPair(constrained, boundary)
    ensures CoupledWriteOrder(constrained, boundary, b0, c1, b1).Some? <==>
            ProfileValueAccepted(constrained, c1) && ProfileValueAccepted(boundary, b1) && Related(constrained, c1, b1)
    ensures CoupledWriteOrder(constrained, boundary, b0, c1, b1).Some? && Related(constrained, c0, b0) ==>
              var order := CoupledWriteOrder(constrained, boundary, b0, c1, b1).value;
              || (order == [constrained, boundary] && Related(constrained, c1, b0))
              || (order == [boundary, constrained] && Related(constrained, c0, b1))
  {
  }

  /** The relation with the operands in their registers' roles: writing the constrained register first. */
  function PairOrder(live: Banks, target: Banks, q: nat, constrained: u16, boundary: u16): seq<u16>
  {
    if Related(constrained, Value(target, Loc(q, constrained)), Value(live, Loc(q, boundary)))
    then [constrained, boundary] else [boundary, constrained]
  }

  /** All seventeen registers of a quad in the order they are moved. */
  function QuadOrder(live: Banks, target: Banks, q: nat): seq<u16> {
    INDEPENDENT + PairOrder(live, target, q, TIMING_FILTER, SHAPING_TIME)
    + PairOrder(live, target, q, PRE_SAMPLES, TOTAL_SAMPLES)
  }

  predicate IsCoupledRegister(r: nat) { r in {TIMING_FILTER, SHAPING_TIME, PRE_SAMPLES, TOTAL_SAMPLES} }

  /** Position of a register in the independent order. */
  function IndependentIndex(r: nat): nat
    requires IsSetting(r) && !IsCoupledRegister(r)
  {
    if r <= 0x6122 then (r - 0x6112) / 2 else if r <= 0x612A then 9 + (r - 0x6126) / 2 else 12
  }

  lemma IndependentExact(r: nat, i: nat)
    requires i < |INDEPENDENT|
    ensures IsSetting(INDEPENDENT[i]) && !IsCoupledRegister(INDEPENDENT[i]) && IndependentIndex(INDEPENDENT[i]) == i
    ensures IsSetting(r) && !IsCoupledRegister(r) ==>
              IndependentIndex(r) < |INDEPENDENT| && INDEPENDENT[IndependentIndex(r)] == r
  {
    if IsSetting(r) && !IsCoupledRegister(r) {
      var k := IndependentIndex(r);
      assert r == if k < 9 then 0x6112 + 2 * k else if k < 12 then 0x6126 + 2 * (k - 9) else 0x614A;
    }
  }

  /** Four registers in two pairs, each pair in either order. */
  predicate PairsOrder(p: seq<u16>) {
    && |p| == 4
    && (p[..2] == [TIMING_FILTER, SHAPING_TIME] || p[..2] == [SHAPING_TIME, TIMING_FILTER])
    && (p[2..] == [PRE_SAMPLES, TOTAL_SAMPLES] || p[2..] == [TOTAL_SAMPLES, PRE_SAMPLES])
  }

  /** Each banked register occurs exactly once. */
  lemma OrderExact(pairs: seq<u16>, r: nat)
    requires PairsOrder(pairs)
    ensures Distinct(INDEPENDENT + pairs)
    ensures r in INDEPENDENT + pairs <==> IsSetting(r)
  {
    var order := INDEPENDENT + pairs;
    assert pairs[0] == pairs[..2][0] && pairs[1] == pairs[..2][1];
    assert pairs[2] == pairs[2..][0] && pairs[3] == pairs[2..][1];
    assert forall i | 13 <= i < 17 :: order[i] == pairs[i - 13];
    forall i | 0 <= i < |INDEPENDENT| ensures order[i] == INDEPENDENT[i] && IsSetting(order[i])
                                              && !IsCoupledRegister(order[i]) && IndependentIndex(order[i]) == i {
      IndependentExact(r, i);
    }
    IndependentExact(r, 0);
    if IsSetting(r) {
      if IsCoupledRegister(r) {
        assert r in pairs;
      } else {
        assert order[IndependentIndex(r)] == r;
      }
    }
  }

  lemma InPrefix(order: seq<u16>, i: nat, k: nat)
    requires Distinct(order) && i < |order| && k <= |order|
    ensures order[i] in order[..k] <==> i < k
  {
  }

  lemma InLocs(q: nat, r: u16, at: nat, regs: seq<u16>)
    ensures Loc(at, r) in Locs(q, regs) <==> at == q && r in regs
  {
  }

  /** A mixture in which one register of a pair may be ahead of the other, in the planned order. */
  lemma PairStaysRelated(live: Banks, target: Banks, q: nat, c: u16, b: u16, cDone: bool, bDone: bool)
    requires IsPair(c, b) && Ordered(live, q) && Ordered(target, q)
    requires PairOrder(live, target, q, c, b) == [c, b] ==> bDone ==> cDone
    requires PairOrder(live, target, q, c, b) == [b, c] ==> cDone ==> bDone
    ensures Related(c, if cDone then target[Loc(q, c)] else live[Loc(q, c)],
                       if bDone then target[Loc(q, b)] else live[Loc(q, b)])
  {
  }

  function QuadsBelow(n: nat, live: Banks): set<Loc> { set l | l in live && l.quad < n }

  /** Between any two writes of a quad both constraints hold in all quads. */
  lemma MixtureCoupled(live: Banks, target: Banks, q: nat, k: nat)
    requires Full(live) && Full(target) && Coupled(live) && Coupled(target) && q < QUAD_COUNT
    requires k <= |QuadOrder(live, target, q)|
    ensures Coupled(Mix(live, target, QuadsBelow(q, live) + Locs(q, QuadOrder(live, target, q)[..k])))
  {
    var order := QuadOrder(live, target, q);
    var done := QuadsBelow(q, live) + Locs(q, order[..k]);
    var mix := Mix(live, target, done);
    var first, second := PairOrder(live, target, q, TIMING_FILTER, SHAPING_TIME), PairOrder(live, target, q, PRE_SAMPLES, TOTAL_SAMPLES);
    assert order == INDEPENDENT + (first + second);
    assert order[13] == first[0] && order[14] == first[1] && order[15] == second[0] && order[16] == second[1];
    OrderExact(first + second, 0);
    forall i | 13 <= i < 17 ensures order[i] in order[..k] <==> i < k { InPrefix(order, i, k); }
    PairStaysRelated(live, target, q, TIMING_FILTER, SHAPING_TIME, TIMING_FILTER in order[..k], SHAPING_TIME in order[..k]);
    PairStaysRelated(live, target, q, PRE_SAMPLES, TOTAL_SAMPLES, PRE_SAMPLES in order[..k], TOTAL_SAMPLES in order[..k]);
    forall at: nat | at < QUAD_COUNT ensures Ordered(mix, at) {
      InLocs(q, TIMING_FILTER, at, order[..k]);
      InLocs(q, SHAPING_TIME, at, order[..k]);
      InLocs(q, PRE_SAMPLES, at, order[..k]);
      InLocs(q, TOTAL_SAMPLES, at, order[..k]);
      assert Ordered(live, at) && Ordered(target, at);
    }
  }

  function QuadSteps(live: Banks, target: Banks, q: nat): seq<RegisterStep> {
    Differing(live, target, q, QuadOrder(live, target, q))
  }

  /** The planned steps for the first `n` quads. */
  function PlannedSteps(live: Banks, target: Banks, n: nat): seq<RegisterStep> {
    if n == 0 then []
    else PlannedSteps(live, target, n - 1) + QuadSteps(live, target, n - 1)
  }

  lemma OrderListed(live: Banks, target: Banks, q: nat)
    requires Full(live) && Full(target) && q < QUAD_COUNT
    ensures Distinct(QuadOrder(live, target, q))
    ensures forall r: nat :: r in QuadOrder(live, target, q) <==> IsSetting(r)
    ensures forall i | 0 <= i < |QuadOrder(live, target, q)| ::
              Loc(q, QuadOrder(live, target, q)[i]) in live && Loc(q, QuadOrder(live, target, q)[i]) in target
  {
    var first, second := PairOrder(live, target, q, TIMING_FILTER, SHAPING_TIME), PairOrder(live, target, q, PRE_SAMPLES, TOTAL_SAMPLES);
    var order := QuadOrder(live, target, q);
    assert order == INDEPENDENT + (first + second);
    forall r: nat ensures r in order <==> IsSetting(r) { OrderExact(first + second, r); }
    OrderExact(first + second, 0);
    forall i | 0 <= i < |order| ensures IsLoc(Loc(q, order[i])) { assert order[i] in order; }
  }

  lemma QuadWalk(live: Banks, target: Banks, q: nat)
    requires Full(live) && Full(target) && Coupled(live) && Coupled(target) && q < QUAD_COUNT
    ensures Walks(Mix(live, target, QuadsBelow(q, live)), QuadSteps(live, target, q),
                  Mix(live, target, QuadsBelow(q + 1, live)))
  {
    var order := QuadOrder(live, target, q);
    OrderListed(live, target, q);
    forall k | 0 <= k <= |order| ensures Coupled(Mix(live, target, QuadsBelow(q, live) + Locs(q, order[..k]))) {
      MixtureCoupled(live, target, q, k);
    }
    DifferingWalk(live, target, q, order, QuadsBelow(q, live));
    WholeQuad(live, target, q);
  }

  /** Every prefix of the plan keeps both constraints in all quads, each step finds the live value it
      expects, and after the first `n` quads exactly those quads have reached the target. */
  lemma {:induction false} PlanWalk(live: Banks, target: Banks, n: nat)
    requires Full(live) && Full(target) && Coupled(live) && Coupled(target) && n <= QUAD_COUNT
    ensures Walks(live, PlannedSteps(live, target, n), Mix(live, target, QuadsBelow(n, live)))
    decreases n
  {
    if n == 0 {
      NothingMoved(live, target);
    } else {
      var before: nat := n - 1;
      PlanWalk(live, target, before);
      PlanWalkOn(live, target, before, n);
    }
  }

  lemma NothingMoved(live: Banks, target: Banks)
    requires Coupled(live)
    ensures Walks(live, [], Mix(live, target, QuadsBelow(0, live)))
  {
  }

  lemma PlanWalkOn(live: Banks, target: Banks, q: nat, next: nat)
    requires Full(live) && Full(target) && Coupled(live) && Coupled(target) && q < QUAD_COUNT && next == q + 1
    requires Walks(live, PlannedSteps(live, target, q), Mix(live, target, QuadsBelow(q, live)))
    ensures Walks(live, PlannedSteps(live, target, next), Mix(live, target, QuadsBelow(next, live)))
  {
    QuadWalk(live, target, q);
    WalksCompose(live, PlannedSteps(live, target, q), Mix(live, target, QuadsBelow(q, live)),
                 QuadSteps(live, target, q), Mix(live, target, QuadsBelow(next, live)));
  }

  lemma WholeQuad(live: Banks, target: Banks, q: nat)
    requires Full(live) && Full(target) && q < QUAD_COUNT
    ensures QuadsBelow(q, live) + Locs(q, QuadOrder(live, target, q)) == QuadsBelow(q + 1, live)
  {
    OrderListed(live, target, q);
    var order := QuadOrder(live, target, q);
    forall l | l in QuadsBelow(q + 1, live) && l.quad == q ensures l in Locs(q, order) {
      assert l.reg in order;
      InLocs(q, l.reg, l.quad, order);
    }
  }

  /** The finished plan has reached the target everywhere. */
  lemma PlanArrives(live: Banks, target: Banks)
    requires Full(live) && Full(target) && Coupled(live) && Coupled(target)
    ensures Walks(live, PlannedSteps(live, target, QUAD_COUNT), target)
  {
    PlanWalk(live, target, QUAD_COUNT);
    assert Mix(live, target, QuadsBelow(QUAD_COUNT, live)) == target;
  }
}
