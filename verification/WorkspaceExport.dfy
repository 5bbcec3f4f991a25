/** Exporting resolved frontend values as a literal init script. */
module WorkspaceExport {
  import opened Words
  import opened ScpRegistry
  import opened Crate
  import opened Transaction
  import opened WriteOrder
  import opened ScriptSemantics
  import opened ScriptSyntax
  import opened LiteralScript
  import InitScript

  datatype FrontendValue = FrontendValue(quad: u16, reg: u16, value: u16)

  datatype StartingState = StartingState(
    source: InitScript.State, values: seq<FrontendValue>, unresolved: seq<Impact>)

  function Where(v: FrontendValue): Loc { Loc(v.quad, v.reg) }

  function Table(values: seq<FrontendValue>): map<Loc, u16> {
    if values == [] then map[]
    else var last := values[|values| - 1]; Table(values[..|values| - 1])[Where(last) := last.value]
  }

  predicate ValueFits(v: FrontendValue) { v.quad < QUAD_COUNT && ProfileValueAccepted(v.reg, v.value) }

  predicate NoDuplicates(values: seq<FrontendValue>) {
    forall i, j | 0 <= i < j < |values| :: Where(values[i]) != Where(values[j])
  }

  /** A value's dependency, where resolved too, is satisfied. */
  predicate DependencyHolds(table: map<Loc, u16>, v: FrontendValue) {
    var setting := FindSetting(v.reg);
    setting.None? || setting.value.dependencyRule == NoRule
    || (var other := Loc(v.quad, setting.value.dependencyRegister);
        other in table ==> DependencySatisfied(setting.value, v.value, table[other]))
  }

  predicate ValidState(state: StartingState) {
    && (state.source == InitScript.Complete || state.source == InitScript.CompleteWithUnresolvedNonFrontend)
    && state.values != []
    && (state.source == InitScript.Complete <==> state.unresolved == [])
    && (forall i | 0 <= i < |state.unresolved| :: state.unresolved[i] == NonFrontend)
    && ValuesFit(state.values)
    && (forall i | 0 <= i < |state.values| :: DependencyHolds(Table(state.values), state.values[i]))
  }

  lemma {:induction false} TableKeys(values: seq<FrontendValue>, l: Loc)
    ensures l in Table(values) <==> exists i | 0 <= i < |values| :: Where(values[i]) == l
    ensures l in Table(values) ==> exists i | 0 <= i < |values| :: Where(values[i]) == l && values[i].value == Table(values)[l]
  {
    if values != [] {
      var front, last := values[..|values| - 1], values[|values| - 1];
      TableKeys(front, l);
      if Where(last) == l { assert Where(values[|values| - 1]) == l; }
      else if l in Table(front) {
        var i :| 0 <= i < |front| && Where(front[i]) == l && front[i].value == Table(front)[l];
        assert Where(values[i]) == l;
      }
    }
  }

  predicate ValuesFit(values: seq<FrontendValue>) {
    (forall i | 0 <= i < |values| :: ValueFits(values[i])) && NoDuplicates(values)
  }

  /** Values in range, each location once. */
  method CollectValues(values: seq<FrontendValue>) returns (ok: bool, table: map<Loc, u16>)
    ensures ok <==> ValuesFit(values)
    ensures ok ==> table == Table(values)
  {
    table := map[];
    for i := 0 to |values|
      invariant table == Table(values[..i]) && ValuesFit(values[..i])
    {
      var v := values[i];
      assert values[..i + 1][..i] == values[..i];
      if v.quad >= QUAD_COUNT || FindSetting(v.reg).None? || !ProfileValueAccepted(v.reg, v.value) { return false, table; }
      TableKeys(values[..i], Where(v));
      if Where(v) in table { return false, table; }
      table := table[Where(v) := v.value];
    }
    assert values[..|values|] == values;
    ok := true;
  }

  /** ValidateStartingState. */
  method ValidateStartingState(state: StartingState) returns (ok: bool, table: map<Loc, u16>)
    ensures ok <==> ValidState(state)
    ensures ok ==> table == Table(state.values)
  {
    table := map[];
    if state.source == InitScript.Failed || state.source == InitScript.ConditionalAfterAccuTest { return false, table; }
    if state.values == [] { return false, table; }
    if state.source == InitScript.Complete && state.unresolved != [] { return false, table; }
    if state.source == InitScript.CompleteWithUnresolvedNonFrontend && state.unresolved == [] { return false, table; }
    if exists i | 0 <= i < |state.unresolved| :: state.unresolved[i] != NonFrontend { return false, table; }
    ok, table := CollectValues(state.values);
    if !ok { return; }
    for i := 0 to |state.values|
      invariant forall j | 0 <= j < i :: DependencyHolds(table, state.values[j])
    {
      if !DependencyHolds(table, state.values[i]) { return false, table; }
    }
  }

  /** What a valid state's table looks like. */
  predicate Sound(table: map<Loc, u16>) {
    && (forall l | l in table :: l.quad < QUAD_COUNT && ProfileValueAccepted(l.reg, table[l]))
    && (forall q | 0 <= q < QUAD_COUNT :: PairSound(table, q, TIMING_FILTER, SHAPING_TIME) && PairSound(table, q, PRE_SAMPLES, TOTAL_SAMPLES))
  }

  predicate PairSound(table: map<Loc, u16>, q: nat, c: u16, b: u16) {
    Loc(q, c) in table && Loc(q, b) in table ==> Related(c, table[Loc(q, c)], table[Loc(q, b)])
  }

  lemma ValidIsSound(state: StartingState)
    requires ValidState(state)
    ensures Sound(Table(state.values))
  {
    var table := Table(state.values);
    forall l | l in table
      ensures l.quad < QUAD_COUNT && ProfileValueAccepted(l.reg, table[l])
      ensures DependencyHolds(table, FrontendValue(l.quad, l.reg, table[l]))
    {
      TableKeys(state.values, l);
      var i :| 0 <= i < |state.values| && Where(state.values[i]) == l && state.values[i].value == table[l];
      assert ValueFits(state.values[i]) && DependencyHolds(table, state.values[i]);
    }
    forall q: nat | q < QUAD_COUNT
      ensures PairSound(table, q, TIMING_FILTER, SHAPING_TIME) && PairSound(table, q, PRE_SAMPLES, TOTAL_SAMPLES)
    {
      if Loc(q, TIMING_FILTER) in table {
        assert DependencyHolds(table, FrontendValue(q, TIMING_FILTER, table[Loc(q, TIMING_FILTER)]));
      }
      if Loc(q, PRE_SAMPLES) in table {
        assert DependencyHolds(table, FrontendValue(q, PRE_SAMPLES, table[Loc(q, PRE_SAMPLES)]));
      }
    }
  }

  /** The widest value of a boundary register. */
  function Widest(boundary: u16): u16 { if boundary == SHAPING_TIME then 1000 else 488 }

  function Known(table: map<Loc, u16>, q: u16, r: u16): seq<Literal> {
    if Loc(q, r) in table then [Literal(q, r, table[Loc(q, r)], false)] else []
  }

  function Independents(table: map<Loc, u16>, q: u16, regs: seq<u16>): seq<Literal> {
    if regs == [] then [] else Independents(table, q, regs[..|regs| - 1]) + Known(table, q, regs[|regs| - 1])
  }

  /** A coupled group: widest boundary, constrained value, final boundary. */
  function Group(table: map<Loc, u16>, q: u16, c: u16, b: u16): seq<Literal> {
    if Loc(q, c) in table && Loc(q, b) in table
    then [Literal(q, b, Widest(b), true), Literal(q, c, table[Loc(q, c)], false), Literal(q, b, table[Loc(q, b)], false)]
    else []
  }

  function QuadLiterals(table: map<Loc, u16>, q: u16): seq<Literal> {
    Independents(table, q, INDEPENDENT) + Group(table, q, TIMING_FILTER, SHAPING_TIME) + Group(table, q, PRE_SAMPLES, TOTAL_SAMPLES)
  }

  function AllLiterals(table: map<Loc, u16>, n: u16): seq<Literal> {
    if n == 0 then [] else AllLiterals(table, n - 1) + QuadLiterals(table, n - 1)
  }

  predicate GroupComplete(table: map<Loc, u16>, q: nat, c: u16, b: u16) { Loc(q, c) in table <==> Loc(q, b) in table }

  predicate GroupsComplete(table: map<Loc, u16>) {
    forall q | 0 <= q < QUAD_COUNT ::
      GroupComplete(table, q, TIMING_FILTER, SHAPING_TIME) && GroupComplete(table, q, PRE_SAMPLES, TOTAL_SAMPLES)
  }

  /** appendCoupled. */
  method AppendCoupled(table: map<Loc, u16>, literals: seq<Literal>, q: u16, c: u16, b: u16)
    returns (ok: bool, more: seq<Literal>)
    requires Sound(table) && q < QUAD_COUNT && IsPair(c, b)
    ensures ok <==> GroupComplete(table, q, c, b)
    ensures ok ==> more == literals + Group(table, q, c, b)
  {
    more := literals;
    if Loc(q, c) !in table && Loc(q, b) !in table { return true, more; }
    if Loc(q, c) !in table || Loc(q, b) !in table { return false, more; }
    var widest := FindSetting(b).value.maximum;
    more := more + [Literal(q, b, widest, true)];
    assert PairSound(table, q, c, b);
    CoupledOrderSafe(c, b, 0, widest, table[Loc(q, c)], table[Loc(q, b)]);
    var ordered := CoupledWriteOrder(c, b, widest, table[Loc(q, c)], table[Loc(q, b)]);
    if ordered.None? { return false, more; }
    var order := ordered.value;
    more := more + [Literal(q, order[0], table[Loc(q, order[0])], false)];
    more := more + [Literal(q, order[1], table[Loc(q, order[1])], false)];
    ok := true;
  }

  method AppendIndependent(table: map<Loc, u16>, literals: seq<Literal>, q: u16, regs: seq<u16>) returns (more: seq<Literal>)
    ensures more == literals + Independents(table, q, regs)
  {
    more := literals;
    for k := 0 to |regs|
      invariant more == literals + Independents(table, q, regs[..k])
    {
      assert regs[..k + 1][..k] == regs[..k];
      if Loc(q, regs[k]) in table { more := more + [Literal(q, regs[k], table[Loc(q, regs[k])], false)]; }
    }
    assert regs[..|regs|] == regs;
  }

  /** PlanLiteralValues: refused exactly when a coupled group is incomplete. */
  method PlanLiteralValues(table: map<Loc, u16>) returns (ok: bool, literals: seq<Literal>)
    requires Sound(table)
    ensures ok <==> GroupsComplete(table)
    ensures literals == if ok then AllLiterals(table, QUAD_COUNT) else []
  {
    literals := [];
    for q := 0 to QUAD_COUNT
      invariant literals == AllLiterals(table, q)
      invariant forall p | 0 <= p < q ::
                  GroupComplete(table, p, TIMING_FILTER, SHAPING_TIME) && GroupComplete(table, p, PRE_SAMPLES, TOTAL_SAMPLES)
    {
      ok, literals := AppendQuad(table, literals, q);
      if !ok { return false, []; }
    }
    ok := true;
  }

  /** One quad: its independent registers, then its two coupled groups. */
  method AppendQuad(table: map<Loc, u16>, literals: seq<Literal>, q: u16) returns (ok: bool, more: seq<Literal>)
    requires Sound(table) && q < QUAD_COUNT
    ensures ok <==> GroupComplete(table, q, TIMING_FILTER, SHAPING_TIME) && GroupComplete(table, q, PRE_SAMPLES, TOTAL_SAMPLES)
    ensures ok ==> more == literals + QuadLiterals(table, q)
  {
    more := AppendIndependent(table, literals, q, INDEPENDENT);
    ok, more := AppendCoupled(table, more, q, TIMING_FILTER, SHAPING_TIME);
    if !ok { return; }
    ok, more := AppendCoupled(table, more, q, PRE_SAMPLES, TOTAL_SAMPLES);
    if !ok { return; }
    assert more == literals + QuadLiterals(table, q);
  }

  const PARK_LINES: seq<string> := [WriteLine(SELECTOR_REGISTER, 0), SETTLE]

  lemma OneMoreLiteral(literals: seq<Literal>, i: nat)
    requires i < |literals|
    ensures Lines(literals[..i + 1]) == Lines(literals[..i]) + LineBlock(CurrentQuad(literals[..i]), literals[i])
    ensures CurrentQuad(literals[..i + 1]) == literals[i].quad
  {
    assert literals[..i + 1][..i] == literals[..i];
  }

  method FormatLines(literals: seq<Literal>) returns (lines: seq<string>)
    ensures lines == Lines(literals) + PARK_LINES
  {
    var currentQuad := QUAD_COUNT;
    lines := [];
    for i := 0 to |literals|
      invariant lines == Lines(literals[..i]) && currentQuad == CurrentQuad(literals[..i])
    {
      var item := literals[i];
      OneMoreLiteral(literals, i);
      if item.quad != currentQuad {
        currentQuad := item.quad;
        lines := lines + [WriteLine(SELECTOR_REGISTER, currentQuad), SETTLE];
      }
      lines := lines + [WriteLine(item.reg, item.value), SETTLE];
    }
    assert literals[..|literals|] == literals;
    lines := lines + PARK_LINES;
  }

  /** GenerateFw2051LiteralScript, without its comment lines. */
  method GenerateScript(state: StartingState) returns (ok: bool, lines: seq<string>)
    ensures ok <==> ValidState(state) && GroupsComplete(Table(state.values))
    ensures lines == if ok then Lines(AllLiterals(Table(state.values), QUAD_COUNT)) + PARK_LINES else []
  {
    var valid, table := ValidateStartingState(state);
    if !valid { return false, []; }
    ValidIsSound(state);
    var planned, literals := PlanLiteralValues(table);
    if !planned { return false, []; }
    lines := FormatLines(literals);
    ok := true;
  }
}
