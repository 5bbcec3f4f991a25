/** Evaluating an exported script gives back the exported values, and executing it respects the coupled
    constraints. */
module ExportRoundTrip {
  import opened Words
  import opened ScpRegistry
  import opened Crate
  import opened Transaction
  import opened WriteOrder
  import opened ScriptSemantics
  import opened ScriptSyntax
  import opened LiteralScript
  import opened WorkspaceExport
  import InitScript

  /** `b` overlaid with the table's values at the locations in `done`. */
  function Over(b: Banks, table: map<Loc, u16>, done: set<Loc>): Banks {
    b + map l | l in table && l in done :: table[l]
  }

  lemma OverOne(b: Banks, table: map<Loc, u16>, done: set<Loc>, l: Loc)
    ensures Over(b, table, done + {l}) == if l in table then Over(b, table, done)[l := table[l]] else Over(b, table, done)
  {
  }

  lemma StoreOn(b: Banks, ls: seq<Literal>, l: Literal)
    ensures Store(b, ls + [l]) == Store(b, ls)[Loc(l.quad, l.reg) := l.value]
  {
  }

  lemma {:induction false} IndependentsStored(b: Banks, table: map<Loc, u16>, q: u16, regs: seq<u16>, done: set<Loc>)
    ensures Store(Over(b, table, done), Independents(table, q, regs)) == Over(b, table, done + Locs(q, regs))
  {
    if regs == [] {
      assert done + Locs(q, regs) == done;
    } else {
      var front, last := regs[..|regs| - 1], regs[|regs| - 1];
      IndependentsStored(b, table, q, front, done);
      LocsOneMore(q, front, last);
      assert regs == front + [last];
      assert done + Locs(q, regs) == (done + Locs(q, front)) + {Loc(q, last)};
      OverOne(b, table, done + Locs(q, front), Loc(q, last));
      var before := Independents(table, q, front);
      if Loc(q, last) in table {
        StoreOn(Over(b, table, done), before, Known(table, q, last)[0]);
      } else {
        assert before + [] == before;
      }
    }
  }

  lemma GroupStored(b: Banks, table: map<Loc, u16>, q: u16, c: u16, bound: u16, done: set<Loc>)
    requires GroupComplete(table, q, c, bound)
    ensures Store(Over(b, table, done), Group(table, q, c, bound)) == Over(b, table, done + {Loc(q, c)} + {Loc(q, bound)})
  {
    OverOne(b, table, done, Loc(q, c));
    OverOne(b, table, done + {Loc(q, c)}, Loc(q, bound));
    if Loc(q, c) in table { StoreThree(Over(b, table, done), Group(table, q, c, bound)); }
  }

  lemma StoreThree(b: Banks, g: seq<Literal>)
    requires |g| == 3
    ensures Store(b, g[..1]) == b[Loc(g[0].quad, g[0].reg) := g[0].value]
    ensures Store(b, g[..2]) == Store(b, g[..1])[Loc(g[1].quad, g[1].reg) := g[1].value]
    ensures Store(b, g) == Store(b, g[..2])[Loc(g[2].quad, g[2].reg) := g[2].value]
  {
  }

  function Below(table: map<Loc, u16>, n: nat): set<Loc> { set l | l in table && l.quad < n }

  /** Independent registers, then both groups. */
  lemma RegistersStored(b: Banks, table: map<Loc, u16>, q: u16, regs: seq<u16>, done: set<Loc>)
    requires GroupComplete(table, q, TIMING_FILTER, SHAPING_TIME) && GroupComplete(table, q, PRE_SAMPLES, TOTAL_SAMPLES)
    ensures Store(Over(b, table, done), Independents(table, q, regs) + Group(table, q, TIMING_FILTER, SHAPING_TIME)
                                        + Group(table, q, PRE_SAMPLES, TOTAL_SAMPLES))
         == Over(b, table, done + Locs(q, regs) + {Loc(q, TIMING_FILTER)} + {Loc(q, SHAPING_TIME)}
                           + {Loc(q, PRE_SAMPLES)} + {Loc(q, TOTAL_SAMPLES)})
  {
    var xs := Independents(table, q, regs);
    var ys, zs := Group(table, q, TIMING_FILTER, SHAPING_TIME), Group(table, q, PRE_SAMPLES, TOTAL_SAMPLES);
    var done1 := done + Locs(q, regs);
    IndependentsStored(b, table, q, regs, done);
    GroupStored(b, table, q, TIMING_FILTER, SHAPING_TIME, done1);
    GroupStored(b, table, q, PRE_SAMPLES, TOTAL_SAMPLES, done1 + {Loc(q, TIMING_FILTER)} + {Loc(q, SHAPING_TIME)});
    StoreConcat(Over(b, table, done), xs, ys);
    StoreConcat(Over(b, table, done), xs + ys, zs);
  }

  lemma QuadStored(b: Banks, table: map<Loc, u16>, q: u16, next: u16)
    requires Sound(table) && GroupsComplete(table) && q < QUAD_COUNT && next == q + 1
    ensures Store(Over(b, table, Below(table, q)), QuadLiterals(table, q)) == Over(b, table, Below(table, next))
  {
    QuadDone(table, q);
    RegistersStored(b, table, q, INDEPENDENT, Below(table, q));
  }

  /** The order of a quad reaches every location the table can have in it. */
  lemma QuadDone(table: map<Loc, u16>, q: u16)
    requires Sound(table)
    ensures var done := Below(table, q) + Locs(q, INDEPENDENT) + {Loc(q, TIMING_FILTER)} + {Loc(q, SHAPING_TIME)}
                        + {Loc(q, PRE_SAMPLES)} + {Loc(q, TOTAL_SAMPLES)};
            forall l | l in table :: l in done <==> l in Below(table, q + 1)
  {
    forall l | l in table && l.quad == q && !IsCoupledRegister(l.reg) ensures l in Locs(q, INDEPENDENT) {
      IndependentExact(l.reg, 0);
      assert l == Loc(q, INDEPENDENT[IndependentIndex(l.reg)]);
    }
  }

  /** Writing the whole script's literals overlays exactly the table. */
  lemma {:induction false} AllStored(b: Banks, table: map<Loc, u16>, n: u16)
    requires Sound(table) && GroupsComplete(table) && n <= QUAD_COUNT
    ensures Store(b, AllLiterals(table, n)) == Over(b, table, Below(table, n))
    decreases n
  {
    if n == 0 {
      OverNothing(b, table);
    } else {
      var quad: u16 := n - 1;
      AllStored(b, table, quad);
      AllStoredOn(b, table, quad, n);
    }
  }

  lemma OverNothing(b: Banks, table: map<Loc, u16>)
    ensures Over(b, table, Below(table, 0)) == b
  {
  }

  lemma AllStoredOn(b: Banks, table: map<Loc, u16>, quad: u16, n: u16)
    requires Sound(table) && GroupsComplete(table) && n == quad + 1 <= QUAD_COUNT
    requires Store(b, AllLiterals(table, quad)) == Over(b, table, Below(table, quad))
    ensures Store(b, AllLiterals(table, n)) == Over(b, table, Below(table, n))
  {
    QuadStored(b, table, quad, n);
    StoreConcat(b, AllLiterals(table, quad), QuadLiterals(table, quad));
    assert AllLiterals(table, n) == AllLiterals(table, quad) + QuadLiterals(table, quad);
  }

  lemma TableStored(b: Banks, table: map<Loc, u16>)
    requires Sound(table) && GroupsComplete(table)
    ensures Store(b, AllLiterals(table, QUAD_COUNT)) == b + table
  {
    AllStored(b, table, QUAD_COUNT);
    assert (map l | l in table && l in Below(table, QUAD_COUNT) :: table[l]) == table;
  }

  /** Literals of the listed quad at banked registers only. */
  predicate InQuad(ls: seq<Literal>, q: nat) { forall i | 0 <= i < |ls| :: ls[i].quad == q && IsSetting(ls[i].reg) }

  lemma {:induction false} IndependentsInQuad(table: map<Loc, u16>, q: u16, regs: seq<u16>)
    requires forall i | 0 <= i < |regs| :: IsSetting(regs[i]) && !IsCoupledRegister(regs[i])
    ensures InQuad(Independents(table, q, regs), q)
    ensures forall l: Loc | IsCoupledRegister(l.reg) :: !Touches(Independents(table, q, regs), l)
  {
    if regs != [] { IndependentsInQuad(table, q, regs[..|regs| - 1]); }
  }

  lemma QuadInQuad(table: map<Loc, u16>, q: u16)
    ensures InQuad(QuadLiterals(table, q), q)
    ensures forall l: Loc | IsCoupledRegister(l.reg) :: !Touches(Independents(table, q, INDEPENDENT), l)
  {
    forall i | 0 <= i < |INDEPENDENT| ensures IsSetting(INDEPENDENT[i]) && !IsCoupledRegister(INDEPENDENT[i]) {
      IndependentExact(0, i);
    }
    IndependentsInQuad(table, q, INDEPENDENT);
  }

  lemma {:induction false} AllValid(table: map<Loc, u16>, n: u16)
    requires n <= QUAD_COUNT
    ensures ValidLiterals(AllLiterals(table, n))
    ensures forall i | 0 <= i < |AllLiterals(table, n)| :: AllLiterals(table, n)[i].quad < n
  {
    if n > 0 {
      AllValid(table, n - 1);
      QuadInQuad(table, n - 1);
    }
  }

  function Printed(ls: seq<Literal>, tables: Tables): Script { Script(Lines(ls) + PARK_LINES, tables, false) }

  /** The script that GenerateScript prints for a table. */
  function Exported(table: map<Loc, u16>, tables: Tables): Script { Printed(AllLiterals(table, QUAD_COUNT), tables) }

  /** The printed lines parse, whatever the variable tables, and mean the planned commands. */
  lemma PrintedCommands(env: Env, ls: seq<Literal>, tables: Tables)
    requires ReadsLiterals(env)
    ensures !ParseFails(env, Printed(ls, tables))
    ensures CommandsOf(env, tables, Printed(ls, tables).lines) == Commands(ls) + PARK
  {
    LinesDenote(env, ls);
    ParkDenotes(env);
    assert AllDenote(env, Lines(ls) + PARK_LINES, Commands(ls) + PARK);
    DenotedParses(env, tables, Lines(ls) + PARK_LINES, Commands(ls) + PARK);
    DenotedProgram(env, tables, Lines(ls) + PARK_LINES, Commands(ls) + PARK);
  }

  lemma ParkDenotes(env: Env)
    requires ReadsLiterals(env)
    ensures AllDenote(env, PARK_LINES, PARK)
  {
    WriteLineDenotes(env, SELECTOR_REGISTER, 0);
    SettleDenotes(env);
  }

  predicate OnlyOverlays(before: Abs, after: Abs, finals: map<Loc, u16>) {
    && after.finals == finals && after.failed == before.failed && after.selector == Some(0)
    && !after.conditional && after.conditionalWrite == before.conditionalWrite
  }

  lemma LiteralsOverlay(a: Abs, ls: seq<Literal>)
    requires !a.conditional && ValidLiterals(ls)
    ensures OnlyOverlays(a, AbsorbAll(a, Commands(ls) + PARK), Store(a.finals, ls))
  {
    AbsorbConcat(a, Commands(ls), PARK);
    LiteralsAbsorbed(a, ls);
    AbsorbTwo(AbsorbAll(a, Commands(ls)), PARK[0], PARK[1]);
  }

  lemma PrintedOverlays(env: Env, entries: seq<Entry>, ls: seq<Literal>, tables: Tables)
    requires ReadsLiterals(env) && ValidLiterals(ls)
    requires !InitScript.Interpret(env, entries).conditional
    ensures var before := InitScript.Interpret(env, entries);
            OnlyOverlays(before, InitScript.Interpret(env, entries + [Enabled(Printed(ls, tables))]), Store(before.finals, ls))
  {
    assert (entries + [Enabled(Printed(ls, tables))])[..|entries|] == entries;
    PrintedCommands(env, ls, tables);
    LiteralsOverlay(InitScript.Interpret(env, entries), ls);
  }

  /** Appended to any script list without a conditional part, the exported script overlays exactly its
      table, fails nothing that had not failed, and parks the selector. */
  lemma ExportOverlays(env: Env, entries: seq<Entry>, table: map<Loc, u16>, tables: Tables)
    requires ReadsLiterals(env) && Sound(table) && GroupsComplete(table)
    requires !InitScript.Interpret(env, entries).conditional
    ensures var before := InitScript.Interpret(env, entries);
            OnlyOverlays(before, InitScript.Interpret(env, entries + [Enabled(Exported(table, tables))]), before.finals + table)
  {
    AllValid(table, QUAD_COUNT);
    PrintedOverlays(env, entries, AllLiterals(table, QUAD_COUNT), tables);
    TableStored(InitScript.Interpret(env, entries).finals, table);
  }

  /** Export then evaluate is the identity: the exported script is accepted by the evaluator with no
      frontend issue, and its final values are exactly the exported ones. */
  method ExportThenEvaluate(env: Env, state: StartingState, tables: Tables)
    returns (exported: bool, result: InitScript.State, finals: map<Loc, u16>)
    requires ReadsLiterals(env)
    ensures exported <==> ValidState(state) && GroupsComplete(Table(state.values))
    ensures exported ==> finals == Table(state.values)
    ensures exported ==> result != InitScript.Failed && result != InitScript.ConditionalAfterAccuTest
  {
    result, finals := InitScript.Failed, map[];
    var lines, writes, assignments;
    exported, lines := GenerateScript(state);
    if exported {
      ValidIsSound(state);
      ghost var literals := AllLiterals(Table(state.values), QUAD_COUNT);
      AllValid(Table(state.values), QUAD_COUNT);
      TableStored(map[], Table(state.values));
      PrintedAlone(env, literals, tables);
      result, finals, writes, assignments := InitScript.Evaluate(env, [Enabled(Script(lines, tables, false))]);
    }
  }

  lemma PrintedAlone(env: Env, ls: seq<Literal>, tables: Tables)
    requires ReadsLiterals(env) && ValidLiterals(ls)
    ensures var entries := [Enabled(Printed(ls, tables))];
            && InitScript.Parsing(env, entries) == entries
            && OnlyOverlays(INITIAL, InitScript.Interpret(env, entries), Store(map[], ls))
  {
    var entries := [Enabled(Printed(ls, tables))];
    assert [] + entries == entries;
    PrintedOverlays(env, [], ls, tables);
    PrintedCommands(env, ls, tables);
    InitScript.AllParsing(env, entries);
  }

  /** Quads are written in order: what follows the first `n` quads lies beyond them. */
  lemma {:induction false} LaterQuads(table: map<Loc, u16>, n: u16, m: u16)
    requires n <= m <= QUAD_COUNT
    ensures AllLiterals(table, n) <= AllLiterals(table, m)
    ensures forall i | |AllLiterals(table, n)| <= i < |AllLiterals(table, m)| :: AllLiterals(table, m)[i].quad >= n
    decreases m
  {
    if n < m {
      LaterQuads(table, n, m - 1);
      QuadInQuad(table, m - 1);
    }
  }

  lemma TouchesConcat(xs: seq<Literal>, ys: seq<Literal>, l: Loc)
    ensures Touches(xs + ys, l) <==> Touches(xs, l) || Touches(ys, l)
  {
    var zs := xs + ys;
    if Touches(xs, l) {
      var i :| 0 <= i < |xs| && Loc(xs[i].quad, xs[i].reg) == l;
      assert Loc(zs[i].quad, zs[i].reg) == l;
    }
    if Touches(ys, l) {
      var i :| 0 <= i < |ys| && Loc(ys[i].quad, ys[i].reg) == l;
      assert Loc(zs[|xs| + i].quad, zs[|xs| + i].reg) == l;
    }
  }

  predicate Clear(ls: seq<Literal>, q: nat, c: u16, b: u16) { !Touches(ls, Loc(q, c)) && !Touches(ls, Loc(q, b)) }

  lemma ClearConcat(xs: seq<Literal>, ys: seq<Literal>, q: nat, c: u16, b: u16)
    ensures Clear(xs + ys, q, c, b) <==> Clear(xs, q, c, b) && Clear(ys, q, c, b)
  {
    TouchesConcat(xs, ys, Loc(q, c));
    TouchesConcat(xs, ys, Loc(q, b));
  }

  /** The writes outside a quad never touch its pairs. */
  lemma QuadPosition(table: map<Loc, u16>, q: u16, n: u16) returns (earlier: seq<Literal>, later: seq<Literal>)
    requires q < n <= QUAD_COUNT
    ensures AllLiterals(table, n) == earlier + QuadLiterals(table, q) + later
    ensures forall c, b :: Clear(earlier, q, c, b) && Clear(later, q, c, b)
  {
    LaterQuads(table, q + 1, n);
    AllValid(table, q);
    earlier := AllLiterals(table, q);
    later := AllLiterals(table, n)[|AllLiterals(table, q + 1)|..];
    assert AllLiterals(table, q + 1) == earlier + QuadLiterals(table, q);
  }

  /** A group among what surrounds it. */
  lemma Regroup(earlier: seq<Literal>, xs: seq<Literal>, group: seq<Literal>, ys: seq<Literal>, later: seq<Literal>,
                q: nat, c: u16, b: u16)
    requires Clear(earlier, q, c, b) && Clear(xs, q, c, b) && Clear(ys, q, c, b) && Clear(later, q, c, b)
    ensures earlier + (xs + group + ys) + later == (earlier + xs) + group + (ys + later)
    ensures Clear(earlier + xs, q, c, b) && Clear(ys + later, q, c, b)
  {
    ClearConcat(earlier, xs, q, c, b);
    ClearConcat(ys, later, q, c, b);
  }

  /** The second group of a quad among what surrounds it. */
  lemma RegroupSecond(earlier: seq<Literal>, xs: seq<Literal>, ys: seq<Literal>, group: seq<Literal>, later: seq<Literal>,
                      q: nat, c: u16, b: u16)
    requires Clear(earlier, q, c, b) && Clear(xs, q, c, b) && Clear(ys, q, c, b) && Clear(later, q, c, b)
    ensures earlier + (xs + ys + group) + later == (earlier + xs + ys) + group + later
    ensures Clear(earlier + xs + ys, q, c, b)
  {
    ClearConcat(earlier, xs, q, c, b);
    ClearConcat(earlier + xs, ys, q, c, b);
  }

  /** The three writes of a group are consecutive, and no other write of the script touches the pair. */
  lemma GroupPosition(table: map<Loc, u16>, q: u16, c: u16, b: u16, n: u16) returns (before: seq<Literal>, after: seq<Literal>)
    requires q < n <= QUAD_COUNT && IsPair(c, b)
    ensures AllLiterals(table, n) == before + Group(table, q, c, b) + after
    ensures Clear(before, q, c, b) && Clear(after, q, c, b)
  {
    var earlier, later := QuadPosition(table, q, n);
    QuadInQuad(table, q);
    var xs := Independents(table, q, INDEPENDENT);
    var first, second := Group(table, q, TIMING_FILTER, SHAPING_TIME), Group(table, q, PRE_SAMPLES, TOTAL_SAMPLES);
    if c == TIMING_FILTER {
      before, after := earlier + xs, second + later;
      Regroup(earlier, xs, first, second, later, q, c, b);
    } else {
      before, after := earlier + xs + first, later;
      RegroupSecond(earlier, xs, first, second, later, q, c, b);
    }
  }

  /** The staging write of a quad's boundary register is among the literals. */
  predicate Staged(ls: seq<Literal>, q: nat, b: u16) {
    exists i | 0 <= i < |ls| :: ls[i].staging && Loc(ls[i].quad, ls[i].reg) == Loc(q, b)
  }

  /** The values of a pair in a bank. */
  function Pair(banks: Banks, q: nat, c: u16, b: u16): (u16, u16) { (Value(banks, Loc(q, c)), Value(banks, Loc(q, b))) }

  lemma PairUntouched(banks: Banks, ls: seq<Literal>, q: nat, c: u16, b: u16)
    requires Clear(ls, q, c, b)
    ensures Pair(Store(banks, ls), q, c, b) == Pair(banks, q, c, b) && !Staged(ls, q, b)
  {
  }

  lemma ClearPrefix(ls: seq<Literal>, n: nat, q: nat, c: u16, b: u16)
    requires n <= |ls| && Clear(ls, q, c, b)
    ensures Clear(ls[..n], q, c, b)
  {
  }

  /** The history of a pair through its group: live, staged, constrained value in place, finished. */
  function PairAfter(live: (u16, u16), g: seq<Literal>, k: int): (u16, u16)
    requires |g| == 3
  {
    if k <= 0 then live
    else if k == 1 then (live.0, g[0].value)
    else if k == 2 then (g[1].value, g[0].value)
    else (g[1].value, g[2].value)
  }

  predicate IsGroup(g: seq<Literal>, q: u16, c: u16, b: u16) {
    && |g| == 3 && c != b && g[0].staging
    && g[0].quad == q && g[0].reg == b && g[1].quad == q && g[1].reg == c && g[2].quad == q && g[2].reg == b
  }

  lemma GroupPrefix(banks: Banks, g: seq<Literal>, q: u16, c: u16, b: u16, k: nat)
    requires IsGroup(g, q, c, b) && k <= 3
    ensures Pair(Store(banks, g[..k]), q, c, b) == PairAfter(Pair(banks, q, c, b), g, k)
  {
  }

  lemma PairHistory(banks: Banks, before: seq<Literal>, g: seq<Literal>, after: seq<Literal>, q: u16, c: u16, b: u16, j: nat)
    requires IsGroup(g, q, c, b) && Clear(before, q, c, b) && Clear(after, q, c, b) && j <= |before + g + after|
    ensures Pair(Store(banks, (before + g + after)[..j]), q, c, b) == PairAfter(Pair(banks, q, c, b), g, j - |before|)
    ensures Staged((before + g + after)[..j], q, b) <==> j > |before|
  {
    var all := before + g + after;
    if j <= |before| {
      ClearPrefix(before, j, q, c, b);
      PairUntouched(banks, before[..j], q, c, b);
      assert all[..j] == before[..j];
    } else {
      assert all[..j][|before|] == g[0];
      PairUntouched(banks, before, q, c, b);
      var k := if j - |before| <= 3 then j - |before| else 3;
      var rest := after[..j - |before| - k];
      assert all[..j] == before + g[..k] + rest;
      StoreConcat(banks, before, g[..k]);
      StoreConcat(banks, before + g[..k], rest);
      GroupPrefix(Store(banks, before), g, q, c, b, k);
      ClearPrefix(after, |rest|, q, c, b);
      PairUntouched(Store(banks, before + g[..k]), rest, q, c, b);
    }
  }

  predicate PairRelated(banks: Banks, q: nat, c: u16, b: u16) { Related(c, Pair(banks, q, c, b).0, Pair(banks, q, c, b).1) }

  lemma GroupRelations(table: map<Loc, u16>, q: u16, c: u16, b: u16)
    requires Sound(table) && q < QUAD_COUNT && IsPair(c, b) && Loc(q, c) in table && Loc(q, b) in table
    ensures Related(c, table[Loc(q, c)], Widest(b)) && Related(c, table[Loc(q, c)], table[Loc(q, b)])
  {
    assert PairSound(table, q, c, b);
  }

  /** Once a group's staging write is done its constraint holds in every later state exactly when the live
      constrained value fits under the widest boundary; and if the live pair was valid too, it holds in
      every state. `n` is the number of quads exported. */
  lemma StagedStatesSafe(banks: Banks, table: map<Loc, u16>, q: u16, c: u16, b: u16, n: u16)
    requires Sound(table) && q < n <= QUAD_COUNT && IsPair(c, b) && Loc(q, c) in table && Loc(q, b) in table
    ensures var ls := AllLiterals(table, n);
            && ((forall j | 0 <= j <= |ls| && Staged(ls[..j], q, b) :: PairRelated(Store(banks, ls[..j]), q, c, b))
                <==> Related(c, Value(banks, Loc(q, c)), Widest(b)))
            && (Related(c, Value(banks, Loc(q, c)), Widest(b)) && PairRelated(banks, q, c, b) ==>
                  forall j | 0 <= j <= |ls| :: PairRelated(Store(banks, ls[..j]), q, c, b))
  {
    var ls, g := AllLiterals(table, n), Group(table, q, c, b);
    var before, after := GroupPosition(table, q, c, b, n);
    GroupRelations(table, q, c, b);
    forall j | 0 <= j <= |ls|
      ensures Pair(Store(banks, ls[..j]), q, c, b) == PairAfter(Pair(banks, q, c, b), g, j - |before|)
      ensures Staged(ls[..j], q, b) <==> j > |before|
    {
      PairHistory(banks, before, g, after, q, c, b, j);
    }
    var j := |before| + 1;
    assert Staged(ls[..j], q, b) && Pair(Store(banks, ls[..j]), q, c, b) == (Value(banks, Loc(q, c)), Widest(b));
  }

  /** The broken promise: a valid live pair, with a timing filter just above the widest boundary, is invalid
      once the staging write is done. */
  lemma StagingBreaks(banks: Banks, table: map<Loc, u16>, q: u16, n: u16) returns (j: nat)
    requires Sound(table) && q < n <= QUAD_COUNT && Loc(q, TIMING_FILTER) in table && Loc(q, SHAPING_TIME) in table
    requires Value(banks, Loc(q, TIMING_FILTER)) == 1001 && Value(banks, Loc(q, SHAPING_TIME)) == 1001
    ensures PairRelated(banks, q, TIMING_FILTER, SHAPING_TIME)
    ensures j <= |AllLiterals(table, n)|
    ensures !PairRelated(Store(banks, AllLiterals(table, n)[..j]), q, TIMING_FILTER, SHAPING_TIME)
  {
    StagedStatesSafe(banks, table, q, TIMING_FILTER, SHAPING_TIME, n);
    j :| j <= |AllLiterals(table, n)|
         && !PairRelated(Store(banks, AllLiterals(table, n)[..j]), q, TIMING_FILTER, SHAPING_TIME);
  }

  /** A pair the table does not mention is never touched. */
  lemma UnexportedPairUntouched(banks: Banks, table: map<Loc, u16>, q: u16, c: u16, b: u16, n: u16, j: nat)
    requires q < n <= QUAD_COUNT && IsPair(c, b) && Loc(q, c) !in table && j <= |AllLiterals(table, n)|
    ensures Pair(Store(banks, AllLiterals(table, n)[..j]), q, c, b) == Pair(banks, q, c, b)
  {
    var ls := AllLiterals(table, n);
    var before, after := GroupPosition(table, q, c, b, n);
    assert ls == before + after;
    ClearConcat(before, after, q, c, b);
    ClearPrefix(ls, j, q, c, b);
    PairUntouched(banks, ls[..j], q, c, b);
  }

  /** A module that runs the exported script from any selector, and is stopped anywhere, never breaks a
      pair that was valid and fits under the widest boundary. */
  lemma ExportedRunSafe(m: Machine, table: map<Loc, u16>, q: u16, c: u16, b: u16, n: nat)
    requires Sound(table) && GroupsComplete(table) && q < QUAD_COUNT && IsPair(c, b)
    requires n <= |Commands(AllLiterals(table, QUAD_COUNT))|
    requires PairRelated(m.banks, q, c, b) && Related(c, Value(m.banks, Loc(q, c)), Widest(b))
    ensures PairRelated(Run(m, Commands(AllLiterals(table, QUAD_COUNT))[..n]).banks, q, c, b)
  {
    var ls := AllLiterals(table, QUAD_COUNT);
    AllValid(table, QUAD_COUNT);
    LiteralsRun(m, ls, n);
    assert GroupComplete(table, q, TIMING_FILTER, SHAPING_TIME) && GroupComplete(table, q, PRE_SAMPLES, TOTAL_SAMPLES);
    if Loc(q, c) in table {
      StagedStatesSafe(m.banks, table, q, c, b, QUAD_COUNT);
    } else {
      UnexportedPairUntouched(m.banks, table, q, c, b, QUAD_COUNT, Progress(ls, n));
    }
  }
}
