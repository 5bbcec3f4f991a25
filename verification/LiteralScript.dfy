/** A list of literal register writes: its text, its commands, and what they do. */
module LiteralScript {
  import opened Words
  import opened ScpRegistry
  import opened Crate
  import opened Numerals
  import opened Transaction
  import opened ScriptSemantics
  import opened ScriptSyntax

  datatype Literal = Literal(quad: u16, reg: u16, value: u16, staging: bool)

  predicate ValidLiteral(l: Literal) { l.quad < QUAD_COUNT && IsSetting(l.reg) }

  predicate ValidLiterals(ls: seq<Literal>) { forall i | 0 <= i < |ls| :: ValidLiteral(ls[i]) }

  /** The bank after the literals. */
  function Store(b: Banks, ls: seq<Literal>): Banks {
    if ls == [] then b
    else var last := ls[|ls| - 1]; Store(b, ls[..|ls| - 1])[Loc(last.quad, last.reg) := last.value]
  }

  lemma {:induction false} StoreConcat(b: Banks, xs: seq<Literal>, ys: seq<Literal>)
    ensures Store(b, xs + ys) == Store(Store(b, xs), ys)
    decreases |ys|
  {
    if ys == [] {
      assert xs + ys == xs;
    } else {
      StoreConcat(b, xs, ys[..|ys| - 1]);
      assert (xs + ys)[..|xs + ys| - 1] == xs + ys[..|ys| - 1];
    }
  }

  /** The quad selected after the literals; QUAD_COUNT before any. */
  function CurrentQuad(ls: seq<Literal>): nat { if ls == [] then QUAD_COUNT else ls[|ls| - 1].quad }

  function Select(quad: u16): Cmd { Write(Some(SELECTOR_REGISTER), true, quad) }

  function Put(l: Literal): Cmd { Write(Some(l.reg), true, l.value) }

  /** The commands for one literal: select its quad unless it is current, then write; each settles. */
  function Block(current: nat, l: Literal): seq<Cmd> {
    (if l.quad != current then [Select(l.quad), Other] else []) + [Put(l), Other]
  }

  function Commands(ls: seq<Literal>): seq<Cmd> {
    if ls == [] then [] else Commands(ls[..|ls| - 1]) + Block(CurrentQuad(ls[..|ls| - 1]), ls[|ls| - 1])
  }

  const PARK: seq<Cmd> := [Write(Some(SELECTOR_REGISTER), true, 0), Other]

  /** Tokens separated by one space. */
  function Join(parts: seq<string>): string {
    if |parts| == 0 then "" else if |parts| == 1 then parts[0] else parts[0] + " " + Join(parts[1..])
  }

  function WriteParts(reg: u16, value: u16): seq<string> { ["write", "a32", "d16", Hex16(reg), Hex16(value)] }

  const SETTLE_PARTS: seq<string> := ["wait", "1ms"]

  function WriteLine(reg: u16, value: u16): string { Join(WriteParts(reg, value)) }

  const SETTLE: string := Join(SETTLE_PARTS)

  function LineBlock(current: nat, l: Literal): seq<string> {
    (if l.quad != current then [WriteLine(SELECTOR_REGISTER, l.quad), SETTLE] else []) + [WriteLine(l.reg, l.value), SETTLE]
  }

  function Lines(ls: seq<Literal>): seq<string> {
    if ls == [] then [] else Lines(ls[..|ls| - 1]) + LineBlock(CurrentQuad(ls[..|ls| - 1]), ls[|ls| - 1])
  }

  /** Literal text means itself: a line without variables or expressions expands to its own tokens, and
      a hexadecimal literal resolves to its value. */
  ghost predicate ReadsLiterals(env: Env) {
    && (forall tables, reg: u16, value: u16 ::
          env.prepare(tables, WriteLine(reg, value)) == Prepared(true, WriteParts(reg, value), WriteParts(reg, value)))
    && (forall tables :: env.prepare(tables, SETTLE) == Prepared(true, SETTLE_PARTS, SETTLE_PARTS))
    && (forall s: string | ParseHex(s).Some? && ParseHex(s).value < 0x1_0000_0000 ::
          env.resolve(s) == ParseHex(s) && env.longAddress(s) == ParseHex(s))
  }

  /** A line that denotes a command under every variable table, and binds nothing. */
  ghost predicate Denotes(env: Env, line: string, c: Cmd) {
    forall tables :: Meaning(env, tables, line) == Does(c) && TablesAfter(env, tables, line) == tables
  }

  lemma WriteLineDenotes(env: Env, reg: u16, value: u16)
    requires ReadsLiterals(env)
    ensures Denotes(env, WriteLine(reg, value), Write(Some(reg), true, value))
  {
    Hex16RoundTrip(reg);
    Hex16RoundTrip(value);
    var parts := WriteParts(reg, value);
    assert Lower("a32") == "a32" && Lower("d16") == "d16";
    assert CheckSyntax(env, parts) == Valid;
  }

  lemma SettleDenotes(env: Env)
    requires ReadsLiterals(env)
    ensures Denotes(env, SETTLE, Other)
  {
  }

  ghost predicate AllDenote(env: Env, lines: seq<string>, cmds: seq<Cmd>) {
    |lines| == |cmds| && forall i | 0 <= i < |lines| :: Denotes(env, lines[i], cmds[i])
  }

  lemma {:induction false} DenotedTables(env: Env, tables: Tables, lines: seq<string>, cmds: seq<Cmd>)
    requires AllDenote(env, lines, cmds)
    ensures TablesAfterAll(env, tables, lines) == tables
  {
    if lines != [] {
      DenotedTables(env, tables, lines[..|lines| - 1], cmds[..|cmds| - 1]);
      LineDenotes(env, tables, lines[|lines| - 1], cmds[|cmds| - 1]);
    }
  }

  lemma {:induction false} DenotedParses(env: Env, tables: Tables, lines: seq<string>, cmds: seq<Cmd>)
    requires AllDenote(env, lines, cmds)
    ensures !AnyRejected(env, tables, lines)
  {
    if lines != [] {
      DenotedParses(env, tables, lines[..|lines| - 1], cmds[..|cmds| - 1]);
      DenotedTables(env, tables, lines[..|lines| - 1], cmds[..|cmds| - 1]);
      LineDenotes(env, tables, lines[|lines| - 1], cmds[|cmds| - 1]);
    }
  }

  /** Lines that denote commands parse, and mean exactly those commands. */
  lemma {:induction false} DenotedProgram(env: Env, tables: Tables, lines: seq<string>, cmds: seq<Cmd>)
    requires AllDenote(env, lines, cmds)
    ensures CommandsOf(env, tables, lines) == cmds
  {
    if lines != [] {
      var front, commands := lines[..|lines| - 1], cmds[..|cmds| - 1];
      DenoteApart(env, lines, cmds);
      DenotedProgram(env, tables, front, commands);
      DenotedTables(env, tables, front, commands);
      OneMoreDenoted(env, tables, front, lines[|lines| - 1], commands, cmds[|cmds| - 1], lines, cmds);
    }
  }

  lemma DenoteApart(env: Env, lines: seq<string>, cmds: seq<Cmd>)
    requires AllDenote(env, lines, cmds) && lines != []
    ensures AllDenote(env, lines[..|lines| - 1], cmds[..|cmds| - 1]) && Denotes(env, lines[|lines| - 1], cmds[|cmds| - 1])
  {
  }

  lemma OneMoreDenoted(env: Env, tables: Tables, lines: seq<string>, line: string, cmds: seq<Cmd>, c: Cmd,
                       allLines: seq<string>, allCmds: seq<Cmd>)
    requires CommandsOf(env, tables, lines) == cmds && TablesAfterAll(env, tables, lines) == tables && Denotes(env, line, c)
    requires allLines != [] && allLines[..|allLines| - 1] == lines && allLines[|allLines| - 1] == line
    requires allCmds != [] && allCmds[..|allCmds| - 1] == cmds && allCmds[|allCmds| - 1] == c
    ensures CommandsOf(env, tables, allLines) == allCmds
  {
    LineDenotes(env, tables, line, c);
    FrontLast(allCmds);
  }

  lemma LineDenotes(env: Env, tables: Tables, line: string, c: Cmd)
    requires Denotes(env, line, c)
    ensures Meaning(env, tables, line) == Does(c) && TablesAfter(env, tables, line) == tables
  {
  }

  lemma {:induction false} LinesDenote(env: Env, ls: seq<Literal>)
    requires ReadsLiterals(env)
    ensures AllDenote(env, Lines(ls), Commands(ls))
  {
    if ls != [] {
      var front, last := ls[..|ls| - 1], ls[|ls| - 1];
      LinesDenote(env, front);
      BlockDenotes(env, CurrentQuad(front), last);
    }
  }

  lemma BlockDenotes(env: Env, current: nat, l: Literal)
    requires ReadsLiterals(env)
    ensures AllDenote(env, LineBlock(current, l), Block(current, l))
  {
    WriteLineDenotes(env, SELECTOR_REGISTER, l.quad);
    WriteLineDenotes(env, l.reg, l.value);
    SettleDenotes(env);
  }

  /** What the interpreter makes of one block. */
  lemma BlockAbsorbed(a: Abs, current: nat, l: Literal)
    requires !a.conditional && ValidLiteral(l) && (current < QUAD_COUNT ==> a.selector == Some(current))
    ensures var r := AbsorbAll(a, Block(current, l));
            && r.finals == a.finals[Loc(l.quad, l.reg) := l.value] && r.selector == Some(l.quad)
            && r.conditional == a.conditional && r.conditionalWrite == a.conditionalWrite && r.failed == a.failed
  {
    var selected := if l.quad != current then [Select(l.quad), Other] else [];
    AbsorbConcat(a, selected, [Put(l), Other]);
    AbsorbTwo(AbsorbAll(a, selected), Put(l), Other);
    AbsorbTwo(a, Select(l.quad), Other);
  }

  lemma AbsorbTwo(a: Abs, c: Cmd, d: Cmd)
    ensures AbsorbAll(a, [c, d]) == Absorb(Absorb(a, c), d)
  {
    assert [c, d][..1] == [c] && [c][..0] == [];
    assert AbsorbAll(a, [c]) == Absorb(a, c);
  }

  /** The interpreter's knowledge after the whole list: the stored values, no failure, nothing conditional. */
  lemma {:induction false} LiteralsAbsorbed(a: Abs, ls: seq<Literal>)
    requires !a.conditional && ValidLiterals(ls)
    ensures var r := AbsorbAll(a, Commands(ls));
            && r.finals == Store(a.finals, ls) && (ls != [] ==> r.selector == Some(CurrentQuad(ls)))
            && r.conditional == a.conditional && r.conditionalWrite == a.conditionalWrite && r.failed == a.failed
  {
    if ls != [] {
      var front, last := ls[..|ls| - 1], ls[|ls| - 1];
      LiteralsAbsorbed(a, front);
      AbsorbConcat(a, Commands(front), Block(CurrentQuad(front), last));
      BlockAbsorbed(AbsorbAll(a, Commands(front)), CurrentQuad(front), last);
    }
  }

  lemma {:induction false} RunConcat(m: Machine, xs: seq<Cmd>, ys: seq<Cmd>)
    ensures Run(m, xs + ys) == Run(Run(m, xs), ys)
    decreases |ys|
  {
    if ys == [] {
      assert xs + ys == xs;
    } else {
      RunConcat(m, xs, ys[..|ys| - 1]);
      assert (xs + ys)[..|xs + ys| - 1] == xs + ys[..|ys| - 1];
    }
  }

  /** Inside one block only the quad's own write changes the banks. */
  lemma {:induction false} BlockRun(m: Machine, current: nat, l: Literal, n: nat)
    requires ValidLiteral(l) && (current < QUAD_COUNT ==> m.selector == current) && n <= |Block(current, l)|
    ensures var r := Run(m, Block(current, l)[..n]);
            var put := |Block(current, l)| - 2;
            && r.banks == (if n <= put then m.banks else m.banks[Loc(l.quad, l.reg) := l.value])
            && (n >= put ==> r.selector == l.quad)
    decreases n
  {
    var block := Block(current, l);
    if n > 0 {
      BlockRun(m, current, l, n - 1);
      assert block[..n][..n - 1] == block[..n - 1];
      assert block[n - 1] == if n == |block| - 1 then Put(l) else if n == |block| || n == 2 then Other else Select(l.quad);
    }
  }

  /** How many literals have been written once `n` commands have run. */
  function Progress(ls: seq<Literal>, n: nat): (j: nat)
    requires n <= |Commands(ls)|
    ensures j <= |ls|
  {
    if ls == [] then 0
    else
      var before := Commands(ls[..|ls| - 1]);
      if n <= |before| then Progress(ls[..|ls| - 1], n)
      else if n < |Commands(ls)| - 1 then |ls| - 1 else |ls|
  }

  lemma {:induction false} LiteralsRunAll(m: Machine, ls: seq<Literal>)
    requires ValidLiterals(ls)
    ensures Run(m, Commands(ls)).banks == Store(m.banks, ls)
    ensures ls != [] ==> Run(m, Commands(ls)).selector == CurrentQuad(ls)
    decreases |ls|
  {
    if ls != [] {
      var front, last := ls[..|ls| - 1], ls[|ls| - 1];
      var before, block := Commands(front), Block(CurrentQuad(front), last);
      LiteralsRunAll(m, front);
      BlockRun(Run(m, before), CurrentQuad(front), last, |block|);
      assert block[..|block|] == block;
      RunConcat(m, before, block);
    }
  }

  /** A module executing the script, stopped anywhere, holds the literals written so far and nothing else. */
  lemma {:induction false} LiteralsRun(m: Machine, ls: seq<Literal>, n: nat)
    requires ValidLiterals(ls) && n <= |Commands(ls)|
    ensures Run(m, Commands(ls)[..n]).banks == Store(m.banks, ls[..Progress(ls, n)])
    decreases |ls|
  {
    if ls != [] {
      var front, last := ls[..|ls| - 1], ls[|ls| - 1];
      var before, block := Commands(front), Block(CurrentQuad(front), last);
      if n <= |before| {
        LiteralsRun(m, front, n);
        assert (before + block)[..n] == before[..n];
        assert ls[..Progress(ls, n)] == front[..Progress(front, n)];
      } else {
        LastBlockRun(m, front, last, n - |before|);
        assert (before + block)[..n] == before + block[..n - |before|];
        assert ls[..|ls|] == ls;
      }
    }
  }

  lemma LastBlockRun(m: Machine, front: seq<Literal>, last: Literal, k: nat)
    requires ValidLiterals(front) && ValidLiteral(last) && k <= |Block(CurrentQuad(front), last)|
    ensures var block := Block(CurrentQuad(front), last);
            Run(m, Commands(front) + block[..k]).banks
            == if k <= |block| - 2 then Store(m.banks, front) else Store(m.banks, front)[Loc(last.quad, last.reg) := last.value]
  {
    var block := Block(CurrentQuad(front), last);
    LiteralsRunAll(m, front);
    RunConcat(m, Commands(front), block[..k]);
    BlockRun(Run(m, Commands(front)), CurrentQuad(front), last, k);
  }

  predicate Touches(ls: seq<Literal>, l: Loc) { exists i | 0 <= i < |ls| :: Loc(ls[i].quad, ls[i].reg) == l }

  lemma {:induction false} StoreUntouched(b: Banks, ls: seq<Literal>, l: Loc)
    requires !Touches(ls, l)
    ensures Value(Store(b, ls), l) == Value(b, l)
  {
    if ls != [] { StoreUntouched(b, ls[..|ls| - 1], l); }
  }
}
