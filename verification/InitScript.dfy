/** Line syntax of init scripts: which prepared lines parse, what command they denote, and how `set`
    changes later lines. Everything here depends on text and variable tables only. */
module ScriptSyntax {
  import opened Words
  import opened ScpRegistry
  import opened Numerals
  import opened ScriptSemantics

  /** One variable table per scope, innermost first; an unresolved binding is None. */
  type Tables = seq<map<string, Option<string>>>

  datatype Prepared = Prepared(success: bool, parts: seq<string>, rawParts: seq<string>)

  /** The number and text services the evaluator relies on, as arbitrary functions: variable and
      expression expansion of a line, conversion of a token to an unsigned 32-bit value, and the
      long-form address conversion. */
  datatype Env = Env(
    base: u32,
    prepare: (Tables, string) -> Prepared,
    resolve: string -> Option<u32>,
    longAddress: string -> Option<u32>)

  function LowerChar(c: char): char { if 'A' <= c <= 'Z' then c + 32 as char else c }

  function Lower(s: string): string { seq(|s|, i requires 0 <= i < |s| => LowerChar(s[i])) }

  predicate AddressModeValid(env: Env, text: string) {
    var mode := Lower(text);
    mode in {"a16", "a24", "a32", "cr"} || (env.longAddress(mode).Some? && env.longAddress(mode).value < 0xFF)
  }

  predicate DataWidthValid(text: string) { Lower(text) in {"d16", "d32"} }

  predicate KnownNonFrontend(command: string) {
    command in {"read", "readabs", "accu_mask_rotate", "accu_test_warn", "wait", "print"}
  }

  /** Number of leading digits. */
  function DigitPrefix(s: string): (n: nat)
    ensures n <= |s|
  {
    if s == [] || !IsDigit(s[0]) then 0 else 1 + DigitPrefix(s[1..])
  }

  predicate WaitValid(parts: seq<string>) {
    && |parts| == 2
    && var digits := DigitPrefix(parts[1]);
    && digits > 0
    && parts[1][digits..] in {"", "s", "ms", "ns"}
    && ParseDecimal(parts[1][..digits]).Some? && ParseDecimal(parts[1][..digits]).value < 0x1_0000_0000
  }

  predicate ReadValid(env: Env, parts: seq<string>) {
    && 4 <= |parts| <= 6
    && AddressModeValid(env, parts[1]) && DataWidthValid(parts[2]) && env.longAddress(parts[3]).Some?
    && forall i | 4 <= i < |parts| :: Lower(parts[i]) in {"slow", "late", "fifo", "mem"}
  }

  predicate AccuTestValid(env: Env, parts: seq<string>) {
    && |parts| == 4
    && Lower(parts[1]) in {"==", "eq", "=", "!=", "neq", "<", "lt", "<=", "lte", ">", "gt", ">=", "gte"}
    && env.resolve(parts[2]).Some?
  }

  predicate NonFrontendValid(env: Env, parts: seq<string>)
    requires |parts| > 0
  {
    var command := parts[0];
    if command == "wait" then WaitValid(parts)
    else if command == "read" || command == "readabs" then ReadValid(env, parts)
    else if command == "accu_mask_rotate" then
      |parts| == 3 && env.resolve(parts[1]).Some? && env.resolve(parts[2]).Some?
    else if command == "accu_test_warn" then AccuTestValid(env, parts)
    else command == "print"
  }

  /** Module-relative address of an absolute one; none below the module. */
  function Relative(env: Env, absolute: u32): Option<u32> {
    if absolute < env.base then None else Some(absolute - env.base)
  }

  function LongTarget(env: Env, command: string, address: u32): Option<u32> {
    if command == "writeabs" then Relative(env, address) else Some(address)
  }

  datatype Impact = NonFrontend | Frontend

  datatype Syntax = Valid | Invalid(impact: Impact)

  function OutsideFrontend(target: Option<u32>): Impact {
    if target.Some? && !IsFrontend(target.value) then NonFrontend else Frontend
  }

  /** ValidatePreparedLineSyntax. */
  function CheckSyntax(env: Env, parts: seq<string>): Syntax
    requires |parts| > 0 && parts[0] != ""
  {
    var command := parts[0];
    if command == "accu_test" || command == "accu_test_warn" then
      if AccuTestValid(env, parts) then Valid else Invalid(NonFrontend)
    else if command == "set" then
      if |parts| == 3 && parts[1] != "" then Valid else Invalid(NonFrontend)
    else if KnownNonFrontend(command) then
      if NonFrontendValid(env, parts) then Valid else Invalid(NonFrontend)
    else if command == "write" || command == "writeabs" then
      if |parts| != 5 || !AddressModeValid(env, parts[1]) || !DataWidthValid(parts[2]) then Invalid(Frontend)
      else if env.longAddress(parts[3]).None? then Invalid(Frontend)
      else if env.resolve(parts[4]).None? then
        Invalid(OutsideFrontend(LongTarget(env, command, env.longAddress(parts[3]).value)))
      else Valid
    else if !IsDigit(command[0]) then Invalid(Frontend)
    else
      var impact := OutsideFrontend(env.resolve(command));
      if env.resolve(command).None? || |parts| != 2 then Invalid(impact)
      else if env.resolve(parts[1]).None? then Invalid(impact)
      else Valid
  }

  /** The command a valid line denotes (`set` is a parse-time directive, not a command). */
  function CommandOf(env: Env, parts: seq<string>): (c: Cmd)
    requires |parts| > 0 && parts[0] != "" && CheckSyntax(env, parts) == Valid && parts[0] != "set"
    ensures c.Write? && c.supported ==> c.target.Some?
  {
    var command := parts[0];
    if command == "accu_test" then AccuTest
    else if KnownNonFrontend(command) then Other
    else if command == "write" || command == "writeabs" then
      Write(LongTarget(env, command, env.longAddress(parts[3]).value), SupportedLong(parts), env.resolve(parts[4]).value)
    else Write(Some(env.resolve(command).value), true, env.resolve(parts[1]).value)
  }

  predicate SetComplete(parts: seq<string>) { |parts| == 3 && parts[1] != "" }

  /** A long write with all that is needed to interpret it. */
  predicate LongWriteComplete(env: Env, parts: seq<string>) {
    |parts| == 5 && env.longAddress(parts[3]).Some? && env.resolve(parts[4]).Some?
  }

  function LongWriteOf(env: Env, parts: seq<string>): Cmd
    requires LongWriteComplete(env, parts)
  {
    Write(LongTarget(env, parts[0], env.longAddress(parts[3]).value), SupportedLong(parts), env.resolve(parts[4]).value)
  }

  predicate SupportedLong(parts: seq<string>)
    requires |parts| == 5
  {
    parts[0] != "writeabs" && Lower(parts[1]) == "a32" && Lower(parts[2]) == "d16"
  }

  /** What evaluating a long write itself rejects. */
  predicate LongWriteDefective(env: Env, parts: seq<string>)
    requires |parts| > 0
  {
    || |parts| != 5 || env.longAddress(parts[3]).None?
    || (SupportedLong(parts) && IsFrontend(env.longAddress(parts[3]).value) && env.resolve(parts[4]).None?)
  }

  /** What evaluating a shorthand write itself rejects. */
  predicate ShorthandDefective(env: Env, parts: seq<string>)
    requires |parts| > 0
  {
    || env.resolve(parts[0]).None? || |parts| != 2
    || (IsFrontend(env.resolve(parts[0]).value) && env.resolve(parts[1]).None?)
  }

  /** A long write that passed the syntax check has no further defect. */
  lemma ValidLongWrite(env: Env, parts: seq<string>)
    requires |parts| > 0 && (parts[0] == "write" || parts[0] == "writeabs") && CheckSyntax(env, parts) == Valid
    ensures LongWriteComplete(env, parts) && !LongWriteDefective(env, parts) && CommandOf(env, parts) == LongWriteOf(env, parts)
  {
  }

  /** A statement that is none of the named ones. */
  predicate IsShorthand(command: string) {
    command !in {"set", "accu_test", "write", "writeabs"} && !KnownNonFrontend(command)
  }

  /** A shorthand write that passed the syntax check has no further defect. */
  lemma ValidShorthand(env: Env, parts: seq<string>)
    requires |parts| > 0 && parts[0] != "" && IsShorthand(parts[0]) && CheckSyntax(env, parts) == Valid
    ensures |parts| == 2 && env.resolve(parts[0]).Some? && env.resolve(parts[1]).Some? && !ShorthandDefective(env, parts)
    ensures CommandOf(env, parts) == Write(Some(env.resolve(parts[0]).value), true, env.resolve(parts[1]).value)
  {
  }

  /** The remaining statements that passed the syntax check. */
  lemma ValidOther(env: Env, parts: seq<string>)
    requires |parts| > 0 && parts[0] != "" && CheckSyntax(env, parts) == Valid
    ensures parts[0] == "accu_test" ==> CommandOf(env, parts) == AccuTest
    ensures KnownNonFrontend(parts[0]) ==> CommandOf(env, parts) == Other
    ensures parts[0] == "set" ==> SetComplete(parts)
  {
  }

  datatype LineMeaning = Rejected | Directive | Does(cmd: Cmd)

  /** What a line means; a function of its text and the tables. */
  function Meaning(env: Env, tables: Tables, line: string): LineMeaning {
    var p := env.prepare(tables, line);
    if !p.success || |p.parts| == 0 || p.parts[0] == "" then Rejected
    else if CheckSyntax(env, p.parts).Invalid? then Rejected
    else if p.parts[0] == "set" then Directive
    else Does(CommandOf(env, p.parts))
  }

  function Bind(tables: Tables, name: string, value: Option<string>): Tables {
    if tables == [] then [map[name := value]] else tables[0 := tables[0][name := value]]
  }

  /** The tables after a line: `set` binds, a rejected `set` unbinds. */
  function TablesAfter(env: Env, tables: Tables, line: string): Tables {
    var p := env.prepare(tables, line);
    if !p.success || |p.parts| == 0 || p.parts[0] == "" then
      if |p.rawParts| > 1 && Lower(p.rawParts[0]) == "set" && p.rawParts[1] != "" then Bind(tables, p.rawParts[1], None)
      else tables
    else if p.parts[0] != "set" then tables
    else if CheckSyntax(env, p.parts) == Valid then Bind(tables, p.parts[1], Some(p.parts[2]))
    else if |p.parts| > 1 && p.parts[1] != "" then Bind(tables, p.parts[1], None)
    else tables
  }

  function TablesAfterAll(env: Env, tables: Tables, lines: seq<string>): Tables {
    if lines == [] then tables
    else TablesAfter(env, TablesAfterAll(env, tables, lines[..|lines| - 1]), lines[|lines| - 1])
  }

  /** A script: its non-blank lines with comments stripped, its variable tables, and whether a block
      comment was left open. */
  datatype Script = Script(lines: seq<string>, tables: Tables, unterminated: bool)

  /** The parser rejects some line. Depends on text and tables alone. */
  predicate AnyRejected(env: Env, tables: Tables, lines: seq<string>) {
    lines != [] &&
    var before := lines[..|lines| - 1];
    || AnyRejected(env, tables, before)
    || Meaning(env, TablesAfterAll(env, tables, before), lines[|lines| - 1]) == Rejected
  }

  predicate ParseFails(env: Env, s: Script) { s.unterminated || AnyRejected(env, s.tables, s.lines) }

  /** The commands of the lines that denote one. */
  function CommandsOf(env: Env, tables: Tables, lines: seq<string>): seq<Cmd> {
    if lines == [] then []
    else
      var before := lines[..|lines| - 1];
      var meaning := Meaning(env, TablesAfterAll(env, tables, before), lines[|lines| - 1]);
      CommandsOf(env, tables, before) + if meaning.Does? then [meaning.cmd] else []
  }

  /** Entries of a module's script list. */
  datatype Entry = Malformed | Disabled | Enabled(script: Script)

  /** The commands that execute: those of enabled scripts that parse, in order. */
  function Program(env: Env, entries: seq<Entry>): seq<Cmd> {
    if entries == [] then []
    else
      var e := entries[|entries| - 1];
      Program(env, entries[..|entries| - 1])
      + if e.Enabled? && !ParseFails(env, e.script) then CommandsOf(env, e.script.tables, e.script.lines) else []
  }
}

/** The passive evaluator of init scripts. */
module InitScript {
  import opened Words
  import opened ScpRegistry
  import opened Crate
  import opened ScriptSemantics
  import opened ScriptSyntax

  datatype Location = Location(script: nat, line: nat)
  datatype Issue = Issue(location: Location, impact: Impact, conditional: bool)
  datatype FinalValue = FinalValue(location: Location, value: u16)
  datatype LocatedWrite = LocatedWrite(location: Location, write: FrontendWrite)
  datatype LocatedAssignment = LocatedAssignment(location: Location, value: u16)

  datatype State = Complete | CompleteWithUnresolvedNonFrontend | ConditionalAfterAccuTest | Failed

  /** What EvaluateScript keeps aside before a script. */
  datatype Saved = Saved(
    selector: Option<u16>, conditionalSelector: Option<u16>,
    statementsConditional: bool, conditionalFrontendWrite: bool,
    accuTestLocation: Option<Location>, finalValues: map<Loc, FinalValue>,
    assignmentCount: nat, writeCount: nat, ghost failed: bool)

  function Values(m: map<Loc, FinalValue>): map<Loc, u16> { map l | l in m :: m[l].value }

  function Writes(ws: seq<LocatedWrite>): seq<FrontendWrite> {
    seq(|ws|, i requires 0 <= i < |ws| => ws[i].write)
  }

  function Assigned(xs: seq<LocatedAssignment>): seq<u16> {
    seq(|xs|, i requires 0 <= i < |xs| => xs[i].value)
  }

  /** The first quads of a register column. */
  function ColumnTo(reg: nat, quads: nat): set<Loc> { set q | 0 <= q < quads :: Loc(q, reg) }

  /** Some issue is a definite frontend failure. */
  predicate HasFrontend(issues: seq<Issue>) {
    issues != [] &&
    var last := issues[|issues| - 1];
    (last.impact == Frontend && !last.conditional) || HasFrontend(issues[..|issues| - 1])
  }

  lemma HasFrontendAppend(issues: seq<Issue>, i: Issue)
    ensures HasFrontend(issues + [i]) <==> HasFrontend(issues) || (i.impact == Frontend && !i.conditional)
  {
  }

  /** One entry of a script list: a rejected script contributes nothing. */
  function AfterEntry(env: Env, a: Abs, e: Entry): Abs {
    match e
    case Malformed => a.(failed := true, selector := None)
    case Disabled => a
    case Enabled(script) =>
      if ParseFails(env, script) then a else AbsorbAll(a, CommandsOf(env, script.tables, script.lines))
  }

  /** The whole evaluation, on the interpreter's knowledge. */
  function Interpret(env: Env, entries: seq<Entry>): Abs {
    if entries == [] then INITIAL
    else AfterEntry(env, Interpret(env, entries[..|entries| - 1]), entries[|entries| - 1])
  }

  predicate Contributes(env: Env, e: Entry) { !(e.Enabled? && ParseFails(env, e.script)) }

  /** No script of the list is rejected. */
  predicate AllContribute(env: Env, entries: seq<Entry>) {
    entries != [] ==> AllContribute(env, entries[..|entries| - 1]) && Contributes(env, entries[|entries| - 1])
  }

  function EnabledCount(entries: seq<Entry>): nat {
    if entries == [] then 0
    else EnabledCount(entries[..|entries| - 1]) + if entries[|entries| - 1].Enabled? then 1 else 0
  }

  /** The script list without the scripts that fail to parse. */
  function Parsing(env: Env, entries: seq<Entry>): seq<Entry> {
    if entries == [] then []
    else
      var e := entries[|entries| - 1];
      Parsing(env, entries[..|entries| - 1]) + if Contributes(env, e) then [e] else []
  }

  /** Rollback is exact: a script list leaves the same selector, writes, assignments and values as the
      list without its parse-failing scripts. */
  lemma {:induction false} RollbackExact(env: Env, entries: seq<Entry>)
    ensures Interpret(env, entries) == Interpret(env, Parsing(env, entries))
    ensures Program(env, entries) == Program(env, Parsing(env, entries))
  {
    if entries != [] {
      var before, e := entries[..|entries| - 1], entries[|entries| - 1];
      RollbackExact(env, before);
      var kept := Parsing(env, before);
      if Contributes(env, e) { assert (kept + [e])[..|kept|] == kept; } else { assert kept + [] == kept; }
    }
  }

  lemma {:induction false} AllParsing(env: Env, entries: seq<Entry>)
    ensures |Parsing(env, entries)| <= |entries|
    ensures Parsing(env, entries) == entries <==> AllContribute(env, entries)
  {
    if entries != [] {
      var before := entries[..|entries| - 1];
      AllParsing(env, before);
      if Parsing(env, entries) == entries { assert Parsing(env, entries)[..|before|] == before; }
    }
  }

  lemma {:induction false} FailureSticks(a: Abs, cmds: seq<Cmd>)
    ensures a.failed ==> AbsorbAll(a, cmds).failed
  {
    if cmds != [] { FailureSticks(a, cmds[..|cmds| - 1]); }
  }

  /** Unless something failed, the script list amounts to its program. */
  lemma {:induction false} InterpretIsProgram(env: Env, entries: seq<Entry>)
    ensures Interpret(env, entries).failed
         || Interpret(env, entries) == AbsorbAll(INITIAL, Program(env, entries))
  {
    if entries != [] {
      var before, e := entries[..|entries| - 1], entries[|entries| - 1];
      InterpretIsProgram(env, before);
      var program := Program(env, before);
      assert program + [] == program;
      if e.Enabled? && !ParseFails(env, e.script) {
        var commands := CommandsOf(env, e.script.tables, e.script.lines);
        FailureSticks(Interpret(env, before), commands);
        AbsorbConcat(INITIAL, program, commands);
      }
    }
  }

  /** A command that leaves nothing to report unless it fails: a supported write to the frontend. */
  predicate Clean(cmd: Cmd) { cmd.Write? && cmd.supported && cmd.target.Some? && IsFrontend(cmd.target.value) }

  predicate AllClean(cmds: seq<Cmd>) { forall i | 0 <= i < |cmds| :: Clean(cmds[i]) }

  lemma AllCleanConcat(xs: seq<Cmd>, ys: seq<Cmd>)
    ensures AllClean(xs + ys) <==> AllClean(xs) && AllClean(ys)
  {
    if AllClean(xs + ys) {
      assert forall i | 0 <= i < |xs| :: xs[i] == (xs + ys)[i];
      assert forall i | 0 <= i < |ys| :: ys[i] == (xs + ys)[|xs| + i];
    }
  }

  lemma OneMoreEntry(env: Env, before: seq<Entry>, e: Entry)
    ensures Interpret(env, before + [e]) == AfterEntry(env, Interpret(env, before), e)
    ensures EnabledCount(before + [e]) == EnabledCount(before) + if e.Enabled? then 1 else 0
    ensures AllContribute(env, before + [e]) == (AllContribute(env, before) && Contributes(env, e))
    ensures AllClean(Program(env, before + [e]))
         == (AllClean(Program(env, before))
             && (e.Enabled? && !ParseFails(env, e.script) ==> AllClean(CommandsOf(env, e.script.tables, e.script.lines))))
  {
    assert (before + [e])[..|before|] == before;
    AllCleanConcat(Program(env, before),
                   if e.Enabled? && !ParseFails(env, e.script) then CommandsOf(env, e.script.tables, e.script.lines) else []);
  }

  /** Tables, rejection and absorbed commands after one more line. */
  lemma OneMoreLine(a: Abs, env: Env, tables: Tables, lines: seq<string>, i: nat)
    requires i < |lines|
    ensures var now := TablesAfterAll(env, tables, lines[..i]);
            var meaning := Meaning(env, now, lines[i]);
            var before := AbsorbAll(a, CommandsOf(env, tables, lines[..i]));
            && TablesAfterAll(env, tables, lines[..i + 1]) == TablesAfter(env, now, lines[i])
            && AnyRejected(env, tables, lines[..i + 1]) == (AnyRejected(env, tables, lines[..i]) || meaning == Rejected)
            && AbsorbAll(a, CommandsOf(env, tables, lines[..i + 1]))
               == (if meaning.Does? then Absorb(before, meaning.cmd) else before)
            && AllClean(CommandsOf(env, tables, lines[..i + 1]))
               == (AllClean(CommandsOf(env, tables, lines[..i])) && (meaning.Does? ==> Clean(meaning.cmd)))
  {
    assert lines[..i + 1][..i] == lines[..i];
    var commands := CommandsOf(env, tables, lines[..i]);
    var meaning := Meaning(env, TablesAfterAll(env, tables, lines[..i]), lines[i]);
    if meaning.Does? {
      assert (commands + [meaning.cmd])[..|commands|] == commands;
      AllCleanConcat(commands, [meaning.cmd]);
    }
    assert commands + [] == commands;
  }

  class Evaluator {
    const env: Env
    var selector: Option<u16>
    var conditionalSelector: Option<u16>
    var statementsConditional: bool
    var conditionalFrontendWrite: bool
    var scriptParseFailed: bool
    var parseFailureEncountered: bool
    var finalValues: map<Loc, FinalValue>
    var accuTestLocation: Option<Location>
    var selectorAssignments: seq<LocatedAssignment>
    var frontendWrites: seq<LocatedWrite>
    var issues: seq<Issue>
    var enabledScripts: nat
    ghost var failed: bool

    constructor (env: Env)
      ensures this.env == env && Ran([])
    {
      this.env := env;
      selector, conditionalSelector, accuTestLocation := None, None, None;
      statementsConditional, conditionalFrontendWrite := false, false;
      scriptParseFailed, parseFailureEncountered := false, false;
      finalValues, selectorAssignments, frontendWrites, issues, enabledScripts := map[], [], [], [], 0;
      failed := false;
    }

    ghost function View(): Abs
      reads this`selector, this`conditionalSelector, this`statementsConditional, this`conditionalFrontendWrite,
            this`failed, this`finalValues, this`frontendWrites, this`selectorAssignments
    {
      Abs(selector, conditionalSelector, statementsConditional, conditionalFrontendWrite, failed,
          Values(finalValues), Writes(frontendWrites), Assigned(selectorAssignments))
    }

    /** Until a script is rejected, the issue list knows exactly whether the frontend part failed; a test, a
        conditional write or a failure is always among the issues. */
    ghost predicate Valid()
      reads this`parseFailureEncountered, this`scriptParseFailed, this`issues, this`failed, this`statementsConditional,
            this`conditionalFrontendWrite
    {
      && (!parseFailureEncountered && !scriptParseFailed ==> (HasFrontend(issues) <==> failed))
      && (statementsConditional || conditionalFrontendWrite || failed ==> issues != [])
    }

    /** Nothing is reported of commands that are clean and do not fail, and of all others something is. */
    twostate predicate Reports(clean: bool)
      reads this`issues, this`failed
    {
      (old(failed) ==> failed) && (issues == [] <==> old(issues) == [] && clean && !failed)
    }

    /** Reports only grow, so a count taken earlier still denotes the same prefix. */
    twostate predicate Grows()
      reads this
    {
      && old(selectorAssignments) <= selectorAssignments && old(frontendWrites) <= frontendWrites
      && parseFailureEncountered == old(parseFailureEncountered) && enabledScripts == old(enabledScripts)
      && (old(scriptParseFailed) ==> scriptParseFailed) && (old(issues) != [] ==> issues != [])
    }

    method AddIssue(location: Location, impact: Impact, conditional: bool)
      modifies this`issues
      ensures issues == old(issues) + [Issue(location, impact, conditional)]
      ensures HasFrontend(issues) <==> HasFrontend(old(issues)) || (impact == Frontend && !conditional)
    {
      issues := issues + [Issue(location, impact, conditional)];
      HasFrontendAppend(old(issues), Issue(location, impact, conditional));
    }

    /** Something that does not concern the frontend, or may not happen, is reported and nothing else. */
    method Remark(location: Location, conditional: bool)
      requires Valid()
      modifies this`issues
      ensures Valid() && issues != []
    {
      AddIssue(location, NonFrontend, conditional);
    }

    /** A definite frontend failure. */
    method Fail(location: Location)
      requires Valid()
      modifies this`issues, this`failed
      ensures Valid() && failed && issues != []
    {
      AddIssue(location, Frontend, false);
      failed := true;
    }

    method SetSelector(location: Location, value: u16)
      requires Valid() && !statementsConditional
      modifies this
      ensures Valid() && Grows() && scriptParseFailed == old(scriptParseFailed)
      ensures View() == Absorb(old(View()), Write(Some(SELECTOR_REGISTER), true, value)) && Reports(true)
    {
      if value > BROADCAST {
        Fail(location);
        selector := None;
        return;
      }
      selector := Some(value);
      selectorAssignments := selectorAssignments + [LocatedAssignment(location, value)];
      assert Assigned(selectorAssignments) == Assigned(old(selectorAssignments)) + [value];
    }

    method SetFinalValues(location: Location, quadSelector: u16, reg: u16, value: u16)
      requires quadSelector <= BROADCAST
      modifies this`finalValues
      ensures Values(finalValues) == Poke(Values(old(finalValues)), quadSelector, reg, value)
    {
      if quadSelector == BROADCAST {
        SetEveryQuad(location, reg, value);
      } else {
        finalValues := finalValues[Loc(quadSelector, reg) := FinalValue(location, value)];
        assert Values(finalValues).Keys == Poke(Values(old(finalValues)), quadSelector, reg, value).Keys;
      }
    }

    method SetEveryQuad(location: Location, reg: u16, value: u16)
      modifies this`finalValues
      ensures Values(finalValues) == Poke(Values(old(finalValues)), BROADCAST, reg, value)
    {
      for quad := 0 to QUAD_COUNT
        invariant finalValues.Keys == old(finalValues).Keys + ColumnTo(reg, quad)
        invariant forall l | l in finalValues ::
                    finalValues[l].value == if l.reg == reg && l.quad < quad then value else old(finalValues)[l].value
      {
        finalValues := finalValues[Loc(quad, reg) := FinalValue(location, value)];
      }
      assert Values(finalValues).Keys == Poke(Values(old(finalValues)), BROADCAST, reg, value).Keys;
    }

    /** A rejected line spoils the whole script; its effect on the selector is undone with the script. */
    method Reject(location: Location, impact: Impact)
      requires Valid()
      modifies this`scriptParseFailed, this`issues, this`selector
      ensures scriptParseFailed && Valid() && issues != [] && (selector == None || selector == old(selector))
    {
      scriptParseFailed := true;
      AddIssue(location, impact, false);
      if impact == Frontend { selector := None; }
    }

    /** A defect found while evaluating spoils the script, as a rejected line does. */
    method MarkParseFailure(location: Location, impact: Impact)
      requires Valid()
      modifies this`scriptParseFailed, this`issues
      ensures scriptParseFailed && Valid() && issues != []
    {
      scriptParseFailed := true;
      AddIssue(location, impact, false);
    }

    /** EvaluateRelativeWrite: a supported write at a module-relative address. */
    method EvaluateRelativeWrite(location: Location, address: u32, valueText: string)
      requires Valid() && !statementsConditional && LegalAbs(View())
      modifies this
      ensures Valid() && Grows() && LegalAbs(View())
      ensures scriptParseFailed == (old(scriptParseFailed) || (IsFrontend(address) && env.resolve(valueText).None?))
      ensures env.resolve(valueText).Some? ==>
                View() == Absorb(old(View()), Write(Some(address), true, env.resolve(valueText).value)) && Reports(IsFrontend(address))
    {
      if !IsFrontend(address) {
        Remark(location, false);
        return;
      }
      var value := env.resolve(valueText);
      if value.None? {
        MarkParseFailure(location, Frontend);
        if address == SELECTOR_REGISTER { selector := None; }
        return;
      }
      EvaluateFrontendWrite(location, address, value.value);
    }

    /** A frontend write whose value is known. */
    method EvaluateFrontendWrite(location: Location, address: u32, value: u32)
      requires Valid() && !statementsConditional && LegalAbs(View()) && IsFrontend(address)
      modifies this
      ensures Valid() && Grows() && LegalAbs(View()) && scriptParseFailed == old(scriptParseFailed)
      ensures View() == Absorb(old(View()), Write(Some(address), true, value)) && Reports(true)
    {
      if value > 0xFFFF {
        Fail(location);
        if address == SELECTOR_REGISTER { selector := None; }
        return;
      }
      if address == SELECTOR_REGISTER {
        SetSelector(location, value);
        return;
      }
      if selector.None? {
        Fail(location);
        return;
      }
      StoreWrite(location, address, value);
    }

    /** A banked write under a known selector. */
    method StoreWrite(location: Location, reg: u16, value: u16)
      requires Valid() && !statementsConditional && LegalAbs(View()) && selector.Some? && IsSetting(reg)
      modifies this`frontendWrites, this`finalValues
      ensures Grows() && View() == Absorb(old(View()), Write(Some(reg), true, value))
    {
      frontendWrites := frontendWrites + [LocatedWrite(location, FrontendWrite(reg, value, selector.value))];
      assert Writes(frontendWrites) == Writes(old(frontendWrites)) + [FrontendWrite(reg, value, selector.value)];
      SetFinalValues(location, selector.value, reg, value);
    }

    /** EvaluateLongWrite: other forms are reported, never interpreted. */
    method EvaluateLongWrite(location: Location, parts: seq<string>)
      requires Valid() && !statementsConditional && LegalAbs(View()) && |parts| > 0
      modifies this
      ensures Valid() && Grows() && LegalAbs(View())
      ensures scriptParseFailed == (old(scriptParseFailed) || LongWriteDefective(env, parts))
      ensures LongWriteComplete(env, parts) ==>
                View() == Absorb(old(View()), LongWriteOf(env, parts)) && Reports(Clean(LongWriteOf(env, parts)))
    {
      if |parts| < 4 {
        Reject(location, Frontend);
        return;
      }
      var address := env.longAddress(parts[3]);
      if address.None? {
        Reject(location, Frontend);
        return;
      }
      var target := LongTarget(env, parts[0], address.value);
      if |parts| != 5 { scriptParseFailed := true; }
      var supported := |parts| == 5 && Lower(parts[1]) == "a32" && Lower(parts[2]) == "d16" && parts[0] != "writeabs";
      if !supported {
        ReportUnsupported(location, target);
        return;
      }
      EvaluateRelativeWrite(location, target.value, parts[4]);
    }

    /** A write form that is reported and not interpreted. */
    method ReportUnsupported(location: Location, target: Option<u32>)
      requires Valid() && !statementsConditional && LegalAbs(View())
      modifies this`issues, this`failed, this`selector
      ensures Valid() && LegalAbs(View()) && issues != [] && (old(failed) ==> failed)
      ensures forall value: u32 :: View() == Absorb(old(View()), Write(target, false, value))
    {
      if target.Some? && IsFrontend(target.value) { Fail(location); } else { Remark(location, false); }
      if target.None? || target.value == SELECTOR_REGISTER { selector := None; }
    }

    /** A digit-first line: an address and exactly one value. */
    method EvaluateShorthand(location: Location, parts: seq<string>)
      requires Valid() && !statementsConditional && LegalAbs(View()) && |parts| > 0
      modifies this
      ensures Valid() && Grows() && LegalAbs(View())
      ensures scriptParseFailed == (old(scriptParseFailed) || ShorthandDefective(env, parts))
      ensures |parts| == 2 && env.resolve(parts[0]).Some? && env.resolve(parts[1]).Some? ==>
                && View() == Absorb(old(View()), Write(Some(env.resolve(parts[0]).value), true, env.resolve(parts[1]).value))
                && Reports(IsFrontend(env.resolve(parts[0]).value))
    {
      var address := env.resolve(parts[0]);
      if address.None? {
        Reject(location, Frontend);
        return;
      }
      if |parts| != 2 {
        MarkParseFailure(location, if IsFrontend(address.value) then Frontend else NonFrontend);
        if address.value == SELECTOR_REGISTER { selector := None; }
        return;
      }
      EvaluateRelativeWrite(location, address.value, parts[1]);
    }

    /** TaintConditionalFrontendValue: forget what a possible write could have touched. */
    method Taint(target: Option<u32>, valueText: string)
      requires statementsConditional && LegalAbs(View())
      modifies this`finalValues, this`conditionalSelector
      ensures LegalAbs(View())
      ensures (target.Some? ==> IsFrontend(target.value)) && env.resolve(valueText).Some? ==>
                View().(conditionalWrite := true) == Absorb(old(View()), Write(target, true, env.resolve(valueText).value))
    {
      if target.None? || target.value > 0xFFFF {
        finalValues, conditionalSelector := map[], None;
        return;
      }
      var reg := target.value;
      if reg == SELECTOR_REGISTER {
        var value := env.resolve(valueText);
        conditionalSelector := if value.None? || value.value > BROADCAST then None else Some(value.value);
        return;
      }
      if FindSetting(reg).None? {
        finalValues := map[];
        return;
      }
      if conditionalSelector.None? || conditionalSelector.value == BROADCAST {
        for quad := 0 to QUAD_COUNT
          invariant finalValues == old(finalValues) - ColumnTo(reg, quad) && conditionalSelector == old(conditionalSelector)
        {
          finalValues := finalValues - {Loc(quad, reg)};
        }
        assert finalValues == old(finalValues) - Column(reg);
        assert Values(finalValues) == Values(old(finalValues)) - Column(reg);
        return;
      }
      finalValues := finalValues - {Loc(conditionalSelector.value, reg)};
      assert Values(finalValues) == Values(old(finalValues)) - {Loc(conditionalSelector.value, reg)};
    }

    /** A frontend write that may or may not happen. */
    method TaintFrontend(location: Location, target: Option<u32>, valueText: string)
      requires Valid() && statementsConditional && LegalAbs(View())
      modifies this`finalValues, this`conditionalSelector, this`conditionalFrontendWrite, this`issues
      ensures Valid() && LegalAbs(View()) && issues != []
      ensures (target.Some? ==> IsFrontend(target.value)) && env.resolve(valueText).Some? ==>
                View() == Absorb(old(View()), Write(target, true, env.resolve(valueText).value))
    {
      conditionalFrontendWrite := true;
      Taint(target, valueText);
      AddIssue(location, Frontend, true);
    }

    /** What a write statement could touch: its target, and the text of its value. */
    method ConditionalTarget(parts: seq<string>) returns (target: Option<u32>, valueText: string)
      requires |parts| > 0 && parts[0] != ""
      ensures CheckSyntax(env, parts) == Syntax.Valid && (parts[0] == "write" || parts[0] == "writeabs" || IsShorthand(parts[0])) ==>
                && env.resolve(valueText).Some?
                && CommandOf(env, parts).Write? && CommandOf(env, parts).target == target
                && CommandOf(env, parts).value == env.resolve(valueText).value
    {
      target, valueText := None, "";
      if parts[0] == "write" || parts[0] == "writeabs" {
        if CheckSyntax(env, parts) == Syntax.Valid { ValidLongWrite(env, parts); }
        if |parts| >= 4 && env.longAddress(parts[3]).Some? {
          target := LongTarget(env, parts[0], env.longAddress(parts[3]).value);
          if |parts| > 4 { valueText := parts[4]; }
        }
      } else {
        if IsShorthand(parts[0]) && CheckSyntax(env, parts) == Syntax.Valid { ValidShorthand(env, parts); }
        target := env.resolve(parts[0]);
        if target.Some? && |parts| > 1 { valueText := parts[1]; }
      }
    }

    /** EvaluateConditionalLine: after an accu_test nothing is extracted, only forgotten. */
    method EvaluateConditional(location: Location, tables: Tables, parts: seq<string>) returns (next: Tables)
      requires Valid() && statementsConditional && LegalAbs(View()) && |parts| > 0 && parts[0] != ""
      modifies this`finalValues, this`conditionalSelector, this`conditionalFrontendWrite, this`issues
      ensures Valid() && LegalAbs(View()) && issues != []
      ensures parts[0] != "set" ==> next == tables
      ensures parts[0] != "set" && CheckSyntax(env, parts) == Syntax.Valid ==> View() == Absorb(old(View()), CommandOf(env, parts))
    {
      next := tables;
      if parts[0] == "set" {
        if |parts| > 1 && parts[1] != "" { next := Bind(tables, parts[1], None); }
        Remark(location, true);
        return;
      }
      EvaluateConditionalCommand(location, parts);
    }

    /** A statement after an accu_test that is not a `set`. */
    method EvaluateConditionalCommand(location: Location, parts: seq<string>)
      requires Valid() && statementsConditional && LegalAbs(View()) && |parts| > 0 && parts[0] != "" && parts[0] != "set"
      modifies this`finalValues, this`conditionalSelector, this`conditionalFrontendWrite, this`issues
      ensures Valid() && LegalAbs(View()) && issues != []
      ensures CheckSyntax(env, parts) == Syntax.Valid ==> View() == Absorb(old(View()), CommandOf(env, parts))
    {
      if CheckSyntax(env, parts) == Syntax.Valid { ValidOther(env, parts); }
      if KnownNonFrontend(parts[0]) || parts[0] == "accu_test" {
        Remark(location, true);
        return;
      }
      var target, valueText := ConditionalTarget(parts);
      if target.Some? && !IsFrontend(target.value) {
        Remark(location, true);
        return;
      }
      TaintFrontend(location, target, valueText);
    }

    /** EvaluateSet: binds a name, or rejects a form the syntax check would not have passed. */
    method EvaluateSet(location: Location, tables: Tables, parts: seq<string>) returns (next: Tables)
      requires Valid()
      modifies this`scriptParseFailed, this`issues
      ensures Valid() && scriptParseFailed == (old(scriptParseFailed) || !SetComplete(parts))
      ensures SetComplete(parts) ==> next == Bind(tables, parts[1], Some(parts[2])) && issues == old(issues)
    {
      next := tables;
      var named := |parts| > 1 && parts[1] != "";
      if |parts| != 3 || !named {
        if named { next := Bind(tables, parts[1], None); }
        MarkParseFailure(location, NonFrontend);
        return;
      }
      next := Bind(tables, parts[1], Some(parts[2]));
    }

    /** From an accu_test on, nothing is certain to be executed. */
    method BeginTest(location: Location)
      requires Valid() && !statementsConditional && LegalAbs(View())
      modifies this`accuTestLocation, this`conditionalSelector, this`issues, this`statementsConditional
      ensures Valid() && LegalAbs(View()) && issues != [] && View() == Absorb(old(View()), AccuTest)
      ensures accuTestLocation == Some(location)
    {
      accuTestLocation := Some(location);
      conditionalSelector := selector;
      Remark(location, false);
      statementsConditional := true;
    }

    /** The statements before any accu_test. */
    method EvaluateDefinite(location: Location, parts: seq<string>)
      requires Valid() && !statementsConditional && LegalAbs(View()) && |parts| > 0 && parts[0] != "" && parts[0] != "set"
      requires CheckSyntax(env, parts) == Syntax.Valid
      modifies this
      ensures Valid() && Grows() && LegalAbs(View()) && scriptParseFailed == old(scriptParseFailed)
      ensures View() == Absorb(old(View()), CommandOf(env, parts)) && Reports(Clean(CommandOf(env, parts)))
    {
      ValidOther(env, parts);
      if parts[0] == "accu_test" {
        BeginTest(location);
        return;
      }
      if parts[0] == "write" || parts[0] == "writeabs" {
        ValidLongWrite(env, parts);
        EvaluateLongWrite(location, parts);
        return;
      }
      if KnownNonFrontend(parts[0]) {
        Remark(location, false);
        return;
      }
      ValidShorthand(env, parts);
      EvaluateShorthand(location, parts);
    }

    /** A line that passed the syntax check. */
    method EvaluateParts(location: Location, tables: Tables, parts: seq<string>) returns (next: Tables)
      requires Valid() && LegalAbs(View()) && |parts| > 0 && parts[0] != "" && CheckSyntax(env, parts) == Syntax.Valid
      modifies this
      ensures Valid() && Grows() && LegalAbs(View()) && scriptParseFailed == old(scriptParseFailed)
      ensures parts[0] == "set" ==>
                SetComplete(parts) && next == Bind(tables, parts[1], Some(parts[2])) && View() == old(View()) && Reports(true)
      ensures parts[0] != "set" ==>
                next == tables && View() == Absorb(old(View()), CommandOf(env, parts)) && Reports(Clean(CommandOf(env, parts)))
    {
      next := tables;
      if parts[0] == "set" {
        ValidOther(env, parts);
        next := EvaluateSet(location, tables, parts);
        return;
      }
      if statementsConditional {
        next := EvaluateConditional(location, tables, parts);
        return;
      }
      EvaluateDefinite(location, parts);
    }

    /** EvaluateLine. The later rejections of the statement methods never fire on a line that passed the
        syntax check, so a line is rejected exactly when its text and tables say so. */
    method EvaluateLine(location: Location, tables: Tables, line: string) returns (next: Tables)
      requires Valid() && LegalAbs(View())
      modifies this
      ensures Valid() && Grows() && LegalAbs(View())
      ensures next == TablesAfter(env, tables, line)
      ensures scriptParseFailed == (old(scriptParseFailed) || Meaning(env, tables, line) == Rejected)
      ensures Meaning(env, tables, line) == Directive ==> View() == old(View()) && Reports(true)
      ensures Meaning(env, tables, line).Does? ==>
                View() == Absorb(old(View()), Meaning(env, tables, line).cmd) && Reports(Clean(Meaning(env, tables, line).cmd))
    {
      var p := env.prepare(tables, line);
      if !p.success || |p.parts| == 0 || p.parts[0] == "" {
        next := RejectUnprepared(location, tables, p.rawParts);
        return;
      }
      var syntax := CheckSyntax(env, p.parts);
      if syntax.Invalid? {
        next := RejectSyntax(location, tables, p.parts, syntax.impact);
        return;
      }
      next := EvaluateParts(location, tables, p.parts);
    }

    /** A line that could not be expanded; a `set` among them forgets its name. */
    method RejectUnprepared(location: Location, tables: Tables, raw: seq<string>) returns (next: Tables)
      requires Valid() && LegalAbs(View())
      modifies this`scriptParseFailed, this`issues, this`selector
      ensures scriptParseFailed && Valid() && LegalAbs(View()) && issues != []
      ensures next == if |raw| > 1 && Lower(raw[0]) == "set" && raw[1] != "" then Bind(tables, raw[1], None) else tables
    {
      next := tables;
      if |raw| > 1 && Lower(raw[0]) == "set" && raw[1] != "" { next := Bind(tables, raw[1], None); }
      Reject(location, PreparationImpact(env, raw));
    }

    /** A line whose form is wrong; a `set` among them forgets its name. */
    method RejectSyntax(location: Location, tables: Tables, parts: seq<string>, impact: Impact) returns (next: Tables)
      requires Valid() && LegalAbs(View()) && |parts| > 0
      modifies this`scriptParseFailed, this`issues, this`selector
      ensures scriptParseFailed && Valid() && LegalAbs(View()) && issues != []
      ensures next == if parts[0] == "set" && |parts| > 1 && parts[1] != "" then Bind(tables, parts[1], None) else tables
    {
      next := tables;
      if parts[0] == "set" && |parts| > 1 && parts[1] != "" { next := Bind(tables, parts[1], None); }
      Reject(location, impact);
    }

    /** The lines of one script, and the check for an open block comment. */
    method EvaluateLines(index: nat, script: Script)
      requires Valid() && LegalAbs(View()) && !scriptParseFailed
      modifies this
      ensures Valid() && LegalAbs(View()) && Grows()
      ensures scriptParseFailed == ParseFails(env, script)
      ensures !scriptParseFailed ==>
                && View() == AbsorbAll(old(View()), CommandsOf(env, script.tables, script.lines))
                && Reports(AllClean(CommandsOf(env, script.tables, script.lines)))
    {
      var tables := script.tables;
      for i := 0 to |script.lines|
        invariant Valid() && LegalAbs(View()) && Grows()
        invariant tables == TablesAfterAll(env, script.tables, script.lines[..i])
        invariant scriptParseFailed == AnyRejected(env, script.tables, script.lines[..i])
        invariant !scriptParseFailed ==>
                    && View() == AbsorbAll(old(View()), CommandsOf(env, script.tables, script.lines[..i]))
                    && Reports(AllClean(CommandsOf(env, script.tables, script.lines[..i])))
      {
        OneMoreLine(old(View()), env, script.tables, script.lines, i);
        tables := EvaluateLine(Location(index, i), tables, script.lines[i]);
      }
      assert script.lines[..|script.lines|] == script.lines;
      if script.unterminated { Reject(Location(index, |script.lines|), Frontend); }
    }

    /** Put a script's effects back: saved fields by value, growing reports by length. */
    method Restore(before: Saved)
      requires before.assignmentCount <= |selectorAssignments| && before.writeCount <= |frontendWrites|
      modifies this
      ensures parseFailureEncountered && scriptParseFailed == old(scriptParseFailed) && issues == old(issues)
      ensures enabledScripts == old(enabledScripts)
      ensures View() == Abs(before.selector, before.conditionalSelector, before.statementsConditional,
                            before.conditionalFrontendWrite, before.failed, Values(before.finalValues),
                            Writes(old(frontendWrites)[..before.writeCount]),
                            Assigned(old(selectorAssignments)[..before.assignmentCount]))
    {
      parseFailureEncountered := true;
      selector, conditionalSelector := before.selector, before.conditionalSelector;
      statementsConditional, conditionalFrontendWrite := before.statementsConditional, before.conditionalFrontendWrite;
      accuTestLocation, finalValues := before.accuTestLocation, before.finalValues;
      selectorAssignments := selectorAssignments[..before.assignmentCount];
      frontendWrites := frontendWrites[..before.writeCount];
      failed := before.failed;
    }

    /** EvaluateScript: line by line, then everything is put back if any line was rejected. */
    method EvaluateScript(index: nat, script: Script)
      requires Valid() && LegalAbs(View()) && (scriptParseFailed ==> parseFailureEncountered)
      modifies this
      ensures Valid() && LegalAbs(View()) && (scriptParseFailed ==> parseFailureEncountered)
      ensures View() == if ParseFails(env, script) then old(View())
                        else AbsorbAll(old(View()), CommandsOf(env, script.tables, script.lines))
      ensures parseFailureEncountered == (old(parseFailureEncountered) || ParseFails(env, script))
      ensures !ParseFails(env, script) ==> Reports(AllClean(CommandsOf(env, script.tables, script.lines)))
      ensures enabledScripts == old(enabledScripts)
    {
      var before := Saved(selector, conditionalSelector, statementsConditional, conditionalFrontendWrite,
                          accuTestLocation, finalValues, |selectorAssignments|, |frontendWrites|, failed);
      scriptParseFailed := false;
      EvaluateLines(index, script);
      if scriptParseFailed {
        assert frontendWrites[..before.writeCount] == old(frontendWrites);
        assert selectorAssignments[..before.assignmentCount] == old(selectorAssignments);
        Restore(before);
      }
    }

    method EvaluateEntry(index: nat, e: Entry)
      requires Valid() && LegalAbs(View()) && (scriptParseFailed ==> parseFailureEncountered)
      modifies this
      ensures Valid() && LegalAbs(View()) && (scriptParseFailed ==> parseFailureEncountered)
      ensures View() == AfterEntry(env, old(View()), e)
      ensures parseFailureEncountered == (old(parseFailureEncountered) || !Contributes(env, e))
      ensures enabledScripts == old(enabledScripts) + if e.Enabled? then 1 else 0
      ensures e == Disabled ==> issues == old(issues)
      ensures e == Malformed ==> issues != [] && failed
      ensures e == Disabled ==> failed == old(failed)
      ensures e.Enabled? && Contributes(env, e) ==> Reports(AllClean(CommandsOf(env, e.script.tables, e.script.lines)))
    {
      match e
      case Malformed =>
        Fail(Location(index, 0));
        selector := None;
      case Disabled =>
      case Enabled(script) =>
        enabledScripts := enabledScripts + 1;
        EvaluateScript(index, script);
    }

    /** The state after the given entries. */
    ghost predicate Ran(entries: seq<Entry>)
      reads this
    {
      && Valid() && LegalAbs(View()) && (scriptParseFailed ==> parseFailureEncountered)
      && View() == Interpret(env, entries) && enabledScripts == EnabledCount(entries)
      && parseFailureEncountered == !AllContribute(env, entries)
      && (!parseFailureEncountered ==> (issues == [] <==> AllClean(Program(env, entries)) && !failed))
    }

    method EvaluateNext(ghost before: seq<Entry>, index: nat, e: Entry)
      requires Ran(before)
      modifies this
      ensures Ran(before + [e])
    {
      OneMoreEntry(env, before, e);
      EvaluateEntry(index, e);
    }

    /** Run: every entry of the script list in order. */
    method RunAll(entries: seq<Entry>)
      requires Ran([])
      modifies this
      ensures Ran(entries)
    {
      for i := 0 to |entries|
        invariant Ran(entries[..i])
      {
        assert entries[..i] + [entries[i]] == entries[..i + 1];
        EvaluateNext(entries[..i], i, entries[i]);
      }
      assert entries[..|entries|] == entries;
    }

    /** Finalize. */
    method Finalize() returns (state: State)
      ensures state == if parseFailureEncountered || HasFrontend(issues) then Failed
                       else if conditionalFrontendWrite then ConditionalAfterAccuTest
                       else if issues != [] then CompleteWithUnresolvedNonFrontend
                       else Complete
    {
      if parseFailureEncountered { return Failed; }
      if HasFrontend(issues) { return Failed; }
      if conditionalFrontendWrite { return ConditionalAfterAccuTest; }
      if issues != [] { return CompleteWithUnresolvedNonFrontend; }
      return Complete;
    }
  }

  /** EvaluateMvmeTargetInitScripts. A complete result is what the module will hold, whatever it held
      before; a conditional result is right about every value it still lists, however many commands
      past the first test are executed. A result is only reported when no script was rejected. */
  method Evaluate(env: Env, entries: seq<Entry>)
    returns (state: State, finals: map<Loc, u16>, writes: seq<FrontendWrite>, assignments: seq<u16>)
    ensures finals == Interpret(env, Parsing(env, entries)).finals
    ensures writes == Interpret(env, Parsing(env, entries)).writes
    ensures assignments == Interpret(env, Parsing(env, entries)).assignments
    ensures state != Failed <==> Parsing(env, entries) == entries && !Interpret(env, entries).failed
    ensures state == Complete <==> state != Failed && AllClean(Program(env, entries))
    ensures state == ConditionalAfterAccuTest <==> state != Failed && Interpret(env, entries).conditionalWrite
    ensures state in {Complete, CompleteWithUnresolvedNonFrontend} ==>
              forall m: Machine {:trigger Run(m, Program(env, entries))} ::
                Run(m, Program(env, entries)).banks == m.banks + finals
    ensures state != Failed ==>
              forall m: Machine, n: nat {:trigger Run(m, Program(env, entries)[..n])}
                | DefiniteLength(Program(env, entries)) <= n <= |Program(env, entries)| ::
                Holds(Run(m, Program(env, entries)[..n]).banks, finals)
  {
    var evaluator := new Evaluator(env);
    evaluator.RunAll(entries);
    state := evaluator.Finalize();
    finals := Values(evaluator.finalValues);
    writes, assignments := Writes(evaluator.frontendWrites), Assigned(evaluator.selectorAssignments);
    RollbackExact(env, entries);
    AllParsing(env, entries);
    InterpretIsProgram(env, entries);
    var program := Program(env, entries);
    if state != Failed {
      forall m: Machine, n: nat {:trigger Run(m, program[..n])} | DefiniteLength(program) <= n <= |program|
        ensures Holds(Run(m, program[..n]).banks, finals)
      {
        TaintSound(m, program, n);
      }
      if state != ConditionalAfterAccuTest {
        forall m: Machine ensures Run(m, program).banks == m.banks + finals { Refines(m, program); }
      }
    }
  }

  /** Impact reported for a line that could not be expanded. */
  function PreparationImpact(env: Env, raw: seq<string>): Impact {
    if raw == [] then Frontend
    else
      var command := Lower(raw[0]);
      if command == "set" || command == "accu_test" || KnownNonFrontend(command) then NonFrontend
      else if (command == "write" || command == "writeabs") && |raw| > 3 then
        var address := env.resolve(raw[3]);
        if address.None? then Frontend else OutsideFrontend(LongTarget(env, command, address.value))
      else OutsideFrontend(env.resolve(raw[0]))
  }
}
