/** What init-script commands do to a banked module, and the abstract interpreter that predicts it. */
module ScriptSemantics {
  import opened Words
  import opened ScpRegistry
  import opened Crate

  /** A parsed command. `target` is the module-relative address of a write (None: an absolute address
      below the module); `supported` marks an A32/D16 write relative to the module. */
  datatype Cmd = Write(target: Option<u32>, supported: bool, value: u32) | AccuTest | Other

  predicate IsFrontend(address: nat) { address == SELECTOR_REGISTER || IsSetting(address) }

  /** A plain banked module. */
  datatype Machine = Machine(selector: nat, banks: Banks)

  /** A write touches the register at its own address and nothing else; data are 16 bits wide. */
  function Exec(m: Machine, c: Cmd): Machine {
    match c
    case AccuTest => m
    case Other => m
    case Write(None, _, _) => m
    case Write(Some(t), _, v) =>
      if t == SELECTOR_REGISTER then m.(selector := v % 0x1_0000)
      else if IsSetting(t) then m.(banks := Poke(m.banks, m.selector, t, v % 0x1_0000))
      else m
  }

  function Run(m: Machine, cmds: seq<Cmd>): Machine {
    if cmds == [] then m else Exec(Run(m, cmds[..|cmds| - 1]), cmds[|cmds| - 1])
  }

  datatype FrontendWrite = FrontendWrite(reg: u16, value: u16, selector: u16)

  /** The interpreter's knowledge, without source locations and messages. */
  datatype Abs = Abs(
    selector: Option<u16>,
    shadow: Option<u16>,
    conditional: bool,
    conditionalWrite: bool,
    failed: bool,
    finals: map<Loc, u16>,
    writes: seq<FrontendWrite>,
    assignments: seq<u16>)

  const INITIAL: Abs := Abs(None, None, false, false, false, map[], [], [])

  /** One command before any accu_test. */
  function AbsorbDefinite(a: Abs, c: Cmd): Abs {
    match c
    case AccuTest => a.(conditional := true, shadow := a.selector)
    case Other => a
    case Write(None, _, _) => a.(selector := None)
    case Write(Some(t), supported, v) =>
      if !IsFrontend(t) then a
      else if !supported || v > 0xFFFF then
        a.(failed := true, selector := if t == SELECTOR_REGISTER then None else a.selector)
      else if t == SELECTOR_REGISTER then
        if v > BROADCAST then a.(failed := true, selector := None)
        else a.(selector := Some(v), assignments := a.assignments + [v])
      else if a.selector.None? then a.(failed := true)
      else a.(finals := Poke(a.finals, a.selector.value, t, v),
              writes := a.writes + [FrontendWrite(t, v, a.selector.value)])
  }

  /** One command after an accu_test: its write may or may not happen, so forget what it could touch. */
  function AbsorbConditional(a: Abs, c: Cmd): Abs {
    match c
    case AccuTest => a
    case Other => a
    case Write(None, _, _) => a.(conditionalWrite := true, finals := map[], shadow := None)
    case Write(Some(t), _, v) =>
      if !IsFrontend(t) then a
      else if t == SELECTOR_REGISTER then
        a.(conditionalWrite := true, shadow := if v > BROADCAST then None else Some(v))
      else if a.shadow.None? || a.shadow.value == BROADCAST then
        a.(conditionalWrite := true, finals := a.finals - Column(t))
      else a.(conditionalWrite := true, finals := a.finals - {Loc(a.shadow.value, t)})
  }

  function Absorb(a: Abs, c: Cmd): Abs {
    if a.conditional then AbsorbConditional(a, c) else AbsorbDefinite(a, c)
  }

  function AbsorbAll(a: Abs, cmds: seq<Cmd>): Abs {
    if cmds == [] then a else Absorb(AbsorbAll(a, cmds[..|cmds| - 1]), cmds[|cmds| - 1])
  }

  lemma {:induction false} AbsorbConcat(a: Abs, xs: seq<Cmd>, ys: seq<Cmd>)
    ensures AbsorbAll(a, xs + ys) == AbsorbAll(AbsorbAll(a, xs), ys)
    decreases |ys|
  {
    if ys == [] {
      assert xs + ys == xs;
    } else {
      AbsorbConcat(a, xs, ys[..|ys| - 1]);
      assert (xs + ys)[..|xs + ys| - 1] == xs + ys[..|ys| - 1];
    }
  }

  /** The interpreter's selector is a legal one, so a known selector always names banks. */
  predicate LegalAbs(a: Abs) {
    (a.selector.Some? ==> a.selector.value <= BROADCAST) && (a.shadow.Some? ==> a.shadow.value <= BROADCAST)
  }

  /** A banked write commutes with an overlay. */
  lemma PokeOverlay(under: Banks, over: Banks, selector: nat, reg: nat, value: u16)
    requires selector <= BROADCAST
    ensures Poke(under + over, selector, reg, value) == under + Poke(over, selector, reg, value)
  {
  }

  /** The interpreter has predicted the machine completely. */
  predicate Predicts(m0: Machine, m: Machine, a: Abs) {
    m.banks == m0.banks + a.finals && (a.selector.Some? ==> m.selector == a.selector.value)
  }

  /** The listed values are right, and so is the shadow selector once execution is conditional. */
  predicate ListsRight(m: Machine, a: Abs) {
    && a.finals.Keys <= m.banks.Keys
    && (forall l | l in a.finals :: m.banks[l] == a.finals[l])
    && (a.conditional && a.shadow.Some? ==> m.selector == a.shadow.value)
  }

  lemma StepPredicts(m0: Machine, m: Machine, a: Abs, c: Cmd)
    requires LegalAbs(a) && Predicts(m0, m, a) && !Absorb(a, c).failed && !Absorb(a, c).conditionalWrite
    ensures Predicts(m0, Exec(m, c), Absorb(a, c))
  {
    if c.Write? && c.target.Some? && IsSetting(c.target.value) && !a.conditional {
      PokeOverlay(m0.banks, a.finals, a.selector.value, c.target.value, c.value);
    }
  }

  lemma StepLegal(a: Abs, c: Cmd)
    requires LegalAbs(a)
    ensures LegalAbs(Absorb(a, c))
  {
  }

  lemma {:induction false} AllLegal(cmds: seq<Cmd>)
    ensures LegalAbs(AbsorbAll(INITIAL, cmds))
  {
    if cmds != [] { AllLegal(cmds[..|cmds| - 1]); }
  }

  /** The interpreter refines the machine: when nothing failed and no frontend write was conditional,
      executing every command from any selector and any banks gives those banks overlaid with exactly
      the listed values, broadcasts and later overrides included. */
  lemma {:induction false} Refines(m0: Machine, cmds: seq<Cmd>)
    requires !AbsorbAll(INITIAL, cmds).failed && !AbsorbAll(INITIAL, cmds).conditionalWrite
    ensures Predicts(m0, Run(m0, cmds), AbsorbAll(INITIAL, cmds))
  {
    if cmds == [] {
      assert m0.banks + map[] == m0.banks;
    } else {
      var before := cmds[..|cmds| - 1];
      Refines(m0, before);
      AllLegal(before);
      StepPredicts(m0, Run(m0, before), AbsorbAll(INITIAL, before), cmds[|cmds| - 1]);
    }
  }

  lemma StepListsRight(m: Machine, a: Abs, c: Cmd)
    requires LegalAbs(a) && ListsRight(m, a) && a.conditional
    ensures ListsRight(Exec(m, c), Absorb(a, c)) && Absorb(a, c).finals.Keys <= a.finals.Keys
    ensures forall l | l in Absorb(a, c).finals :: Absorb(a, c).finals[l] == a.finals[l]
  {
  }

  /** Length of the part of a program that certainly executes: up to and including the first test. */
  function DefiniteLength(cmds: seq<Cmd>): (n: nat)
    ensures n <= |cmds|
  {
    if cmds == [] then 0
    else
      var before := cmds[..|cmds| - 1];
      if AbsorbAll(INITIAL, before).conditional then DefiniteLength(before) else |cmds|
  }

  /** Every listed value is in the banks. */
  predicate Holds(banks: Banks, finals: map<Loc, u16>) {
    finals.Keys <= banks.Keys && forall l | l in finals :: banks[l] == finals[l]
  }

  lemma {:induction false} ConditionalWritesNeedATest(cmds: seq<Cmd>)
    ensures !AbsorbAll(INITIAL, cmds).conditional ==> !AbsorbAll(INITIAL, cmds).conditionalWrite
  {
    if cmds != [] { ConditionalWritesNeedATest(cmds[..|cmds| - 1]); }
  }

  lemma {:induction false} AllListsRight(m0: Machine, cmds: seq<Cmd>)
    requires !AbsorbAll(INITIAL, cmds).failed
    ensures ListsRight(Run(m0, cmds), AbsorbAll(INITIAL, cmds))
  {
    if cmds != [] {
      var before, c := cmds[..|cmds| - 1], cmds[|cmds| - 1];
      AllLegal(before);
      if AbsorbAll(INITIAL, before).conditional {
        AllListsRight(m0, before);
        StepListsRight(Run(m0, before), AbsorbAll(INITIAL, before), c);
      } else {
        ConditionalWritesNeedATest(before);
        Refines(m0, before);
        StepPredicts(m0, Run(m0, before), AbsorbAll(INITIAL, before), c);
      }
    }
  }

  /** Conditional taint is sound: however far execution runs past the first accu_test, every listed
      (quad, register) holds exactly its listed value. */
  lemma {:induction false} TaintSound(m0: Machine, cmds: seq<Cmd>, n: nat)
    requires !AbsorbAll(INITIAL, cmds).failed && DefiniteLength(cmds) <= n <= |cmds|
    ensures Holds(Run(m0, cmds[..n]).banks, AbsorbAll(INITIAL, cmds).finals)
  {
    if n == |cmds| {
      AllListsRight(m0, cmds);
      assert cmds[..n] == cmds;
    } else {
      var before := cmds[..|cmds| - 1];
      TaintSound(m0, before, n);
      assert before[..n] == cmds[..n];
      AllListsRight(m0, before);
      AllLegal(before);
      StepListsRight(Run(m0, before), AbsorbAll(INITIAL, before), cmds[|cmds| - 1]);
    }
  }
}
