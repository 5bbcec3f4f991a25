/** The borrowed crate: one target module with a banked register file, every other VME register,
    the controller's local registers, and the durable recovery journal. Every primitive may crash. */
module Crate {
  import opened Words
  import opened ScpRegistry
  import opened RecoveryRecord

  /** Outcome of one primitive step. `Crashed` ends the process; with `:-` it ends every caller too,
      so each operation can be cut short between (and inside) any two of its steps. */
  datatype Step<+T> = Crashed | Done(value: T) {
    predicate IsFailure() { Crashed? }
    function PropagateFailure<U>(): Step<U> requires Crashed? { Crashed }
    function Extract(): T requires Done? { value }
  }

  datatype Loc = Loc(quad: nat, reg: nat)

  predicate IsLoc(l: Loc) { l.quad < QUAD_COUNT && IsSetting(l.reg) }

  type Banks = map<Loc, u16>

  ghost predicate Complete(b: Banks) { forall l: Loc :: IsLoc(l) ==> l in b }

  /** A banked write under a selector: one quad, all quads for the broadcast value, else nothing. */
  function Poke(b: Banks, selector: nat, reg: nat, value: u16): Banks {
    if selector < QUAD_COUNT then b[Loc(selector, reg) := value]
    else if selector == BROADCAST then
      map l | l in b.Keys + Column(reg) :: if l.reg == reg && l.quad < QUAD_COUNT then value else b[l]
    else b
  }

  function Column(reg: nat): set<Loc> { set q | 0 <= q < QUAD_COUNT :: Loc(q, reg) }

  datatype LocalWrite = LocalWrite(address: u16, value: u32)

  function LocalValue(mem: map<u16, u32>, a: u16): u32 { if a in mem then mem[a] else 0 }

  function LocalValues(mem: map<u16, u32>, addresses: seq<u16>): (r: seq<u32>)
    ensures |r| == |addresses|
    ensures forall i | 0 <= i < |r| :: r[i] == LocalValue(mem, addresses[i])
  {
    seq(|addresses|, i requires 0 <= i < |addresses| => LocalValue(mem, addresses[i]))
  }

  function ApplyWrites(mem: map<u16, u32>, writes: seq<LocalWrite>): map<u16, u32> {
    if writes == [] then mem
    else ApplyWrites(mem, writes[..|writes| - 1])[writes[|writes| - 1].address := writes[|writes| - 1].value]
  }

  /** An address holds the value that its last write, and every later one, agree on. */
  lemma {:induction false} LastWriteWins(mem: map<u16, u32>, writes: seq<LocalWrite>, k: nat)
    requires k < |writes|
    requires forall j | k < j < |writes| :: writes[j].address == writes[k].address ==> writes[j].value == writes[k].value
    ensures LocalValue(ApplyWrites(mem, writes), writes[k].address) == writes[k].value
    decreases |writes|
  {
    if k < |writes| - 1 { LastWriteWins(mem, writes[..|writes| - 1], k); }
  }

  /** What the program did to the outside world, in order. Reads appear only when they succeeded;
      writes appear whenever they were sent, whatever the report was. */
  datatype Event =
    | SentVme(address: nat, value: u16)
    | SentLocal(writes: seq<LocalWrite>)
    | ReadVme(address: nat, value: u16)
    | ReadLocal(addresses: seq<u16>, values: seq<u32>)

  predicate IsWrite(e: Event) { e.SentVme? || e.SentLocal? }

  predicate NoWrites(events: seq<Event>) { forall i | 0 <= i < |events| :: !IsWrite(events[i]) }

  /** An event recorded at or after position n. */
  ghost predicate Seen(trace: seq<Event>, n: nat, e: Event) { exists i | n <= i < |trace| :: trace[i] == e }

  lemma SeenLater(trace: seq<Event>, m: nat, later: seq<Event>, n: nat, e: Event)
    requires trace <= later && n <= m && Seen(trace, m, e)
    ensures Seen(later, n, e)
  {
  }

  lemma Joined(start: seq<Event>, a: seq<Event>, b: seq<Event>, c: seq<Event>)
    ensures start + a + b + c == start + (a + b + c)
  {
  }

  /** What a primitive step asks of the outside world. */
  datatype Request =
    | StoreVme(address: nat, value: u16)
    | LoadVme(address: nat)
    | StoreLocals(writes: seq<LocalWrite>)
    | StoreLocal(write: LocalWrite)
    | LoadLocals(addresses: seq<u16>)
    | SaveJournal(record: Record)
    | RemoveJournal
    | PollCancellation

  /** What happens to a request: whether success is reported, whether it takes effect, and whether the
      process crashes right after it. */
  datatype Fate = Fate(reported: bool, effective: bool, crash: bool) {
    predicate Good() { reported && effective && !crash }
  }

  /** The adversary decides the fate of every request from its time and contents. */
  type Adversary = (nat, Request) -> Fate

  class World {
    const base: u32
    const adversary: Adversary
    var selector: u16
    var banks: Banks
    var vme: map<nat, u16>
    var mvlc: map<u16, u32>
    var journal: Option<Record>
    /** Requests made so far. */
    var clock: nat
    ghost var trace: seq<Event>
    /** The writes among the events of the trace. */
    ghost var sent: seq<Event>
    /** Something has gone wrong so far: a failed or ineffective step, a cancellation or a crash. */
    ghost var faulty: bool
    /** Steps that have reported failure so far. */
    ghost var refusals: nat

    /** Register offset of a VME address inside the target's banked region. */
    predicate Banked(address: nat) { address >= base && IsSetting(address - base) }

    function Value(address: nat): u16
      reads this`selector, this`banks, this`vme
    {
      if address == base + SELECTOR_REGISTER then selector
      else if Banked(address) then
        if Loc(selector, address - base) in banks then banks[Loc(selector, address - base)] else 0
      else if address in vme then vme[address] else 0
    }

    /** The adversary harms nothing but writes to banked registers. */
    ghost predicate Harmless() {
      forall t: nat, q: Request :: (q.StoreVme? && Banked(q.address)) || adversary(t, q).Good()
    }

    /** One D16 write. Whatever is reported, it may or may not have taken effect;
        only a reported success of a selector write is trusted. */
    method WriteVme(address: nat, value: u16) returns (r: Step<bool>)
      modifies this`selector, this`banks, this`vme, this`trace, this`sent, this`faulty, this`refusals, this`clock
      ensures trace == old(trace) + [SentVme(address, value)] && sent == old(sent) + [SentVme(address, value)]
      ensures selector != old(selector) ==> address == base + SELECTOR_REGISTER && selector == value
      ensures r == Done(true) && address == base + SELECTOR_REGISTER ==> selector == value
      ensures banks != old(banks) ==>
                Banked(address) && banks == Poke(old(banks), old(selector), address - base, value)
      ensures vme != old(vme) ==>
                address != base + SELECTOR_REGISTER && !Banked(address) && vme == old(vme)[address := value]
      ensures old(faulty) ==> faulty
      ensures !faulty ==>
                && r == Done(true)
                && (address == base + SELECTOR_REGISTER ==> selector == value)
                && (Banked(address) ==> banks == Poke(old(banks), selector, address - base, value))
                && (address != base + SELECTOR_REGISTER && !Banked(address) ==> vme == old(vme)[address := value])
      ensures r.Done? ==> refusals == old(refusals) + if r.value then 0 else 1
      ensures var f := adversary(old(clock), StoreVme(address, value));
              && clock == old(clock) + 1 && r == (if f.crash then Crashed else Done(f.reported))
              && (Banked(address) ==> banks == if f.effective then Poke(old(banks), old(selector), address - base, value) else old(banks))
              && (f.Good() ==> faulty == old(faulty))
    {
      var f := adversary(clock, StoreVme(address, value));
      clock := clock + 1;
      trace, sent := trace + [SentVme(address, value)], sent + [SentVme(address, value)];
      if address == base + SELECTOR_REGISTER {
        if f.reported || f.effective { selector := value; }
      } else if f.effective {
        if Banked(address) {
          banks := Poke(banks, selector, address - base, value);
        } else {
          vme := vme[address := value];
        }
      }
      faulty, refusals := faulty || !f.Good(), refusals + if f.reported then 0 else 1;
      r := if f.crash then Crashed else Done(f.reported);
    }

    /** One D16 read: a successful read returns the true value. */
    method ReadVme(address: nat) returns (r: Step<Option<u16>>)
      modifies this`trace, this`faulty, this`refusals, this`clock
      ensures r.Done? && r.value.Some? ==>
                r.value.value == Value(address) && trace == old(trace) + [Event.ReadVme(address, Value(address))]
      ensures !(r.Done? && r.value.Some?) ==> trace == old(trace)
      ensures old(faulty) ==> faulty
      ensures !faulty ==> r.Done? && r.value.Some?
      ensures r.Done? ==> refusals == old(refusals) + if r.value.Some? then 0 else 1
      ensures var f := adversary(old(clock), LoadVme(address));
              && clock == old(clock) + 1 && (r.Crashed? <==> f.crash) && (r.Done? ==> r.value.Some? == f.reported)
              && (f.Good() ==> faulty == old(faulty))
    {
      var f := adversary(clock, LoadVme(address));
      clock := clock + 1;
      faulty, refusals := faulty || f.crash || !f.reported, refusals + if f.reported then 0 else 1;
      if f.crash { return Crashed; }
      if !f.reported { return Done(None); }
      trace := trace + [Event.ReadVme(address, Value(address))];
      r := Done(Some(Value(address)));
    }

    /** A batch of controller-local writes: each may or may not have taken effect. */
    method WriteLocal(writes: seq<LocalWrite>) returns (r: Step<bool>)
      modifies this`mvlc, this`trace, this`sent, this`faulty, this`refusals, this`clock
      ensures trace == old(trace) + [SentLocal(writes)] && sent == old(sent) + [SentLocal(writes)]
      ensures old(faulty) ==> faulty
      ensures !faulty ==> r == Done(true) && mvlc == ApplyWrites(old(mvlc), writes)
      ensures r.Done? ==> refusals == old(refusals) + if r.value then 0 else 1
      ensures Harmless() ==> faulty == old(faulty)
    {
      var f := adversary(clock, StoreLocals(writes));
      clock := clock + 1;
      trace, sent := trace + [SentLocal(writes)], sent + [SentLocal(writes)];
      faulty, refusals := faulty || f.crash || !f.reported, refusals + if f.reported then 0 else 1;
      for i := 0 to |writes|
        invariant trace == old(trace) + [SentLocal(writes)] && sent == old(sent) + [SentLocal(writes)]
        invariant refusals == old(refusals) + if f.reported then 0 else 1
        invariant old(faulty) || f.crash || !f.reported ==> faulty
        invariant Harmless() ==> faulty == old(faulty)
        invariant !faulty ==> mvlc == ApplyWrites(old(mvlc), writes[..i])
      {
        assert writes[..i + 1][..i] == writes[..i];
        var g := adversary(clock, StoreLocal(writes[i]));
        clock := clock + 1;
        faulty := faulty || !g.effective;
        if g.effective { mvlc := mvlc[writes[i].address := writes[i].value]; }
      }
      assert writes[..|writes|] == writes;
      r := if f.crash then Crashed else Done(f.reported);
    }

    method ReadLocal(addresses: seq<u16>) returns (r: Step<Option<seq<u32>>>)
      modifies this`trace, this`faulty, this`refusals, this`clock
      ensures r.Done? && r.value.Some? ==>
                && r.value.value == LocalValues(mvlc, addresses)
                && trace == old(trace) + [Event.ReadLocal(addresses, r.value.value)]
      ensures !(r.Done? && r.value.Some?) ==> trace == old(trace)
      ensures old(faulty) ==> faulty
      ensures !faulty ==> r.Done? && r.value.Some?
      ensures r.Done? ==> refusals == old(refusals) + if r.value.Some? then 0 else 1
      ensures var f := adversary(old(clock), LoadLocals(addresses));
              clock == old(clock) + 1 && (r.Crashed? <==> f.crash) && (r.Done? ==> r.value.Some? == f.reported)
      ensures Harmless() ==> faulty == old(faulty)
    {
      var f := adversary(clock, LoadLocals(addresses));
      clock := clock + 1;
      faulty, refusals := faulty || f.crash || !f.reported, refusals + if f.reported then 0 else 1;
      if f.crash { return Crashed; }
      if !f.reported { return Done(None); }
      trace := trace + [Event.ReadLocal(addresses, LocalValues(mvlc, addresses))];
      r := Done(Some(LocalValues(mvlc, addresses)));
    }

    /** Atomic journal save: an invalid record is refused; a failed or crashed save leaves the old
        or the new record (the installation may complete and its durability sync still fail). */
    method Save(record: Record) returns (r: Step<bool>)
      modifies this`journal, this`faulty, this`refusals, this`clock
      ensures r == Done(true) ==> ValidRecord(record) && journal == Some(record)
      ensures journal == old(journal) || (ValidRecord(record) && journal == Some(record))
      ensures old(faulty) ==> faulty
      ensures !faulty ==> r == Done(ValidRecord(record))
      ensures r == Done(true) ==> refusals == old(refusals)
      ensures ValidRecord(record) ==>
                var f := adversary(old(clock), SaveJournal(record));
                && clock == old(clock) + 1 && r == (if f.crash then Crashed else Done(f.reported))
                && journal == (if f.reported || f.effective then Some(record) else old(journal))
                && (f.Good() ==> faulty == old(faulty))
    {
      if !ValidRecord(record) { return Done(false); }
      var f := adversary(clock, SaveJournal(record));
      clock := clock + 1;
      faulty, refusals := faulty || f.crash || !f.reported, refusals + if f.reported then 0 else 1;
      if f.reported || f.effective { journal := Some(record); }
      r := if f.crash then Crashed else Done(f.reported);
    }

    method Remove() returns (r: Step<bool>)
      modifies this`journal, this`faulty, this`refusals, this`clock
      ensures r == Done(true) ==> journal == None
      ensures journal == old(journal) || journal == None
      ensures old(faulty) ==> faulty
      ensures !faulty ==> r == Done(true)
      ensures r == Done(true) ==> refusals == old(refusals)
    {
      var f := adversary(clock, RemoveJournal);
      clock := clock + 1;
      faulty, refusals := faulty || f.crash || !f.reported, refusals + if f.reported then 0 else 1;
      if f.reported || f.effective { journal := None; }
      r := if f.crash then Crashed else Done(f.reported);
    }

    /** Whether a stop request has arrived by now. */
    method Cancelled() returns (cancelled: bool)
      modifies this`faulty, this`clock
      ensures old(faulty) || cancelled ==> faulty
      ensures !faulty ==> !cancelled
      ensures cancelled == !adversary(old(clock), PollCancellation).reported && clock == old(clock) + 1
      ensures Harmless() ==> faulty == old(faulty)
    {
      cancelled := !adversary(clock, PollCancellation).reported;
      clock := clock + 1;
      faulty := faulty || cancelled;
    }
  }

  function SourceLoc(r: Record): Loc { Loc(r.sourceQuad, SAMPLE_CONFIGURATION) }
  function PreviewLoc(r: Record): Loc { Loc(r.previewQuad, r.previewRegister) }

  /** The evidence in a record is truthful about the original banks b0. */
  ghost predicate Truthful(b0: Banks, r: Record)
    requires Complete(b0)
  {
    && (r.sourceRestoreRequired ==>
          && IsLoc(SourceLoc(r)) && r.sourceOriginal == b0[SourceLoc(r)]
          && r.sourceAppliedAvailable && SameUpperBits(r.sourceApplied, r.sourceOriginal))
    && (r.previewRestoreRequired ==> IsLoc(PreviewLoc(r)) && r.previewOriginal == b0[PreviewLoc(r)])
    && (r.sourceRestoreRequired && r.previewRestoreRequired ==> SourceLoc(r) != PreviewLoc(r))
  }

  /** A register that differs from its original is accounted for by the record: it is the journaled
      location, its original is the journaled original and it holds the journaled applied value. */
  ghost predicate AccountedFor(banks: Banks, b0: Banks, r: Record, l: Loc)
    requires l in banks && l in b0
  {
    || banks[l] == b0[l]
    || (r.sourceRestoreRequired && l == SourceLoc(r) && banks[l] == r.sourceApplied)
    || (r.previewRestoreRequired && l == PreviewLoc(r) && banks[l] == r.previewApplied)
  }

  ghost predicate Covers(banks: Banks, b0: Banks, r: Record) {
    && Complete(banks) && Complete(b0)
    && Truthful(b0, r)
    && forall l: Loc :: IsLoc(l) ==> AccountedFor(banks, b0, r, l)
  }

  ghost predicate Pristine(banks: Banks, b0: Banks) {
    && Complete(banks) && Complete(b0)
    && forall l: Loc :: IsLoc(l) ==> banks[l] == b0[l]
  }

  /** The journal invariant: with no journal the banks are as found; with a journal every
      deviation is in it. */
  ghost predicate Journaled(banks: Banks, b0: Banks, journal: Option<Record>) {
    match journal
    case None => Pristine(banks, b0)
    case Some(r) => Covers(banks, b0, r)
  }

  /** The journal, if any, is a valid record for this crate's target. */
  ghost predicate JournalHere(w: World)
    reads w`journal
  {
    w.journal.Some? ==> ValidRecord(w.journal.value) && w.journal.value.mdppBaseAddress == w.base
  }

  /** No register of the given name changed in another quad, and no other register changed. */
  ghost predicate OnlyChanges(before: Banks, after: Banks, l: Loc) {
    forall k: Loc :: k != l && k in before ==> k in after && after[k] == before[k]
  }

  /** Putting any register back to its original never invalidates the evidence. */
  lemma RestoringKeepsCover(banks: Banks, b0: Banks, journal: Option<Record>, r: Record, l: Loc)
    requires Journaled(banks, b0, journal) && Covers(banks, b0, r) && IsLoc(l)
    ensures Journaled(banks[l := b0[l]], b0, journal) && Covers(banks[l := b0[l]], b0, r)
  {
  }

  /** A register of another 64-KiB-aligned module is neither the target's selector nor banked. */
  lemma OffTarget(w: World, other: u32, offset: u16)
    requires w.base % 0x1_0000 == 0 && other % 0x1_0000 == 0 && other != w.base
    ensures other + offset != w.base + SELECTOR_REGISTER && !w.Banked(other + offset)
  {
  }
}
