/** Invariants of the stream decoder's state, kept by every frame. */
module StreamInvariants {
  import opened Words
  import opened StreamFrames

  predicate GoodHistory(a: Address, h: History, next: nat) {
    && |h.waveforms| <= HISTORY_CAPACITY && |h.waveforms| <= h.total
    && (forall i | 0 <= i < |h.waveforms| ::
          h.waveforms[i].moduleId == a.moduleId && h.waveforms[i].channel == a.channel && h.waveforms[i].sequence < next)
    && (forall i, j | 0 <= i < j < |h.waveforms| ::
          h.waveforms[i].sequence < h.waveforms[j].sequence && SameSampleConfiguration(h.waveforms[i], h.waveforms[j]))
  }

  predicate GoodHistories(v: Archive) { forall a | a in v.histories :: GoodHistory(a, v.histories[a], v.next) }

  /** Every retained sequence number is at most `bound`. */
  predicate AtMost(h: History, bound: nat) { forall i | 0 <= i < |h.waveforms| :: h.waveforms[i].sequence <= bound }

  /** The latest waveform, when there is one, has the largest sequence number retained anywhere. */
  predicate LatestIsLargest(v: Archive) {
    v.latest.Some? ==>
      && v.latest.value in v.histories
      && var h := v.histories[v.latest.value];
      && h.waveforms != []
      && forall a | a in v.histories :: AtMost(v.histories[a], h.waveforms[|h.waveforms| - 1].sequence)
  }

  /** Block words never outnumber the stack words that carry them. */
  predicate Nested(c: Core) { c.blockWords <= c.stackWords && (c.blockWords == 0 ==> c.blockData == []) }

  ghost function Pick(m: map<Address, History>): Address
    requires m != map[]
    ensures Pick(m) in m
  {
    assert exists a :: a in m by { assert m.Keys == {} ==> m == map[]; }
    var a :| a in m;
    a
  }

  /** The captures recorded in all channels. */
  ghost function Captured(m: map<Address, History>): nat {
    if m == map[] then 0 else m[Pick(m)].total + Captured(m - {Pick(m)})
  }

  lemma {:induction false} CapturedWithout(m: map<Address, History>, a: Address)
    requires a in m
    ensures Captured(m) == m[a].total + Captured(m - {a})
    decreases |m|
  {
    var p := Pick(m);
    if p != a {
      CapturedWithout(m - {p}, a);
      CapturedWithout(m - {a}, p);
      assert m - {p} - {a} == m - {a} - {p};
    }
  }

  lemma CapturedUpdate(m: map<Address, History>, a: Address, h: History)
    ensures Captured(m[a := h]) == Captured(m) + h.total - (if a in m then m[a].total else 0)
  {
    CapturedWithout(m[a := h], a);
    if a in m {
      CapturedWithout(m, a);
      assert m[a := h] - {a} == m - {a};
    } else {
      assert m[a := h] - {a} == m;
    }
  }

  /** Captures still counted, plus those whose channel was cleared, are the decoded waveforms. */
  ghost predicate Conserved(v: Archive, forgotten: nat) { Captured(v.histories) + forgotten == v.decoded }

  ghost predicate Sound(v: Archive, forgotten: nat) { GoodHistories(v) && LatestIsLargest(v) && Conserved(v, forgotten) }

  ghost predicate Inv(c: Core, forgotten: nat) { Nested(c) && Sound(c.archive, forgotten) }

  /** What is kept is a suffix that leaves room, and fits the waveform that joins it. */
  lemma KeptSuffix(h: History, w: Waveform) returns (k: nat)
    requires |h.waveforms| <= HISTORY_CAPACITY
    ensures k <= |h.waveforms| && Kept(h, w) == h.waveforms[k..] && |Kept(h, w)| < HISTORY_CAPACITY
    ensures Kept(h, w) != [] ==> SameSampleConfiguration(h.waveforms[|h.waveforms| - 1], w)
    ensures h.waveforms != [] && SameSampleConfiguration(h.waveforms[|h.waveforms| - 1], w) ==>
              k == if |h.waveforms| == HISTORY_CAPACITY then 1 else 0
    ensures h.waveforms != [] && !SameSampleConfiguration(h.waveforms[|h.waveforms| - 1], w) ==> k == |h.waveforms|
  {
    if h.waveforms != [] && !SameSampleConfiguration(h.waveforms[|h.waveforms| - 1], w) { return |h.waveforms|; }
    k := if |h.waveforms| == HISTORY_CAPACITY then 1 else 0;
  }

  lemma KeptGood(a: Address, h: History, w: Waveform, next: nat)
    requires GoodHistory(a, h, next) && w.moduleId == a.moduleId && w.channel == a.channel && w.sequence == next
    ensures GoodHistory(a, History(h.total + 1, Kept(h, w) + [w]), next + 1)
  {
    var k := KeptSuffix(h, w);
    PushGood(a, h, k, w, next);
  }

  lemma PushGood(a: Address, h: History, k: nat, w: Waveform, next: nat)
    requires GoodHistory(a, h, next) && w.moduleId == a.moduleId && w.channel == a.channel && w.sequence == next
    requires k <= |h.waveforms| && |h.waveforms| - k < HISTORY_CAPACITY
    requires k < |h.waveforms| ==> SameSampleConfiguration(h.waveforms[|h.waveforms| - 1], w)
    ensures GoodHistory(a, History(h.total + 1, h.waveforms[k..] + [w]), next + 1)
  {
    var before, more, n := h.waveforms, h.waveforms[k..] + [w], |h.waveforms| - k;
    assert forall i | 0 <= i < n :: more[i] == before[k + i];
    forall i | 0 <= i < n ensures SameSampleConfiguration(more[i], w) {
      assert i < n - 1 ==> SameSampleConfiguration(before[k + i], before[|before| - 1]);
    }
  }

  /** Recording a waveform with the next number. */
  lemma RecordKeeps(v: Archive, w: Waveform, d: Archive, forgotten: nat)
    requires Sound(v, forgotten) && w.sequence == v.next && d == Record(v.(next := v.next + 1), w)
    ensures Sound(d, forgotten)
  {
    var a := Address(w.moduleId, w.channel);
    KeptGood(a, HistoryAt(v, a), w, v.next);
    forall b | b in d.histories ensures GoodHistory(b, d.histories[b], d.next) && AtMost(d.histories[b], v.next) {
      if b != a { assert GoodHistory(b, v.histories[b], v.next); }
    }
    CapturedUpdate(v.histories, a, d.histories[a]);
  }

  lemma NumberUsedUp(v: Archive, d: Archive, forgotten: nat)
    requires Sound(v, forgotten) && d == v.(next := v.next + 1)
    ensures Sound(d, forgotten)
  {
    forall a | a in d.histories ensures GoodHistory(a, d.histories[a], d.next) {
      assert GoodHistory(a, v.histories[a], v.next);
    }
  }

  lemma CaptureKeeps(c: Core, word: u32, body: seq<u32>, moduleId: nat, channel: nat, timestamp: nat, forgotten: nat)
    requires Sound(c.archive, forgotten)
    ensures Sound(Capture(c, word, body, moduleId, channel, timestamp).archive, forgotten)
    ensures SameAssembly(c, Capture(c, word, body, moduleId, channel, timestamp))
  {
    var v, d := c.archive, Capture(c, word, body, moduleId, channel, timestamp).archive;
    match Samples(body)
    case Some(samples) => RecordKeeps(v, Announced(word, v.next, moduleId, channel, timestamp, samples), d, forgotten);
    case None => NumberUsedUp(v, d, forgotten);
  }

  predicate SameAssembly(c: Core, d: Core) {
    && d.lastPacket == c.lastPacket && d.stackWords == c.stackWords
    && d.blockWords == c.blockWords && d.blockData == c.blockData
  }

  lemma AdvanceKeeps(at: Cursor, data: seq<u32>, moduleId: nat, timestamp: nat, forgotten: nat)
    requires at.index < |data| && Sound(at.core.archive, forgotten)
    ensures Sound(Advance(at, data, moduleId, timestamp).core.archive, forgotten)
    ensures SameAssembly(at.core, Advance(at, data, moduleId, timestamp).core)
  {
    var word := data[at.index];
    var next := Advance(at, data, moduleId, timestamp);
    if TopNibble(word) == 1 || TopNibble(word) != 3 || at.channel.None? {
      assert next.core == at.core;
    } else {
      var count := word % 0x400;
      if count == 0 || at.index + count >= |data| {
        assert next.core == Malformed(at.core);
      } else {
        var body := data[at.index + 1..at.index + 1 + count];
        assert next.core == Capture(at.core, word, body, moduleId, at.channel.value, timestamp);
        CaptureKeeps(at.core, word, body, moduleId, at.channel.value, timestamp, forgotten);
      }
    }
  }

  /** Decoding a block keeps the histories sound and leaves the frame assembly alone. */
  lemma {:induction false} DecodeKeeps(at: Cursor, data: seq<u32>, moduleId: nat, timestamp: nat, forgotten: nat)
    requires Sound(at.core.archive, forgotten)
    ensures Sound(DecodeFrom(at, data, moduleId, timestamp).archive, forgotten)
    ensures SameAssembly(at.core, DecodeFrom(at, data, moduleId, timestamp))
    decreases |data| - at.index
  {
    if at.index < |data| {
      AdvanceKeeps(at, data, moduleId, timestamp, forgotten);
      DecodeKeeps(Advance(at, data, moduleId, timestamp), data, moduleId, timestamp, forgotten);
    }
  }

  lemma StackWordKeeps(c: Core, word: u32, forgotten: nat)
    requires Inv(c, forgotten)
    ensures Inv(StackWord(c, word), forgotten)
  {
    if c.blockWords == 1 {
      var taken := c.(blockData := c.blockData + [word], blockWords := 0, stackWords := c.stackWords - 1,
                      stats := c.stats.(blocks := c.stats.blocks + 1));
      if |taken.blockData| >= 3 {
        DecodeKeeps(Cursor(taken, 1, None), taken.blockData, taken.blockData[0] / 0x1_0000 % 0x100,
                    Timestamp(taken.blockData), forgotten);
      }
    }
  }

  lemma {:induction false} StackWordsKeep(c: Core, words: seq<u32>, forgotten: nat)
    requires Inv(c, forgotten)
    ensures Inv(StackWords(c, words), forgotten)
  {
    if words != [] {
      StackWordsKeep(c, words[..|words| - 1], forgotten);
      StackWordKeeps(StackWords(c, words[..|words| - 1]), words[|words| - 1], forgotten);
    }
  }

  lemma CountingKeeps(c: Core, d: Core, forgotten: nat)
    requires Inv(c, forgotten) && d == c.(stats := d.stats)
    ensures Inv(d, forgotten)
  {
  }

  lemma NotedKeeps(c: Core, number: nat, forgotten: nat)
    requires Inv(c, forgotten)
    ensures Inv(NotePacket(c, number), forgotten)
  {
  }

  lemma PacketKeeps(c: Core, words: seq<u32>, forgotten: nat)
    requires Inv(c, forgotten) && |words| >= 2
    ensures Inv(Packet(c, words), forgotten)
  {
    var counted, number := c.(stats := c.stats.(packets := c.stats.packets + 1)), words[0] / 0x1_0000 % 0x1000;
    var noted := NotePacket(counted, number);
    CountingKeeps(c, counted, forgotten);
    NotedKeeps(counted, number, forgotten);
    CountingKeeps(noted, Malformed(noted), forgotten);
    StackWordsKeep(noted, words[2..], forgotten);
    var pointer := words[1] % 0x1000;
    if pointer < |words| - 2 { StackWordsKeep(noted, words[2 + pointer..], forgotten); }
  }

  /** ClearWaveformHistoriesForQuad. */
  function Clear(v: Archive, quad: nat): Archive {
    v.(histories := map a | a in v.histories :: if a.channel / 4 == quad then History(0, []) else v.histories[a],
       latest := if v.latest.Some? && v.latest.value.channel / 4 == quad then None else v.latest)
  }

  lemma {:induction false} CapturedMonotone(m: map<Address, History>, n: map<Address, History>)
    requires m.Keys == n.Keys && forall a | a in m :: n[a].total <= m[a].total
    ensures Captured(n) <= Captured(m)
    decreases |m|
  {
    if m != map[] {
      var p := Pick(m);
      CapturedWithout(n, p);
      CapturedMonotone(m - {p}, n - {p});
    } else {
      assert n.Keys == {};
      assert n == map[];
    }
  }

  /** Clearing a quad keeps the invariant; the cleared captures are accounted for as forgotten. */
  lemma ClearKeeps(v: Archive, quad: nat, forgotten: nat)
    requires Sound(v, forgotten)
    ensures Captured(Clear(v, quad).histories) <= Captured(v.histories)
    ensures Sound(Clear(v, quad), forgotten + Captured(v.histories) - Captured(Clear(v, quad).histories))
  {
    var d := Clear(v, quad);
    CapturedMonotone(v.histories, d.histories);
    forall a | a in d.histories ensures GoodHistory(a, d.histories[a], d.next) { assert GoodHistory(a, v.histories[a], v.next); }
    if d.latest.Some? {
      assert d.histories[d.latest.value] == v.histories[v.latest.value];
      forall a | a in d.histories
        ensures AtMost(d.histories[a], v.histories[v.latest.value].waveforms[|v.histories[v.latest.value].waveforms| - 1].sequence)
      {
        assert a in v.histories;
      }
    }
  }

  /** Samples come two per word, and are refused exactly when some word is not a sample word. */
  lemma {:induction false} SamplesExact(body: seq<u32>)
    ensures Samples(body).Some? <==> forall i | 0 <= i < |body| :: TopNibble(body[i]) == 3
    ensures Samples(body).Some? ==> |Samples(body).value| == 2 * |body|
  {
    if body != [] {
      var front := body[..|body| - 1];
      SamplesExact(front);
      assert forall i | 0 <= i < |front| :: front[i] == body[i];
    }
  }

  predicate InRange(samples: seq<int>) { forall i | 0 <= i < |samples| :: -0x2000 <= samples[i] < 0x2000 }

  function PackWord(low: int, high: int): (word: u32)
    ensures TopNibble(word) == 3
    ensures -0x2000 <= low < 0x2000 ==> DecodeSigned14(word) == low
    ensures -0x2000 <= high < 0x2000 ==> DecodeSigned14(word / 0x4000) == high
  {
    var upper, lower := high % 0x4000, low % 0x4000;
    0x3000_0000 + upper * 0x4000 + lower
  }

  /** The words a module sends for a list of samples. */
  function Pack(samples: seq<int>): seq<u32>
    requires |samples| % 2 == 0
  {
    if samples == [] then []
    else Pack(samples[..|samples| - 2]) + [PackWord(samples[|samples| - 2], samples[|samples| - 1])]
  }

  /** Every packed list of fourteen-bit samples is read back exactly. */
  lemma {:induction false} PackedRoundTrip(samples: seq<int>)
    requires |samples| % 2 == 0 && InRange(samples)
    ensures Samples(Pack(samples)) == Some(samples)
  {
    if samples != [] {
      var front, low, high := samples[..|samples| - 2], samples[|samples| - 2], samples[|samples| - 1];
      PackedRoundTrip(front);
      OneMorePair(Pack(front), front, PackWord(low, high), low, high);
      assert samples == front + [low, high];
    }
  }

  lemma OneMorePair(words: seq<u32>, samples: seq<int>, word: u32, low: int, high: int)
    requires Samples(words) == Some(samples) && TopNibble(word) == 3
    requires DecodeSigned14(word) == low && DecodeSigned14(word / 0x4000) == high
    ensures Samples(words + [word]) == Some(samples + [low, high])
  {
  }
}
