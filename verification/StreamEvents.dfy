/** What a module sends for one sampled event, and the proof that the decoder recovers it. */
module StreamEvents {
  import opened Words
  import opened StreamFrames
  import opened StreamInvariants
  import opened StreamBytes

  datatype Sampled = Sampled(
    moduleId: nat, channel: nat, source: nat, noOffsetCorrection: bool, noResampling: bool, phase: nat, timestamp: nat,
    samples: seq<int>)

  predicate Sendable(e: Sampled) {
    && e.moduleId < 0x100 && e.channel < 0x20 && e.source < 4 && e.phase < 0x200 && e.timestamp < 0x4000_0000
    && |e.samples| % 2 == 0 && 2 <= |e.samples| < 0x800 && InRange(e.samples)
  }

  function ModuleHeader(e: Sampled): (w: u32)
    requires Sendable(e)
    ensures TopNibble(w) == 4 && w / 0x1_0000 % 0x100 == e.moduleId && w / 0x4000_0000 != 3
  {
    0x4000_0000 + e.moduleId * 0x1_0000
  }

  /** A channel-time word of type 00. */
  function ChannelWord(e: Sampled): (w: u32)
    requires Sendable(e)
    ensures TopNibble(w) == 1 && w / 0x20_0000 % 4 == 0 && w / 0x1_0000 % 0x20 == e.channel
  {
    0x1000_0000 + e.channel * 0x1_0000
  }

  function Config(e: Sampled): (c: nat)
    requires Sendable(e)
    ensures c < 0x100 && c % 4 == e.source && (c >= 0x80) == e.noOffsetCorrection && (c / 0x40 % 2 == 1) == e.noResampling
  {
    e.source + (if e.noResampling then 0x40 else 0) + if e.noOffsetCorrection then 0x80 else 0
  }

  function SampleHeader(e: Sampled): (w: u32)
    requires Sendable(e)
    ensures TopNibble(w) == 3 && w % 0x400 == |e.samples| / 2
    ensures w / 0x400 % 0x200 == e.phase && w / 0x8_0000 % 0x100 == Config(e)
  {
    var low: nat := e.phase * 0x400 + |e.samples| / 2;
    assert low < 0x8_0000;
    var w := 0x3000_0000 + Config(e) * 0x8_0000 + low;
    assert w / 0x8_0000 == 0x600 + Config(e);
    assert w / 0x400 == 0xC_0000 + Config(e) * 0x200 + e.phase;
    w
  }

  function EndWord(e: Sampled): (w: u32)
    requires Sendable(e)
    ensures w / 0x4000_0000 == 3 && w % 0x4000_0000 == e.timestamp && TopNibble(w) >= 12
  {
    0xC000_0000 + e.timestamp
  }

  function BlockOf(e: Sampled): seq<u32>
    requires Sendable(e)
  {
    [ModuleHeader(e), ChannelWord(e), SampleHeader(e)] + Pack(e.samples) + [EndWord(e)]
  }

  function WaveformOf(e: Sampled, sequence: nat): Waveform {
    Waveform(sequence, e.moduleId, e.channel, e.source, e.noOffsetCorrection, e.noResampling, e.phase, e.timestamp, e.samples)
  }

  lemma {:induction false} PackShape(samples: seq<int>)
    requires |samples| % 2 == 0
    ensures |Pack(samples)| == |samples| / 2
    ensures forall i | 0 <= i < |Pack(samples)| :: TopNibble(Pack(samples)[i]) == 3
  {
    if samples != [] { PackShape(samples[..|samples| - 2]); }
  }

  /** No extended timestamp among words of other types. */
  lemma {:induction false} NoExtension(data: seq<u32>)
    requires forall i | 0 <= i < |data| :: TopNibble(data[i]) != 2
    ensures LastExtension(data) == 0
  {
    if data != [] { NoExtension(data[..|data| - 1]); }
  }

  lemma BlockShape(e: Sampled)
    requires Sendable(e)
    ensures var b, n := BlockOf(e), |e.samples| / 2;
            && |b| == n + 4 && b[0] == ModuleHeader(e) && b[1] == ChannelWord(e) && b[2] == SampleHeader(e)
            && b[3..3 + n] == Pack(e.samples) && b[3 + n] == EndWord(e)
    ensures Timestamp(BlockOf(e)) == e.timestamp
  {
    var b := BlockOf(e);
    PackShape(e.samples);
    forall i | 0 <= i < |b| ensures TopNibble(b[i]) != 2 {
      if 3 <= i < |b| - 1 { assert b[i] == Pack(e.samples)[i - 3]; }
    }
    NoExtension(b);
  }

  lemma AnnouncedIs(e: Sampled, sequence: nat)
    requires Sendable(e)
    ensures Announced(SampleHeader(e), sequence, e.moduleId, e.channel, e.timestamp, e.samples) == WaveformOf(e, sequence)
  {
  }

  /** What one event adds to the archive. */
  function Added(v: Archive, e: Sampled): Archive { Record(v.(next := v.next + 1), WaveformOf(e, v.next)) }

  lemma ChannelThenWaveform(c: Core, e: Sampled)
    requires Sendable(e)
    ensures var b, n := BlockOf(e), |e.samples| / 2;
            var at := Cursor(c, 2, Some(e.channel));
            && |b| == n + 4 && Advance(Cursor(c, 1, None), b, e.moduleId, e.timestamp) == at
            && Advance(at, b, e.moduleId, e.timestamp)
               == Cursor(c.(archive := Added(c.archive, e)), n + 3, Some(e.channel))
  {
    BlockShape(e);
    PackedRoundTrip(e.samples);
    AnnouncedIs(e, c.archive.next);
  }

  lemma EndIsSkipped(c: Core, e: Sampled)
    requires Sendable(e)
    ensures var b, n := BlockOf(e), |e.samples| / 2;
            && |b| == n + 4
            && DecodeFrom(Cursor(c, n + 3, Some(e.channel)), b, e.moduleId, e.timestamp) == c
  {
    BlockShape(e);
  }

  lemma BlockWalk(c: Core, e: Sampled)
    requires Sendable(e)
    ensures DecodeFrom(Cursor(c, 1, None), BlockOf(e), e.moduleId, e.timestamp) == c.(archive := Added(c.archive, e))
  {
    ChannelThenWaveform(c, e);
    EndIsSkipped(c.(archive := Added(c.archive, e)), e);
  }

  /** A complete block of one event adds exactly its waveform. */
  lemma BlockDecoded(c: Core, e: Sampled)
    requires Sendable(e) && c.blockData == BlockOf(e)
    ensures DecodeBlock(c) == c.(archive := Added(c.archive, e))
  {
    BlockShape(e);
    BlockWalk(c, e);
  }

  /** Block words that do not complete the block accumulate. */
  lemma {:induction false} BlockAccumulates(c: Core, words: seq<u32>)
    requires |words| < c.blockWords <= c.stackWords
    ensures StackWords(c, words)
         == c.(blockData := c.blockData + words, blockWords := c.blockWords - |words|, stackWords := c.stackWords - |words|)
  {
    if words == [] {
      assert c.blockData + words == c.blockData;
    } else {
      BlockAccumulates(c, words[..|words| - 1]);
      assert c.blockData + words[..|words| - 1] + [words[|words| - 1]] == c.blockData + words;
    }
  }

  lemma {:induction false} StackWordsConcat(c: Core, xs: seq<u32>, ys: seq<u32>)
    ensures StackWords(c, xs + ys) == StackWords(StackWords(c, xs), ys)
    decreases |ys|
  {
    if ys == [] {
      assert xs + ys == xs;
    } else {
      StackWordsConcat(c, xs, ys[..|ys| - 1]);
      assert (xs + ys)[..|xs + ys| - 1] == xs + ys[..|ys| - 1];
    }
  }

  function StackHeader(length: nat): (w: u32)
    requires length < 0x2000
    ensures StartsStack(w) && FrameLength(w) == length && KindOf(w) == Stack
  {
    0xF300_0000 + length
  }

  function BlockHeader(length: nat): (w: u32)
    requires length < 0x2000
    ensures FrameType(w) == BLOCK_READ && FrameLength(w) == length
  {
    0xF500_0000 + length
  }

  /** A stack frame around a block. */
  function FrameAround(block: seq<u32>): seq<u32>
    requires 0 < |block| < 0x1FFF
  {
    [StackHeader(|block| + 1), BlockHeader(|block|)] + block
  }

  predicate Idle(c: Core) { c.stackWords == 0 && c.blockWords == 0 && c.blockData == [] }

  /** The two headers open the block. */
  lemma HeadersOpen(c: Core, n: nat)
    requires Idle(c) && 0 < n < 0x1FFF
    ensures StackWords(c, [StackHeader(n + 1), BlockHeader(n)]) == c.(stackWords := n, blockWords := n)
  {
    TwoWords(c, StackHeader(n + 1), BlockHeader(n));
  }

  lemma LastBlockWord(c: Core, word: u32, full: Core)
    requires c.blockWords == 1 && c.stackWords > 0
    requires full == c.(blockData := c.blockData + [word], blockWords := 0, stackWords := c.stackWords - 1,
                        stats := c.stats.(blocks := c.stats.blocks + 1))
    ensures StackWord(c, word) == DecodeBlock(full).(blockData := [])
  {
  }

  /** The words of an open block, up to its last, decode it. */
  lemma BlockCompletes(c: Core, block: seq<u32>, full: Core)
    requires c.stackWords == c.blockWords == |block| > 0 && c.blockData == []
    requires full == c.(stackWords := 0, blockWords := 0, blockData := block, stats := c.stats.(blocks := c.stats.blocks + 1))
    ensures StackWords(c, block) == DecodeBlock(full).(blockData := [])
  {
    var front, last := block[..|block| - 1], block[|block| - 1];
    BlockAccumulates(c, front);
    assert [] + front == front && front + [last] == block;
    assert StackWords(c, block) == StackWord(StackWords(c, front), last);
    LastBlockWord(c.(blockData := front, blockWords := 1, stackWords := 1), last, full);
  }

  /** An idle decoder takes a whole stack frame to the decoding of its block, and is idle again. */
  lemma FrameReachesBlock(c: Core, block: seq<u32>, full: Core)
    requires Idle(c) && 0 < |block| < 0x1FFF
    requires full == c.(blockData := block, stats := c.stats.(blocks := c.stats.blocks + 1))
    ensures StackWords(c, FrameAround(block)) == DecodeBlock(full).(blockData := [])
  {
    var n := |block|;
    HeadersOpen(c, n);
    StackWordsConcat(c, [StackHeader(n + 1), BlockHeader(n)], block);
    BlockCompletes(c.(stackWords := n, blockWords := n), block, full);
  }

  lemma TwoWords(c: Core, a: u32, b: u32)
    ensures StackWords(c, [a, b]) == StackWord(StackWord(c, a), b)
  {
    assert [a, b][..1] == [a] && [a][..0] == [];
    assert StackWords(c, [a]) == StackWord(c, a);
  }

  /** The state after one event. */
  function AfterEvent(c: Core, e: Sampled): Core {
    c.(archive := Added(c.archive, e), stats := c.stats.(blocks := c.stats.blocks + 1))
  }

  lemma FrameDecoded(c: Core, e: Sampled)
    requires Idle(c) && Sendable(e)
    ensures 0 < |BlockOf(e)| < 0x1FFF && StackWords(c, FrameAround(BlockOf(e))) == AfterEvent(c, e)
  {
    BlockShape(e);
    var full := c.(blockData := BlockOf(e), stats := c.stats.(blocks := c.stats.blocks + 1));
    FrameReachesBlock(c, BlockOf(e), full);
    BlockDecoded(full, e);
  }

  function BytesOf(words: seq<u32>): (bytes: seq<u8>)
    ensures |bytes| == 4 * |words|
  {
    if words == [] then [] else BytesOf(words[..|words| - 1]) + LittleEndian(words[|words| - 1])
  }

  function LittleEndian(word: u32): (bytes: seq<u8>)
    ensures |bytes| == 4 && WordAt(bytes, 0) == word
  {
    var upper := word / 0x100;
    var half := upper / 0x100;
    [word % 0x100, upper % 0x100, half % 0x100, half / 0x100]
  }

  lemma {:induction false} WordsBack(words: seq<u32>)
    ensures WordsOf(BytesOf(words)) == words
  {
    if words != [] {
      var front, last := words[..|words| - 1], words[|words| - 1];
      WordsBack(front);
      var bytes := BytesOf(words);
      forall i | 0 <= i < |words| ensures WordsOf(bytes)[i] == words[i] {
        if i < |front| {
          assert WordsOf(BytesOf(front))[i] == front[i];
          WordAtPrefix(BytesOf(front), LittleEndian(last), 4 * i);
        } else {
          WordAtSuffix(BytesOf(front), LittleEndian(last));
        }
      }
    }
  }

  lemma WordAtPrefix(xs: seq<u8>, ys: seq<u8>, at: nat)
    requires at + 4 <= |xs|
    ensures WordAt(xs + ys, at) == WordAt(xs, at)
  {
  }

  lemma WordAtSuffix(xs: seq<u8>, ys: seq<u8>)
    requires |ys| == 4
    ensures WordAt(xs + ys, |xs|) == WordAt(ys, 0)
  {
  }

  /** An idle decoder that receives the bytes of one event's frame, in any chunks, has exactly that event's
      waveform added to its channel, and waits for nothing. */
  lemma EventReceived(c: Core, e: Sampled, chunks: seq<seq<u8>>)
    requires Idle(c) && Sendable(e) && 0 < |BlockOf(e)| < 0x1FFF
    requires Concat(chunks) == BytesOf(FrameAround(BlockOf(e)))
    ensures Feed(Receive, Drained(c, []), chunks) == Drained(AfterEvent(c, e), [])
  {
    var frame := FrameAround(BlockOf(e));
    ChunkIndependent(Drained(c, []), chunks);
    assert [] + Concat(chunks) == BytesOf(frame);
    FrameDecoded(c, e);
    FrameDrained(c, frame);
  }

  lemma FrameDrained(c: Core, frame: seq<u32>)
    requires |frame| >= 1 && KindOf(frame[0]) == Stack && FrameLength(frame[0]) + 1 == |frame|
    ensures Drain(c, BytesOf(frame)) == Drained(StackWords(c, frame), [])
  {
    var bytes := BytesOf(frame);
    WordsBack(frame);
    assert WordAt(bytes, 0) == WordsOf(bytes)[0] == frame[0];
    assert FrameSize(bytes) == Some(|bytes|);
    assert bytes[..|bytes|] == bytes && bytes[|bytes|..] == [];
    assert Drain(StackWords(c, frame), []) == Drained(StackWords(c, frame), []);
  }

  /** First word of an Ethernet data packet. */
  function PacketHeader(number: nat, length: nat): (w: u32)
    requires number < 0x1000 && length < 0x2000
    ensures KindOf(w) == EthernetPacket && FrameLength(w) == length
    ensures w / 0x1000_0000 % 4 == 2 && w / 0x1_0000 % 0x1000 == number
  {
    0x2000_0000 + number * 0x1_0000 + length
  }

  /** A data packet whose payload starts with a stack frame. */
  function PacketAround(number: nat, frame: seq<u32>): seq<u32>
    requires number < 0x1000 && |frame| < 0x2000
  {
    [PacketHeader(number, |frame|), 0] + frame
  }

  /** The counters and the packet number after an uninterrupted packet. */
  function Counted(c: Core, number: nat): Core {
    c.(lastPacket := Some(number), stats := c.stats.(packets := c.stats.packets + 1))
  }

  lemma UninterruptedIsCounted(c: Core, number: nat)
    requires c.lastPacket.Some? ==> number == (c.lastPacket.value + 1) % 0x1000
    ensures NotePacket(c.(stats := c.stats.(packets := c.stats.packets + 1)), number) == Counted(c, number)
  {
  }

  lemma DataPacket(c: Core, words: seq<u32>, number: nat)
    requires Idle(c) && |words| > 2 && words[0] / 0x1000_0000 % 4 == 2 && words[0] / 0x1_0000 % 0x1000 == number && words[1] == 0
    requires c.lastPacket.Some? ==> number == (c.lastPacket.value + 1) % 0x1000
    ensures Packet(c, words) == StackWords(Counted(c, number), words[2..])
  {
    UninterruptedIsCounted(c, number);
  }

  lemma PacketDecoded(c: Core, number: nat, frame: seq<u32>)
    requires Idle(c) && number < 0x1000 && 0 < |frame| < 0x2000
    requires c.lastPacket.Some? ==> number == (c.lastPacket.value + 1) % 0x1000
    ensures Packet(c, PacketAround(number, frame)) == StackWords(Counted(c, number), frame)
  {
    DataPacket(c, PacketAround(number, frame), number);
    assert PacketAround(number, frame)[2..] == frame;
  }

  lemma PacketDrained(c: Core, packet: seq<u32>)
    requires |packet| >= 2 && KindOf(packet[0]) == EthernetPacket && FrameLength(packet[0]) + 2 == |packet|
    ensures Drain(c, BytesOf(packet)) == Drained(Packet(c, packet), [])
  {
    var bytes := BytesOf(packet);
    WordsBack(packet);
    assert WordAt(bytes, 0) == WordsOf(bytes)[0] == packet[0];
    assert FrameSize(bytes) == Some(|bytes|);
    assert bytes[..|bytes|] == bytes && bytes[|bytes|..] == [];
    assert Drain(Packet(c, packet), []) == Drained(Packet(c, packet), []);
  }

  /** The same for an event that arrives in the next Ethernet packet. */
  lemma PacketReceived(c: Core, e: Sampled, number: nat, chunks: seq<seq<u8>>)
    requires Idle(c) && Sendable(e) && 0 < |BlockOf(e)| < 0x1FFD && number < 0x1000
    requires c.lastPacket.Some? ==> number == (c.lastPacket.value + 1) % 0x1000
    requires Concat(chunks) == BytesOf(PacketAround(number, FrameAround(BlockOf(e))))
    ensures Feed(Receive, Drained(c, []), chunks) == Drained(AfterEvent(Counted(c, number), e), [])
  {
    var frame := FrameAround(BlockOf(e));
    ChunkIndependent(Drained(c, []), chunks);
    assert [] + Concat(chunks) == BytesOf(PacketAround(number, frame));
    PacketDecoded(c, number, frame);
    FrameDecoded(Counted(c, number), e);
    PacketDrained(c, PacketAround(number, frame));
  }

  /** The state after a packet that shows a loss of `missing` packets: what was being assembled is given up. */
  function AfterLoss(c: Core, number: nat, missing: nat): Core {
    Counted(ResetAssembly(c), number).(
      stats := c.stats.(packets := c.stats.packets + 1, lost := c.stats.lost + missing))
  }

  lemma LossNoted(c: Core, last: nat, number: nat, missing: nat)
    requires c.lastPacket == Some(last) && 0 < missing < 0x1000 && number == (last + 1 + missing) % 0x1000
    ensures NotePacket(c.(stats := c.stats.(packets := c.stats.packets + 1)), number) == AfterLoss(c, number, missing)
  {
    assert (number - (last + 1) % 0x1000) % 0x1000 == missing;
  }

  lemma PointedPacket(c: Core, words: seq<u32>, number: nat, pointer: nat, noted: Core)
    requires NotePacket(c.(stats := c.stats.(packets := c.stats.packets + 1)), number) == noted && noted.stackWords == 0
    requires |words| > 2 && words[0] / 0x1000_0000 % 4 == 2 && words[0] / 0x1_0000 % 0x1000 == number
    requires words[1] % 0x1000 == pointer < 0xFFF && pointer < |words| - 2
    ensures Packet(c, words) == StackWords(noted, words[2 + pointer..])
  {
    assert pointer != NO_HEADER_POINTER && !(pointer >= |words| - 2);
  }

  /** After any loss, in the middle of anything, the decoder counts the missing packets and takes up again at the
      frame that the header pointer names: that event is not lost. */
  lemma TakesUpAfterLoss(c: Core, last: nat, number: nat, missing: nat, tail: seq<u32>, e: Sampled)
    requires c.lastPacket == Some(last) && 0 < missing < 0x1000 && number == (last + 1 + missing) % 0x1000
    requires Sendable(e) && 0 < |BlockOf(e)| && |tail| + |BlockOf(e)| + 2 < 0xFFF
    ensures var payload := tail + FrameAround(BlockOf(e));
            Packet(c, [PacketHeader(number, |payload|), |tail|] + payload) == AfterEvent(AfterLoss(c, number, missing), e)
  {
    var frame := FrameAround(BlockOf(e));
    var packet := [PacketHeader(number, |tail + frame|), |tail|] + (tail + frame);
    assert packet[2 + |tail|..] == frame;
    LossNoted(c, last, number, missing);
    PointedPacket(c, packet, number, |tail|, AfterLoss(c, number, missing));
    FrameDecoded(AfterLoss(c, number, missing), e);
  }

  /** Two states that differ at most in packet numbers and counters. */
  predicate SameProgress(c: Core, d: Core) {
    c.stackWords == d.stackWords && c.blockWords == d.blockWords && c.blockData == d.blockData && c.archive == d.archive
  }

  predicate SamePlace(a: Cursor, b: Cursor) { a.index == b.index && a.channel == b.channel && SameProgress(a.core, b.core) }

  lemma AdvanceAlike(a: Cursor, b: Cursor, data: seq<u32>, moduleId: nat, timestamp: nat)
    requires SamePlace(a, b) && a.index < |data|
    ensures SamePlace(Advance(a, data, moduleId, timestamp), Advance(b, data, moduleId, timestamp))
    ensures Advance(a, data, moduleId, timestamp).core.lastPacket == a.core.lastPacket
  {
  }

  lemma {:induction false} DecodeAlike(a: Cursor, b: Cursor, data: seq<u32>, moduleId: nat, timestamp: nat)
    requires SamePlace(a, b)
    ensures SameProgress(DecodeFrom(a, data, moduleId, timestamp), DecodeFrom(b, data, moduleId, timestamp))
    ensures DecodeFrom(a, data, moduleId, timestamp).lastPacket == a.core.lastPacket
    decreases |data| - a.index
  {
    if a.index < |data| {
      AdvanceAlike(a, b, data, moduleId, timestamp);
      DecodeAlike(Advance(a, data, moduleId, timestamp), Advance(b, data, moduleId, timestamp), data, moduleId, timestamp);
    }
  }

  lemma WordAlike(c: Core, d: Core, word: u32)
    requires SameProgress(c, d)
    ensures SameProgress(StackWord(c, word), StackWord(d, word)) && StackWord(c, word).lastPacket == c.lastPacket
  {
    if c.blockWords == 1 && c.stackWords > 0 && |c.blockData| >= 2 {
      var data := c.blockData + [word];
      var c1 := c.(blockData := data, blockWords := 0, stackWords := c.stackWords - 1, stats := c.stats.(blocks := c.stats.blocks + 1));
      var d1 := d.(blockData := data, blockWords := 0, stackWords := d.stackWords - 1, stats := d.stats.(blocks := d.stats.blocks + 1));
      DecodeAlike(Cursor(c1, 1, None), Cursor(d1, 1, None), data, data[0] / 0x1_0000 % 0x100, Timestamp(data));
    }
  }

  lemma {:induction false} WordsAlike(c: Core, d: Core, words: seq<u32>)
    requires SameProgress(c, d)
    ensures SameProgress(StackWords(c, words), StackWords(d, words)) && StackWords(c, words).lastPacket == c.lastPacket
  {
    if words != [] {
      WordsAlike(c, d, words[..|words| - 1]);
      WordAlike(StackWords(c, words[..|words| - 1]), StackWords(d, words[..|words| - 1]), words[|words| - 1]);
    }
  }

  /** Inside a frame the decoder is never idle. */
  lemma FrameUnfinished(c: Core, block: seq<u32>, xs: seq<u32>, ys: seq<u32>)
    requires Idle(c) && 0 < |block| < 0x1FFF && xs != [] && ys != [] && xs + ys == FrameAround(block)
    ensures StackWords(c, xs).stackWords > 0
  {
    var frame, heads, k := FrameAround(block), [StackHeader(|block| + 1), BlockHeader(|block|)], |xs|;
    assert frame[..k] == xs;
    TwoWords(c, heads[0], heads[1]);
    if k == 1 {
      assert frame[..1] == [heads[0]] && [heads[0]][..0] == [];
      assert StackWords(c, [heads[0]]) == StackWord(c, heads[0]);
    } else {
      assert frame[..k] == heads + block[..k - 2];
      StackWordsConcat(c, heads, block[..k - 2]);
      BlockAccumulates(c.(stackWords := |block|, blockWords := |block|), block[..k - 2]);
    }
  }

  lemma UnfinishedPacket(c: Core, words: seq<u32>, number: nat)
    requires c.stackWords > 0 && |words| > 2 && words[0] / 0x1000_0000 % 4 == 2 && words[0] / 0x1_0000 % 0x1000 == number
    requires Follows(c, number)
    ensures Packet(c, words) == StackWords(Counted(c, number), words[2..])
  {
    UninterruptedIsCounted(c, number);
  }

  /** The payload of the next packet continues an unfinished frame, whatever its header pointer says. */
  lemma ContinuingPacket(c: Core, number: nat, pointer: u32, words: seq<u32>)
    requires c.stackWords > 0 && number < 0x1000 && 0 < |words| < 0x2000
    requires c.lastPacket.Some? && number == (c.lastPacket.value + 1) % 0x1000
    ensures Packet(c, [PacketHeader(number, |words|), pointer] + words) == StackWords(Counted(c, number), words)
  {
    var packet := [PacketHeader(number, |words|), pointer] + words;
    assert packet[2..] == words;
    UnfinishedPacket(c, packet, number);
  }

  function Flat(pieces: seq<seq<u32>>): seq<u32> {
    if pieces == [] then [] else Flat(pieces[..|pieces| - 1]) + pieces[|pieces| - 1]
  }

  predicate Payloads(pieces: seq<seq<u32>>) { forall i | 0 <= i < |pieces| :: 0 < |pieces[i]| < 0x2000 }

  /** The number of the i-th packet after one. */
  function NumberAt(number: nat, i: nat): (n: nat)
    requires number < 0x1000
    ensures n < 0x1000
  {
    if i == 0 then number else (NumberAt(number, i - 1) + 1) % 0x1000
  }

  /** Consecutive packets, each with its payload and header pointer. */
  function Deliver(c: Core, number: nat, pieces: seq<seq<u32>>, pointers: seq<u32>): Core
    requires |pieces| == |pointers| && Payloads(pieces) && number < 0x1000
  {
    if pieces == [] then c
    else
      var n := |pieces| - 1;
      Packet(Deliver(c, number, pieces[..n], pointers[..n]),
             [PacketHeader(NumberAt(number, n), |pieces[n]|), pointers[n]] + pieces[n])
  }

  /** One more piece of an unfinished frame. */
  lemma PieceAlike(first: Core, c: Core, xs: seq<u32>, piece: seq<u32>, number: nat, pointer: u32)
    requires SameProgress(first, StackWords(c, xs)) && first.stackWords > 0
    requires number < 0x1000 && 0 < |piece| < 0x2000
    requires first.lastPacket.Some? && number == (first.lastPacket.value + 1) % 0x1000
    ensures var next := Packet(first, [PacketHeader(number, |piece|), pointer] + piece);
            SameProgress(next, StackWords(c, xs + piece)) && next.lastPacket == Some(number)
  {
    ContinuingPacket(first, number, pointer, piece);
    WordsAlike(Counted(first, number), StackWords(c, xs), piece);
    StackWordsConcat(c, xs, piece);
  }

  lemma FirstPiece(c: Core, piece: seq<u32>, number: nat)
    requires Idle(c) && number < 0x1000 && 0 < |piece| < 0x2000
    requires c.lastPacket.Some? ==> number == (c.lastPacket.value + 1) % 0x1000
    ensures var next := Packet(c, [PacketHeader(number, |piece|), 0] + piece);
            SameProgress(next, StackWords(c, piece)) && next.lastPacket == Some(number)
  {
    PacketDecoded(c, number, piece);
    WordsAlike(Counted(c, number), c, piece);
  }

  /** Before each piece but the first, the frame is still unfinished. */
  predicate Unfinished(c: Core, pieces: seq<seq<u32>>) {
    |pieces| > 1 ==>
      StackWords(c, Flat(pieces[..|pieces| - 1])).stackWords > 0 && Unfinished(c, pieces[..|pieces| - 1])
  }

  predicate Follows(c: Core, number: nat) { c.lastPacket.Some? ==> number == (c.lastPacket.value + 1) % 0x1000 }

  predicate Arrived(now: Core, c: Core, words: seq<u32>, number: nat) {
    SameProgress(now, StackWords(c, words)) && now.lastPacket == Some(number)
  }

  lemma {:induction false} DeliveredAlike(c: Core, number: nat, pieces: seq<seq<u32>>, pointers: seq<u32>)
    requires Idle(c) && number < 0x1000 && Follows(c, number) && Unfinished(c, pieces)
    requires |pieces| == |pointers| > 0 && Payloads(pieces) && pointers[0] == 0
    ensures Arrived(Deliver(c, number, pieces, pointers), c, Flat(pieces), NumberAt(number, |pieces| - 1))
    decreases |pieces|
  {
    var n := |pieces| - 1;
    if n == 0 {
      OnePiece(c, number, pieces, pointers);
    } else {
      var front, fronts := pieces[..n], pointers[..n];
      UnfinishedApart(c, pieces, front);
      DeliveredAlike(c, number, front, fronts);
      NextNumber(number, n - 1, n);
      OnePieceMore(c, number, front, fronts, pieces, pointers, NumberAt(number, n - 1), NumberAt(number, n));
    }
  }

  lemma OnePiece(c: Core, number: nat, pieces: seq<seq<u32>>, pointers: seq<u32>)
    requires Idle(c) && number < 0x1000 && Follows(c, number)
    requires |pieces| == |pointers| == 1 && Payloads(pieces) && pointers[0] == 0
    ensures Arrived(Deliver(c, number, pieces, pointers), c, Flat(pieces), number)
  {
    DeliverApart(c, number, [], [], pieces, pointers, number);
    assert [] + pieces[0] == pieces[0];
    FirstPiece(c, pieces[0], number);
  }

  lemma UnfinishedApart(c: Core, pieces: seq<seq<u32>>, front: seq<seq<u32>>)
    requires |pieces| > 1 && Unfinished(c, pieces) && front == pieces[..|pieces| - 1]
    ensures StackWords(c, Flat(front)).stackWords > 0 && Unfinished(c, front)
  {
  }

  lemma NextNumber(number: nat, i: nat, next: nat)
    requires number < 0x1000 && next == i + 1
    ensures NumberAt(number, next) == (NumberAt(number, i) + 1) % 0x1000
  {
  }

  lemma OnePieceMore(c: Core, number: nat, pieces: seq<seq<u32>>, pointers: seq<u32>, all: seq<seq<u32>>, allPointers: seq<u32>,
                     last: nat, next: nat)
    requires |pieces| == |pointers| > 0 && Payloads(all) && number < 0x1000
    requires |all| == |allPointers| == |pieces| + 1 && all[..|pieces|] == pieces && allPointers[..|pieces|] == pointers
    requires next == NumberAt(number, |pieces|) == (last + 1) % 0x1000
    requires Payloads(pieces) && Arrived(Deliver(c, number, pieces, pointers), c, Flat(pieces), last)
    requires StackWords(c, Flat(pieces)).stackWords > 0
    ensures Arrived(Deliver(c, number, all, allPointers), c, Flat(all), next)
  {
    var before, n := Deliver(c, number, pieces, pointers), |pieces|;
    DeliverApart(c, number, pieces, pointers, all, allPointers, next);
    PieceAlike(before, c, Flat(pieces), all[n], next, allPointers[n]);
  }

  lemma DeliverApart(c: Core, number: nat, pieces: seq<seq<u32>>, pointers: seq<u32>, all: seq<seq<u32>>, allPointers: seq<u32>,
                     next: nat)
    requires |pieces| == |pointers| && Payloads(pieces) && Payloads(all) && number < 0x1000 && next == NumberAt(number, |pieces|)
    requires |all| == |allPointers| == |pieces| + 1 && all[..|pieces|] == pieces && allPointers[..|pieces|] == pointers
    ensures Deliver(c, number, all, allPointers)
         == Packet(Deliver(c, number, pieces, pointers),
                   [PacketHeader(next, |all[|pieces|]|), allPointers[|pieces|]] + all[|pieces|])
    ensures Flat(all) == Flat(pieces) + all[|pieces|]
  {
  }

  lemma {:induction false} PiecesUnfinished(c: Core, block: seq<u32>, pieces: seq<seq<u32>>, rest: seq<u32>)
    requires Idle(c) && 0 < |block| < 0x1FFF && Payloads(pieces) && Flat(pieces) + rest == FrameAround(block)
    ensures Unfinished(c, pieces)
    decreases |pieces|
  {
    if |pieces| > 1 {
      var front, last := pieces[..|pieces| - 1], pieces[|pieces| - 1];
      assert Flat(front) + (last + rest) == Flat(pieces) + rest;
      FrameUnfinished(c, block, Flat(front), last + rest);
      PiecesUnfinished(c, block, front, last + rest);
    }
  }

  /** A stack frame spread in any way over consecutive packets is decoded as if it had come in one piece. */
  lemma SplitFrame(c: Core, block: seq<u32>, number: nat, pieces: seq<seq<u32>>, pointers: seq<u32>)
    requires Idle(c) && 0 < |block| < 0x1FFF && number < 0x1000 && Follows(c, number)
    requires |pieces| == |pointers| > 0 && Payloads(pieces) && pointers[0] == 0 && Flat(pieces) == FrameAround(block)
    ensures SameProgress(Deliver(c, number, pieces, pointers), StackWords(c, FrameAround(block)))
  {
    assert Flat(pieces) + [] == FrameAround(block);
    PiecesUnfinished(c, block, pieces, []);
    DeliveredAlike(c, number, pieces, pointers);
  }

  /** The waveforms that events of one address make, in order. The n-th event of all gets the number n. */
  function WaveformsAt(es: seq<Sampled>, a: Address): seq<Waveform> {
    if es == [] then []
    else
      var last := es[|es| - 1];
      WaveformsAt(es[..|es| - 1], a)
      + if Address(last.moduleId, last.channel) == a then [WaveformOf(last, |es|)] else []
  }

  /** A history of the captured waveforms `ws` retains those from position k on: at most a hundred, all with the
      configuration of the newest, and not one fewer than that allows. */
  predicate Retains(h: History, ws: seq<Waveform>, k: nat) {
    && k <= |ws| && (ws != [] ==> k < |ws|)
    && h.total == |ws| && h.waveforms == ws[k..] && |ws| - k <= 100
    && (forall i | k <= i < |ws| :: SameSampleConfiguration(ws[i], ws[|ws| - 1]))
    && (k > 0 ==> |ws| - k == 100 || !SameSampleConfiguration(ws[k - 1], ws[|ws| - 1]))
  }

  /** The position from which a history retains what was captured. */
  ghost predicate Retaining(h: History, ws: seq<Waveform>) { exists k: nat :: Retains(h, ws, k) }

  lemma OneMoreRetained(h: History, ws: seq<Waveform>, w: Waveform)
    requires Retaining(h, ws)
    ensures Retaining(History(h.total + 1, Kept(h, w) + [w]), ws + [w])
  {
    var k: nat :| Retains(h, ws, k);
    var dropped := KeptSuffix(h, w);
    RetainsPushed(h, ws, k, dropped, w);
  }

  lemma SuffixPushed(ws: seq<Waveform>, k: nat, d: nat, w: Waveform)
    requires k + d <= |ws|
    ensures ws[k..][d..] + [w] == (ws + [w])[k + d..]
  {
    assert ws[k..][d..] == ws[k + d..];
  }

  lemma RetainsPushed(h: History, ws: seq<Waveform>, k: nat, dropped: nat, w: Waveform)
    requires Retains(h, ws, k) && dropped <= |h.waveforms|
    requires ws != [] ==>
               dropped == if !SameSampleConfiguration(ws[|ws| - 1], w) then |h.waveforms| else if |h.waveforms| == 100 then 1 else 0
    ensures Retains(History(h.total + 1, h.waveforms[dropped..] + [w]), ws + [w], k + dropped)
  {
    var more, from := ws + [w], k + dropped;
    SuffixPushed(ws, k, dropped, w);
    forall i | from <= i < |more| ensures SameSampleConfiguration(more[i], w) {
      if i < |ws| { assert SameSampleConfiguration(ws[i], ws[|ws| - 1]); }
    }
  }

  /** An archive holds exactly what a sequence of events leaves. */
  ghost predicate Holds(v: Archive, es: seq<Sampled>) {
    && v.decoded == |es| && v.next == |es| + 1
    && (v.latest == if es == [] then None else Some(Address(es[|es| - 1].moduleId, es[|es| - 1].channel)))
    && forall a :: HoldsAt(v, es, a)
  }

  /** A channel has a history exactly if it had an event, and retains what it should. */
  ghost predicate HoldsAt(v: Archive, es: seq<Sampled>, a: Address) {
    && (a in v.histories <==> WaveformsAt(es, a) != [])
    && (a in v.histories ==> Retaining(v.histories[a], WaveformsAt(es, a)))
  }

  lemma OneMoreHeld(v: Archive, es: seq<Sampled>, e: Sampled)
    requires Holds(v, es)
    ensures Holds(Added(v, e), es + [e])
  {
    forall a ensures HoldsAt(Added(v, e), es + [e], a) {
      assert HoldsAt(v, es, a);
      OneMoreHeldAt(v, es, e, a);
    }
  }

  lemma OneMoreHeldAt(v: Archive, es: seq<Sampled>, e: Sampled, a: Address)
    requires HoldsAt(v, es, a) && v.next == |es| + 1
    ensures HoldsAt(Added(v, e), es + [e], a)
  {
    OneMoreWaveform(es, e, a);
    if a == Address(e.moduleId, e.channel) {
      HeldWhereAdded(v, es, e, a, HistoryAt(v, a), WaveformsAt(es, a));
    } else {
      HeldElsewhere(v, Added(v, e), es, es + [e], a);
    }
  }

  lemma HeldWhereAdded(v: Archive, es: seq<Sampled>, e: Sampled, a: Address, h: History, ws: seq<Waveform>)
    requires HoldsAt(v, es, a) && v.next == |es| + 1 && a == Address(e.moduleId, e.channel)
    requires h == HistoryAt(v, a) && ws == WaveformsAt(es, a) && WaveformsAt(es + [e], a) == ws + [WaveformOf(e, v.next)]
    ensures HoldsAt(Added(v, e), es + [e], a)
  {
    RetainedSoFar(v, es, a, h);
    OneMoreRetained(h, ws, WaveformOf(e, v.next));
  }

  lemma HeldElsewhere(v: Archive, d: Archive, es: seq<Sampled>, all: seq<Sampled>, a: Address)
    requires HoldsAt(v, es, a) && WaveformsAt(all, a) == WaveformsAt(es, a)
    requires (a in d.histories <==> a in v.histories) && (a in v.histories ==> d.histories[a] == v.histories[a])
    ensures HoldsAt(d, all, a)
  {
  }

  lemma RetainedSoFar(v: Archive, es: seq<Sampled>, a: Address, h: History)
    requires HoldsAt(v, es, a) && h == HistoryAt(v, a)
    ensures Retaining(h, WaveformsAt(es, a))
  {
    if a !in v.histories { assert Retains(h, [], 0); }
  }

  lemma OneMoreWaveform(es: seq<Sampled>, e: Sampled, a: Address)
    ensures WaveformsAt(es + [e], a)
         == if Address(e.moduleId, e.channel) == a then WaveformsAt(es, a) + [WaveformOf(e, |es| + 1)] else WaveformsAt(es, a)
  {
    assert (es + [e])[..|es|] == es;
  }

  predicate AllSendable(es: seq<Sampled>) { forall i | 0 <= i < |es| :: Sendable(es[i]) }

  /** The bytes of the stack frames of events, one after the other. */
  function EventBytes(es: seq<Sampled>): seq<u8>
    requires AllSendable(es)
  {
    if es == [] then []
    else
      var last := es[|es| - 1];
      BlockShape(last);
      EventBytes(es[..|es| - 1]) + BytesOf(FrameAround(BlockOf(last)))
  }

  /** The state after the bytes of events: nothing pending, and the archive holds what they leave. */
  ghost predicate After(start: Core, c: Core, es: seq<Sampled>)
    requires AllSendable(es)
  {
    && Drain(start, EventBytes(es)) == Drained(c, []) && Idle(c) && Holds(c.archive, es)
    && c.stats == start.stats.(blocks := start.stats.blocks + |es|)
  }

  lemma {:induction false} EventsDrained(start: Core, es: seq<Sampled>) returns (c: Core)
    requires AllSendable(es) && Idle(start) && Holds(start.archive, [])
    ensures After(start, c, es)
  {
    if es == [] {
      NothingDrained(start);
      c := start;
    } else {
      var front, e := es[..|es| - 1], es[|es| - 1];
      var before := EventsDrained(start, front);
      OneMoreEvent(start, before, front, e, es);
      c := AfterEvent(before, e);
    }
  }

  lemma NothingDrained(start: Core)
    requires Idle(start) && Holds(start.archive, [])
    ensures After(start, start, [])
  {
  }

  lemma EventBytesApart(es: seq<Sampled>, e: Sampled)
    requires AllSendable(es) && Sendable(e)
    ensures AllSendable(es + [e]) && 0 < |BlockOf(e)| < 0x1FFF
    ensures EventBytes(es + [e]) == EventBytes(es) + BytesOf(FrameAround(BlockOf(e)))
  {
    BlockShape(e);
    assert (es + [e])[..|es|] == es;
  }

  lemma OneMoreEvent(start: Core, before: Core, es: seq<Sampled>, e: Sampled, all: seq<Sampled>)
    requires AllSendable(es) && Sendable(e) && After(start, before, es) && all == es + [e] && AllSendable(all)
    ensures After(start, AfterEvent(before, e), all)
  {
    OneMoreDrained(start, EventBytes(es), before, e);
    OneMoreHeld(before.archive, es, e);
    EventBytesApart(es, e);
  }

  lemma OneMoreDrained(start: Core, bytes: seq<u8>, before: Core, e: Sampled)
    requires Sendable(e) && Drain(start, bytes) == Drained(before, []) && Idle(before)
    ensures 0 < |BlockOf(e)| < 0x1FFF
    ensures Drain(start, bytes + BytesOf(FrameAround(BlockOf(e)))) == Drained(AfterEvent(before, e), [])
  {
    FrameDecoded(before, e);
    var frame := FrameAround(BlockOf(e));
    DrainInTwo(start, bytes, BytesOf(frame));
    assert [] + BytesOf(frame) == BytesOf(frame);
    FrameDrained(before, frame);
  }

  /** An idle decoder that has seen no event and receives the frames of any events of any modules, channels and
      configurations, in any chunks, ends with every channel's history being the newest of that channel's
      waveforms: as many as share the newest one's configuration, but at most a hundred. */
  lemma EventsRetained(start: Core, es: seq<Sampled>, chunks: seq<seq<u8>>)
    requires Idle(start) && Holds(start.archive, []) && AllSendable(es) && Concat(chunks) == EventBytes(es)
    ensures var end := Feed(Receive, Drained(start, []), chunks);
            && end.rest == [] && Idle(end.core) && Holds(end.core.archive, es)
            && end.core.stats == start.stats.(blocks := start.stats.blocks + |es|)
  {
    ChunkIndependent(Drained(start, []), chunks);
    assert [] + Concat(chunks) == EventBytes(es);
    var c := EventsDrained(start, es);
  }

  /** So has a fresh one. */
  lemma FreshHoldsNothing(start: Core)
    requires start == FRESH
    ensures Idle(start) && Holds(start.archive, [])
  {
  }

  /** Events of one address and one configuration: the last hundred of their waveforms, or all if fewer. */
  lemma LastHundred(start: Core, es: seq<Sampled>, chunks: seq<seq<u8>>, a: Address)
    requires start == FRESH && AllSendable(es) && Concat(chunks) == EventBytes(es) && WaveformsAt(es, a) != []
    requires forall i, j | 0 <= i < j < |WaveformsAt(es, a)| :: SameSampleConfiguration(WaveformsAt(es, a)[i], WaveformsAt(es, a)[j])
    ensures var v, ws := Feed(Receive, Drained(start, []), chunks).core.archive, WaveformsAt(es, a);
            a in v.histories && v.histories[a] == History(|ws|, if |ws| <= 100 then ws else ws[|ws| - 100..])
  {
    FreshHoldsNothing(start);
    EventsRetained(start, es, chunks);
    var v := Feed(Receive, Drained(start, []), chunks).core.archive;
    assert HoldsAt(v, es, a);
    AllOfOneConfiguration(v.histories[a], WaveformsAt(es, a));
  }

  lemma AllOfOneConfiguration(h: History, ws: seq<Waveform>)
    requires Retaining(h, ws) && forall i, j | 0 <= i < j < |ws| :: SameSampleConfiguration(ws[i], ws[j])
    ensures h == History(|ws|, if |ws| <= 100 then ws else ws[|ws| - 100..])
  {
    var k: nat :| Retains(h, ws, k);
  }
}
