/** Cutting the byte stream into frames, independently of how the bytes arrive. */
module StreamBytes {
  import opened Words
  import opened StreamFrames
  import opened StreamInvariants

  function WordAt(bytes: seq<u8>, at: nat): u32
    requires at + 4 <= |bytes|
  {
    var b0: nat, b1: nat, b2: nat, b3: nat := bytes[at], bytes[at + 1], bytes[at + 2], bytes[at + 3];
    b0 + b1 * 0x100 + b2 * 0x1_0000 + b3 * 0x100_0000
  }

  function WordsOf(bytes: seq<u8>): (words: seq<u32>)
    ensures |words| == |bytes| / 4
  {
    seq(|bytes| / 4, i requires 0 <= i < |bytes| / 4 => WordAt(bytes, 4 * i))
  }

  datatype Kind = System | EthernetPacket | BadChannel | Stack | Noise

  function KindOf(word: u32): Kind {
    if FrameType(word) == SYSTEM_EVENT || FrameType(word) == SYSTEM_EVENT2 then System
    else if word / 0x4000_0000 == 0 then if word / 0x1000_0000 % 4 > 2 then BadChannel else EthernetPacket
    else if StartsStack(word) then Stack
    else Noise
  }

  /** Bytes that a frame starting with the word occupies. */
  function SizeOf(word: u32): (n: nat)
    ensures n >= 4 && n % 4 == 0 && (KindOf(word) == EthernetPacket ==> n >= 8)
  {
    match KindOf(word)
    case System => 4 * (1 + FrameLength(word))
    case EthernetPacket => 4 * (2 + FrameLength(word))
    case BadChannel => 4
    case Stack => 4 * (1 + FrameLength(word))
    case Noise => 4
  }

  /** Bytes that must be there before the frame is taken. */
  function Needed(word: u32): (n: nat)
    ensures n >= SizeOf(word)
  {
    if KindOf(word) == BadChannel then 8 else SizeOf(word)
  }

  /** Size of the complete frame at the front, if there is one. */
  function FrameSize(bytes: seq<u8>): (n: Option<nat>)
    ensures n.Some? ==> 4 <= n.value <= |bytes|
  {
    if |bytes| < 4 then None
    else if |bytes| < Needed(WordAt(bytes, 0)) then None
    else Some(SizeOf(WordAt(bytes, 0)))
  }

  /** What a complete frame does. */
  function Effect(c: Core, words: seq<u32>): Core
    requires |words| >= 1 && (KindOf(words[0]) == EthernetPacket ==> |words| >= 2)
  {
    match KindOf(words[0])
    case System => SystemFrame(c)
    case EthernetPacket => Packet(c, words)
    case BadChannel => ResetAssembly(Malformed(c))
    case Stack => StackWords(c, words)
    case Noise => ResetAssembly(Malformed(c))
  }

  function Take(c: Core, bytes: seq<u8>): Core
    requires FrameSize(bytes).Some?
  {
    Effect(c, WordsOf(bytes[..FrameSize(bytes).value]))
  }

  datatype Drained = Drained(core: Core, rest: seq<u8>)

  /** Take complete frames until none is left. */
  function Drain(c: Core, bytes: seq<u8>): Drained
    decreases |bytes|
  {
    match FrameSize(bytes)
    case None => Drained(c, bytes)
    case Some(n) => Drain(Take(c, bytes), bytes[n..])
  }

  /** More bytes behind a complete frame change neither its size nor its effect. */
  lemma FrameStable(c: Core, bytes: seq<u8>, more: seq<u8>)
    requires FrameSize(bytes).Some?
    ensures FrameSize(bytes + more) == FrameSize(bytes) && Take(c, bytes + more) == Take(c, bytes)
    ensures (bytes + more)[FrameSize(bytes).value..] == bytes[FrameSize(bytes).value..] + more
  {
    assert WordAt(bytes + more, 0) == WordAt(bytes, 0);
    var n := FrameSize(bytes).value;
    assert (bytes + more)[..n] == bytes[..n];
  }

  /** Draining in two instalments is draining at once. */
  lemma {:induction false} DrainInTwo(c: Core, bytes: seq<u8>, more: seq<u8>)
    ensures Drain(c, bytes + more) == Drain(Drain(c, bytes).core, Drain(c, bytes).rest + more)
    decreases |bytes|
  {
    if FrameSize(bytes).Some? {
      FrameStable(c, bytes, more);
      DrainInTwo(Take(c, bytes), bytes[FrameSize(bytes).value..], more);
    }
  }

  /** What is left holds no complete frame. */
  lemma {:induction false} DrainStuck(c: Core, bytes: seq<u8>)
    ensures FrameSize(Drain(c, bytes).rest).None?
    decreases |bytes|
  {
    if FrameSize(bytes).Some? { DrainStuck(Take(c, bytes), bytes[FrameSize(bytes).value..]); }
  }

  /** One Consume call. */
  function Receive(s: Drained, data: seq<u8>): Drained { Drain(s.core, s.rest + data) }

  /** A run of calls, one per chunk. */
  function Feed(call: (Drained, seq<u8>) -> Drained, s: Drained, chunks: seq<seq<u8>>): Drained {
    if chunks == [] then s else call(Feed(call, s, chunks[..|chunks| - 1]), chunks[|chunks| - 1])
  }

  ghost predicate Composes(call: (Drained, seq<u8>) -> Drained) {
    forall s, a, b :: call(call(s, a), b) == call(s, a + b)
  }

  lemma {:induction false} FeedAtOnce(call: (Drained, seq<u8>) -> Drained, s: Drained, chunks: seq<seq<u8>>)
    requires Composes(call) && call(s, []) == s
    ensures Feed(call, s, chunks) == call(s, Concat(chunks))
  {
    if chunks != [] { FeedAtOnce(call, s, chunks[..|chunks| - 1]); }
  }

  lemma ReceiveComposes(s: Drained, a: seq<u8>, b: seq<u8>)
    ensures Receive(Receive(s, a), b) == Receive(s, a + b)
  {
    DrainInTwo(s.core, s.rest + a, b);
    assert s.rest + a + b == s.rest + (a + b);
  }

  lemma ReceiveNothing(s: Drained)
    requires FrameSize(s.rest).None?
    ensures Receive(s, []) == s
  {
  }

  /** The whole state after any cutting of a byte string is the state after one call with all of it. */
  lemma ChunkIndependent(s: Drained, chunks: seq<seq<u8>>)
    requires FrameSize(s.rest).None?
    ensures Feed(Receive, s, chunks) == Receive(s, Concat(chunks))
  {
    forall t, a, b ensures Receive(Receive(t, a), b) == Receive(t, a + b) { ReceiveComposes(t, a, b); }
    ReceiveNothing(s);
    FeedAtOnce(Receive, s, chunks);
  }

  lemma EffectKeeps(c: Core, words: seq<u32>, forgotten: nat)
    requires |words| >= 1 && (KindOf(words[0]) == EthernetPacket ==> |words| >= 2)
    requires Inv(c, forgotten)
    ensures Inv(Effect(c, words), forgotten)
  {
    match KindOf(words[0])
    case EthernetPacket => PacketKeeps(c, words, forgotten);
    case Stack => StackWordsKeep(c, words, forgotten);
    case _ =>
  }

  /** Every byte string keeps the invariant, wherever the cuts fall. */
  lemma {:induction false} DrainKeeps(c: Core, bytes: seq<u8>, forgotten: nat)
    requires Inv(c, forgotten)
    ensures Inv(Drain(c, bytes).core, forgotten)
    decreases |bytes|
  {
    if FrameSize(bytes).Some? {
      EffectKeeps(c, WordsOf(bytes[..FrameSize(bytes).value]), forgotten);
      DrainKeeps(Take(c, bytes), bytes[FrameSize(bytes).value..], forgotten);
    }
  }
}

/** The incremental decoder. */
module StreamDecoder {
  import opened Words
  import opened StreamFrames
  import opened StreamInvariants
  import opened StreamBytes

  class MvmeStreamDecoder {
    var pendingBytes: seq<u8>
    var lastEthernetPacket: Option<nat>
    var stackWordsRemaining: nat
    var blockWordsRemaining: nat
    var blockData: seq<u32>
    var historiesByChannel: map<Address, History>
    var latestChannel: Option<Address>
    var stats: Stats
    var decodedWaveforms: nat
    var nextWaveformSequence: nat
    /** Captures of channels that have been cleared. */
    ghost var forgotten: nat

    ghost function Stored(): Archive
      reads this`historiesByChannel, this`latestChannel, this`decodedWaveforms, this`nextWaveformSequence
    {
      Archive(historiesByChannel, latestChannel, decodedWaveforms, nextWaveformSequence)
    }

    ghost function View(): Core
      reads this`lastEthernetPacket, this`stackWordsRemaining, this`blockWordsRemaining, this`blockData, this`stats,
            this`historiesByChannel, this`latestChannel, this`decodedWaveforms, this`nextWaveformSequence
    {
      Core(lastEthernetPacket, stackWordsRemaining, blockWordsRemaining, blockData, stats, Stored())
    }

    /** Between calls: the decoder invariant, and no complete frame waiting. */
    ghost predicate Valid()
      reads this
    {
      Inv(View(), forgotten) && FrameSize(pendingBytes).None?
    }

    constructor ()
      ensures View() == FRESH && pendingBytes == [] && forgotten == 0
      ensures Valid()
    {
      new;
      Reset();
    }

    method Reset()
      modifies this
      ensures View() == FRESH && pendingBytes == [] && forgotten == 0
      ensures Valid()
    {
      pendingBytes, lastEthernetPacket := [], None;
      ResetFrameAssembly();
      historiesByChannel, latestChannel := map[], None;
      stats, decodedWaveforms, nextWaveformSequence := Stats(0, 0, 0, 0, 0), 0, 1;
      forgotten := 0;
      FreshValid(View(), pendingBytes);
    }

    method ResetFrameAssembly()
      modifies this`stackWordsRemaining, this`blockWordsRemaining, this`blockData
      ensures View() == ResetAssembly(old(View()))
    {
      stackWordsRemaining, blockWordsRemaining, blockData := 0, 0, [];
    }

    method CountMalformed()
      modifies this`stats
      ensures View() == Malformed(old(View()))
    {
      stats := stats.(malformed := stats.malformed + 1);
    }

    method ClearWaveformHistoriesForQuad(selectedQuad: u16)
      requires Valid()
      modifies this`historiesByChannel, this`latestChannel, this`forgotten
      ensures Valid() && View() == old(View()).(archive := Clear(old(Stored()), selectedQuad))
      ensures forgotten + Captured(historiesByChannel) == old(forgotten + Captured(historiesByChannel))
    {
      ClearKeeps(Stored(), selectedQuad, forgotten);
      ghost var before := Captured(historiesByChannel);
      historiesByChannel := map a | a in historiesByChannel ::
        if a.channel / 4 == selectedQuad then History(0, []) else historiesByChannel[a];
      if latestChannel.Some? && latestChannel.value.channel / 4 == selectedQuad { latestChannel := None; }
      forgotten := forgotten + before - Captured(historiesByChannel);
    }

    /** The samples of one waveform, word by word. */
    method ReadSamples(body: seq<u32>) returns (valid: bool, samples: seq<int>)
      ensures Samples(body) == if valid then Some(samples) else None
    {
      samples := [];
      for i := 0 to |body|
        invariant Samples(body[..i]) == Some(samples)
      {
        assert body[..i + 1][..i] == body[..i];
        if TopNibble(body[i]) != 3 {
          SamplesFail(body, i + 1);
          return false, samples;
        }
        samples := samples + [DecodeSigned14(body[i]), DecodeSigned14(body[i] / 0x4000)];
      }
      assert body[..|body|] == body;
      valid := true;
    }

    method StoreWaveform(w: Waveform)
      modifies this`historiesByChannel, this`latestChannel, this`decodedWaveforms
      ensures Stored() == Record(old(Stored()), w)
    {
      var a := Address(w.moduleId, w.channel);
      var history := if a in historiesByChannel then historiesByChannel[a] else History(0, []);
      var total, waveforms := history.total + 1, history.waveforms;
      if waveforms != [] && !SameSampleConfiguration(waveforms[|waveforms| - 1], w) { waveforms := []; }
      if |waveforms| == HISTORY_CAPACITY { waveforms := waveforms[1..]; }
      latestChannel := Some(a);
      historiesByChannel := historiesByChannel[a := History(total, waveforms + [w])];
      decodedWaveforms := decodedWaveforms + 1;
    }

    method CaptureWaveform(word: u32, body: seq<u32>, moduleId: nat, channel: nat, timestamp: nat)
      modifies this`stats, this`historiesByChannel, this`latestChannel, this`decodedWaveforms, this`nextWaveformSequence
      ensures View() == Capture(old(View()), word, body, moduleId, channel, timestamp)
    {
      var sequence := nextWaveformSequence;
      nextWaveformSequence := nextWaveformSequence + 1;
      var valid, samples := ReadSamples(body);
      if valid {
        StoreWaveform(Announced(word, sequence, moduleId, channel, timestamp, samples));
      } else {
        CountMalformed();
      }
    }

    method BlockTimestamp() returns (t: nat)
      ensures t == Timestamp(blockData)
    {
      var timestamp: nat, extended: nat := 0, 0;
      for i := 0 to |blockData|
        invariant timestamp == LastTimestamp(blockData[..i]) && extended == LastExtension(blockData[..i])
      {
        assert blockData[..i + 1][..i] == blockData[..i];
        var word := blockData[i];
        if word / 0x4000_0000 == 3 { timestamp := word % 0x4000_0000; }
        else if TopNibble(word) == 2 { extended := word % 0x1_0000; }
      }
      assert blockData[..|blockData|] == blockData;
      t := timestamp + extended * 0x4000_0000;
    }

    /** One word of the block, or one announced waveform. */
    method DecodeItem(index: nat, channel: Option<nat>, moduleId: nat, timestamp: nat) returns (next: nat, seen: Option<nat>)
      requires index < |blockData|
      modifies this`stats, this`historiesByChannel, this`latestChannel, this`decodedWaveforms, this`nextWaveformSequence
      ensures Cursor(View(), next, seen) == Advance(Cursor(old(View()), index, channel), blockData, moduleId, timestamp)
    {
      var word := blockData[index];
      next, seen := index + 1, channel;
      if TopNibble(word) == 1 {
        if word / 0x20_0000 % 4 <= 1 { seen := Some(word / 0x1_0000 % 0x20); }
        return;
      }
      if TopNibble(word) != 3 || channel.None? { return; }
      var sampleWords := word % 0x400;
      if sampleWords == 0 || index + sampleWords >= |blockData| {
        CountMalformed();
        return;
      }
      CaptureWaveform(word, blockData[index + 1..index + 1 + sampleWords], moduleId, channel.value, timestamp);
      next := index + sampleWords + 1;
    }

    method DecodeBlockFrame()
      modifies this`stats, this`historiesByChannel, this`latestChannel, this`decodedWaveforms, this`nextWaveformSequence
      ensures View() == DecodeBlock(old(View()))
    {
      if |blockData| < 3 { return; }
      if TopNibble(blockData[0]) != 4 { return; }
      var moduleId := blockData[0] / 0x1_0000 % 0x100;
      var timestamp := BlockTimestamp();
      var channel, index := None, 1;
      while index < |blockData|
        invariant DecodeFrom(Cursor(View(), index, channel), blockData, moduleId, timestamp)
               == DecodeFrom(Cursor(old(View()), 1, None), blockData, moduleId, timestamp)
      {
        index, channel := DecodeItem(index, channel, moduleId, timestamp);
      }
    }

    method ProcessStackWord(word: u32)
      modifies this
      ensures View() == StackWord(old(View()), word)
      ensures pendingBytes == old(pendingBytes) && forgotten == old(forgotten)
    {
      if blockWordsRemaining > 0 {
        if stackWordsRemaining == 0 {
          CountMalformed();
          ResetFrameAssembly();
          return;
        }
        blockData := blockData + [word];
        blockWordsRemaining, stackWordsRemaining := blockWordsRemaining - 1, stackWordsRemaining - 1;
        if blockWordsRemaining == 0 {
          stats := stats.(blocks := stats.blocks + 1);
          DecodeBlockFrame();
          blockData := [];
        }
        return;
      }
      if stackWordsRemaining > 0 {
        stackWordsRemaining := stackWordsRemaining - 1;
        if FrameType(word) == BLOCK_READ {
          var blockLength := FrameLength(word);
          if blockLength > stackWordsRemaining {
            CountMalformed();
            ResetFrameAssembly();
            return;
          }
          blockWordsRemaining, blockData := blockLength, [];
          if blockLength == 0 { stats := stats.(blocks := stats.blocks + 1); }
        }
        return;
      }
      if StartsStack(word) { stackWordsRemaining := FrameLength(word); }
    }

    method ProcessWords(words: seq<u32>)
      modifies this
      ensures View() == StackWords(old(View()), words)
      ensures pendingBytes == old(pendingBytes) && forgotten == old(forgotten)
    {
      for i := 0 to |words|
        invariant View() == StackWords(old(View()), words[..i])
        invariant pendingBytes == old(pendingBytes) && forgotten == old(forgotten)
      {
        assert words[..i + 1][..i] == words[..i];
        ProcessStackWord(words[i]);
      }
      assert words[..|words|] == words;
    }

    /** The gap check of an Ethernet packet. */
    method CheckPacketNumber(packetNumber: nat)
      modifies this`stats, this`lastEthernetPacket, this`stackWordsRemaining, this`blockWordsRemaining, this`blockData
      ensures View() == NotePacket(old(View()), packetNumber)
    {
      if lastEthernetPacket.Some? {
        var expected := (lastEthernetPacket.value + 1) % 0x1000;
        if packetNumber != expected {
          stats := stats.(lost := stats.lost + (packetNumber - expected) % 0x1000);
          ResetFrameAssembly();
        }
      }
      lastEthernetPacket := Some(packetNumber);
    }

    method ProcessEthernetPacket(packet: seq<u32>)
      requires |packet| >= 2
      modifies this
      ensures View() == Packet(old(View()), packet)
      ensures pendingBytes == old(pendingBytes) && forgotten == old(forgotten)
    {
      var packetChannel, packetNumber := packet[0] / 0x1000_0000 % 4, packet[0] / 0x1_0000 % 0x1000;
      stats := stats.(packets := stats.packets + 1);
      if packetChannel != 2 { return; }
      CheckPacketNumber(packetNumber);
      var payloadIndex := 0;
      if stackWordsRemaining == 0 {
        var nextHeaderPointer := packet[1] % 0x1000;
        if nextHeaderPointer == NO_HEADER_POINTER { return; }
        if nextHeaderPointer >= |packet| - 2 {
          CountMalformed();
          return;
        }
        payloadIndex := nextHeaderPointer;
      }
      ProcessWords(packet[2 + payloadIndex..]);
    }

    method ProcessFrame(words: seq<u32>)
      requires |words| >= 1 && (KindOf(words[0]) == EthernetPacket ==> |words| >= 2)
      modifies this
      ensures View() == Effect(old(View()), words)
      ensures pendingBytes == old(pendingBytes) && forgotten == old(forgotten)
    {
      match KindOf(words[0])
      case System =>
        stats, lastEthernetPacket := stats.(systemFrames := stats.systemFrames + 1), None;
        ResetFrameAssembly();
      case EthernetPacket => ProcessEthernetPacket(words);
      case BadChannel =>
        CountMalformed();
        ResetFrameAssembly();
      case Stack => ProcessWords(words);
      case Noise =>
        CountMalformed();
        ResetFrameAssembly();
    }

    method ProcessPendingData()
      modifies this
      ensures Drained(View(), pendingBytes) == Drain(old(View()), old(pendingBytes)) && forgotten == old(forgotten)
    {
      var offset := 0;
      assert pendingBytes[0..] == pendingBytes;
      while FrameSize(pendingBytes[offset..]).Some?
        invariant 0 <= offset <= |pendingBytes| && pendingBytes == old(pendingBytes) && forgotten == old(forgotten)
        invariant Drain(View(), pendingBytes[offset..]) == Drain(old(View()), old(pendingBytes))
        decreases |pendingBytes| - offset
      {
        var waiting := pendingBytes[offset..];
        var size := FrameSize(waiting).value;
        ProcessFrame(WordsOf(waiting[..size]));
        offset := offset + size;
        assert waiting[size..] == pendingBytes[offset..];
      }
      pendingBytes := pendingBytes[offset..];
    }

    /** Consume: the new state depends on the bytes received so far, not on where the calls cut them. */
    method Consume(data: seq<u8>)
      requires Valid()
      modifies this
      ensures Valid() && forgotten == old(forgotten)
      ensures Drained(View(), pendingBytes) == Receive(old(Drained(View(), pendingBytes)), data)
    {
      DrainKeeps(View(), pendingBytes + data, forgotten);
      DrainStuck(View(), pendingBytes + data);
      if |data| == 0 {
        assert pendingBytes + data == pendingBytes;
        return;
      }
      pendingBytes := pendingBytes + data;
      ProcessPendingData();
    }

    /** LatestWaveform: no retained waveform of any channel is newer. */
    method LatestWaveform() returns (w: Option<Waveform>)
      requires Valid()
      ensures w.Some? <==> latestChannel.Some?
      ensures w.Some? ==> Address(w.value.moduleId, w.value.channel) == latestChannel.value
      ensures w.Some? ==> forall a | a in historiesByChannel :: AtMost(historiesByChannel[a], w.value.sequence)
    {
      if latestChannel.None? { return None; }
      if latestChannel.value !in historiesByChannel { return None; }
      var h := historiesByChannel[latestChannel.value];
      if h.waveforms == [] { return None; }
      assert GoodHistory(latestChannel.value, h, nextWaveformSequence);
      return Some(h.waveforms[|h.waveforms| - 1]);
    }
  }

  lemma FreshValid(c: Core, bytes: seq<u8>)
    requires c == FRESH && bytes == []
    ensures Inv(c, 0) && FrameSize(bytes).None?
  {
  }

  /** A run of Consume calls from the same state ends in the same state as any other cutting. */
  lemma AnyTwoCuttings(s: Drained, xs: seq<seq<u8>>, ys: seq<seq<u8>>)
    requires FrameSize(s.rest).None? && Concat(xs) == Concat(ys)
    ensures Feed(Receive, s, xs) == Feed(Receive, s, ys)
  {
    ChunkIndependent(s, xs);
    ChunkIndependent(s, ys);
  }

  /** An invalid word spoils the samples however many words follow. */
  lemma {:induction false} SamplesFail(body: seq<u32>, n: nat)
    requires n <= |body| && Samples(body[..n]).None?
    ensures Samples(body).None?
    decreases |body| - n
  {
    if n == |body| {
      assert body[..n] == body;
    } else {
      assert body[..n + 1][..n] == body[..n];
      SamplesFail(body, n + 1);
    }
  }
}
