/** What the stream decoder does to each frame: words to stack frames, blocks, waveforms, histories. */
module StreamFrames {
  import opened Words

  const STACK_FRAME: nat := 0xF3
  const BLOCK_READ: nat := 0xF5
  const STACK_CONTINUATION: nat := 0xF9
  const SYSTEM_EVENT: nat := 0xFA
  const SYSTEM_EVENT2: nat := 0xFB
  const NO_HEADER_POINTER: nat := 0x0FFF
  const HISTORY_CAPACITY: nat := 100

  datatype Address = Address(moduleId: nat, channel: nat)

  datatype Waveform = Waveform(
    sequence: nat, moduleId: nat, channel: nat, sampleSource: nat, noOffsetCorrection: bool, noResampling: bool,
    phase: nat, timestamp: nat, samples: seq<int>)

  datatype History = History(total: nat, waveforms: seq<Waveform>)

  /** Counters of everything but decoded waveforms, which are counted in the archive. */
  datatype Stats = Stats(systemFrames: nat, packets: nat, lost: nat, blocks: nat, malformed: nat)

  /** The decoded waveforms that are retained, and the number the next one will get. */
  datatype Archive = Archive(histories: map<Address, History>, latest: Option<Address>, decoded: nat, next: nat)

  /** The decoder's state apart from its pending bytes. */
  datatype Core = Core(
    lastPacket: Option<nat>, stackWords: nat, blockWords: nat, blockData: seq<u32>, stats: Stats, archive: Archive)

  const FRESH: Core := Core(None, 0, 0, [], Stats(0, 0, 0, 0, 0), Archive(map[], None, 0, 1))

  function FrameType(word: nat): nat { word / 0x100_0000 }
  function FrameLength(word: nat): nat { word % 0x2000 }
  function TopNibble(word: nat): nat { word / 0x1000_0000 }

  predicate StartsStack(word: nat) { FrameType(word) == STACK_FRAME || FrameType(word) == STACK_CONTINUATION }

  /** DecodeSigned14: two's complement in fourteen bits. */
  function DecodeSigned14(value: nat): (r: int)
    ensures -0x2000 <= r < 0x2000 && (r - value) % 0x4000 == 0
  {
    var v := value % 0x4000;
    if v >= 0x2000 then v - 0x4000 else v
  }

  predicate SameSampleConfiguration(a: Waveform, b: Waveform) {
    && a.sampleSource == b.sampleSource && a.noOffsetCorrection == b.noOffsetCorrection
    && a.noResampling == b.noResampling && |a.samples| == |b.samples|
  }

  function ResetAssembly(c: Core): Core { c.(stackWords := 0, blockWords := 0, blockData := []) }

  function Malformed(c: Core): Core { c.(stats := c.stats.(malformed := c.stats.malformed + 1)) }

  /** The last timestamp word of a block. */
  function LastTimestamp(data: seq<u32>): nat {
    if data == [] then 0
    else var word := data[|data| - 1];
         if word / 0x4000_0000 == 3 then word % 0x4000_0000 else LastTimestamp(data[..|data| - 1])
  }

  function LastExtension(data: seq<u32>): nat {
    if data == [] then 0
    else var word := data[|data| - 1];
         if TopNibble(word) == 2 then word % 0x1_0000 else LastExtension(data[..|data| - 1])
  }

  function Timestamp(data: seq<u32>): nat { LastTimestamp(data) + LastExtension(data) * 0x4000_0000 }

  /** Two samples per word, low half first; none if some word is not a sample word. */
  function Samples(data: seq<u32>): Option<seq<int>> {
    if data == [] then Some([])
    else
      var word := data[|data| - 1];
      var before := Samples(data[..|data| - 1]);
      if before.None? || TopNibble(word) != 3 then None
      else Some(before.value + [DecodeSigned14(word), DecodeSigned14(word / 0x4000)])
  }

  function HistoryAt(v: Archive, a: Address): History { if a in v.histories then v.histories[a] else History(0, []) }

  /** What is kept of a history when a waveform joins it. */
  function Kept(h: History, w: Waveform): seq<Waveform> {
    var same := if h.waveforms != [] && !SameSampleConfiguration(h.waveforms[|h.waveforms| - 1], w) then [] else h.waveforms;
    if |same| == HISTORY_CAPACITY then same[1..] else same
  }

  function Record(v: Archive, w: Waveform): Archive {
    var a := Address(w.moduleId, w.channel);
    var h := HistoryAt(v, a);
    v.(histories := v.histories[a := History(h.total + 1, Kept(h, w) + [w])], latest := Some(a), decoded := v.decoded + 1)
  }

  /** The waveform announced by a sample header. */
  function Announced(word: u32, sequence: nat, moduleId: nat, channel: nat, timestamp: nat, samples: seq<int>): Waveform {
    var config := word / 0x8_0000 % 0x100;
    Waveform(sequence, moduleId, channel, config % 4, config >= 0x80, config / 0x40 % 2 == 1,
             word / 0x400 % 0x200, timestamp, samples)
  }

  /** The effect of one announced waveform: its number is used up even if its samples are invalid. */
  function Capture(c: Core, word: u32, body: seq<u32>, moduleId: nat, channel: nat, timestamp: nat): Core {
    var used := c.archive.(next := c.archive.next + 1);
    match Samples(body)
    case None => Malformed(c.(archive := used))
    case Some(samples) => c.(archive := Record(used, Announced(word, c.archive.next, moduleId, channel, timestamp, samples)))
  }

  /** A position in a block, with the channel seen last. */
  datatype Cursor = Cursor(core: Core, index: nat, channel: Option<nat>)

  /** One word of a block, or one announced waveform. */
  function Advance(at: Cursor, data: seq<u32>, moduleId: nat, timestamp: nat): (next: Cursor)
    requires at.index < |data|
    ensures next.index > at.index
  {
    var word := data[at.index];
    if TopNibble(word) == 1 then
      at.(index := at.index + 1, channel := if word / 0x20_0000 % 4 <= 1 then Some(word / 0x1_0000 % 0x20) else at.channel)
    else if TopNibble(word) != 3 || at.channel.None? then at.(index := at.index + 1)
    else
      var count := word % 0x400;
      if count == 0 || at.index + count >= |data| then at.(index := at.index + 1, core := Malformed(at.core))
      else
        var body := data[at.index + 1..at.index + 1 + count];
        at.(index := at.index + count + 1, core := Capture(at.core, word, body, moduleId, at.channel.value, timestamp))
  }

  /** The rest of a block. */
  function DecodeFrom(at: Cursor, data: seq<u32>, moduleId: nat, timestamp: nat): Core
    decreases |data| - at.index
  {
    if at.index >= |data| then at.core else DecodeFrom(Advance(at, data, moduleId, timestamp), data, moduleId, timestamp)
  }

  /** DecodeBlockFrame. */
  function DecodeBlock(c: Core): Core {
    if |c.blockData| < 3 || TopNibble(c.blockData[0]) != 4 then c
    else DecodeFrom(Cursor(c, 1, None), c.blockData, c.blockData[0] / 0x1_0000 % 0x100, Timestamp(c.blockData))
  }

  /** ProcessStackWord. */
  function StackWord(c: Core, word: u32): Core {
    if c.blockWords > 0 then
      if c.stackWords == 0 then ResetAssembly(Malformed(c))
      else
        var taken := c.(blockData := c.blockData + [word], blockWords := c.blockWords - 1, stackWords := c.stackWords - 1);
        if taken.blockWords > 0 then taken
        else DecodeBlock(taken.(stats := taken.stats.(blocks := taken.stats.blocks + 1))).(blockData := [])
    else if c.stackWords > 0 then
      var less := c.(stackWords := c.stackWords - 1);
      if FrameType(word) != BLOCK_READ then less
      else if FrameLength(word) > less.stackWords then ResetAssembly(Malformed(less))
      else
        less.(blockWords := FrameLength(word), blockData := [],
              stats := less.stats.(blocks := less.stats.blocks + if FrameLength(word) == 0 then 1 else 0))
    else if StartsStack(word) then c.(stackWords := FrameLength(word))
    else c
  }

  function StackWords(c: Core, words: seq<u32>): Core {
    if words == [] then c else StackWord(StackWords(c, words[..|words| - 1]), words[|words| - 1])
  }

  /** The gap check on an Ethernet packet number. */
  function NotePacket(c: Core, number: nat): Core {
    var expected := if c.lastPacket.Some? then (c.lastPacket.value + 1) % 0x1000 else number;
    var kept := if number == expected then c
                else ResetAssembly(c.(stats := c.stats.(lost := c.stats.lost + (number - expected) % 0x1000)));
    kept.(lastPacket := Some(number))
  }

  /** ProcessEthernetPacket on a packet's words. */
  function Packet(c: Core, words: seq<u32>): Core
    requires |words| >= 2
  {
    var counted := c.(stats := c.stats.(packets := c.stats.packets + 1));
    if words[0] / 0x1000_0000 % 4 != 2 then counted
    else
      var noted := NotePacket(counted, words[0] / 0x1_0000 % 0x1000);
      if noted.stackWords > 0 then StackWords(noted, words[2..])
      else
        var pointer := words[1] % 0x1000;
        if pointer == NO_HEADER_POINTER then noted
        else if pointer >= |words| - 2 then Malformed(noted)
        else StackWords(noted, words[2 + pointer..])
  }

  function SystemFrame(c: Core): Core {
    ResetAssembly(c.(stats := c.stats.(systemFrames := c.stats.systemFrames + 1), lastPacket := None))
  }
}
