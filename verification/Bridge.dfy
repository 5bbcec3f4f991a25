/** Bridge framing: one byte at a time, as the reference for the chunked decoder. */
module BridgeFraming {
  import opened Words

  const COMMAND: u8 := 0x00
  const DATA: u8 := 0x01
  const HELLO: u8 := 0x7F
  const PROTOCOL_VERSION: u8 := 1
  const HEADER_SIZE: nat := 5
  const MAXIMUM_PAYLOAD: nat := 65536

  datatype Frame = Frame(channel: u8, payload: seq<u8>)

  datatype Error = UnknownChannel | PayloadTooLarge | HelloMissing | HelloRepeated | HelloLength | UnsupportedVersion

  datatype Outcome<T> = Success(value: T) | Failure(error: Error)

  predicate KnownChannel(channel: u8) { channel == COMMAND || channel == DATA || channel == HELLO }

  /** Base-256 digits, most significant first. */
  function BigEndian(n: nat, width: nat): (bytes: seq<u8>)
    ensures |bytes| == width
  {
    if width == 0 then [] else BigEndian(n / 0x100, width - 1) + [n % 0x100]
  }

  function Load(bytes: seq<u8>): nat {
    if bytes == [] then 0 else Load(bytes[..|bytes| - 1]) * 0x100 + bytes[|bytes| - 1]
  }

  function Power256(width: nat): nat { if width == 0 then 1 else 0x100 * Power256(width - 1) }

  lemma {:induction false} LoadInverts(n: nat, width: nat)
    requires n < Power256(width)
    ensures Load(BigEndian(n, width)) == n
  {
    if width > 0 {
      LoadInverts(n / 0x100, width - 1);
      assert BigEndian(n, width)[..width - 1] == BigEndian(n / 0x100, width - 1);
    }
  }

  lemma {:induction false} BigEndianInverts(bytes: seq<u8>)
    ensures BigEndian(Load(bytes), |bytes|) == bytes
  {
    if bytes != [] {
      BigEndianInverts(bytes[..|bytes| - 1]);
      assert Load(bytes) / 0x100 == Load(bytes[..|bytes| - 1]);
    }
  }

  function BigEndian32(n: nat): seq<u8> { BigEndian(n, 4) }

  /** A frame the encoder prints. */
  predicate Encodable(f: Frame) {
    && KnownChannel(f.channel) && |f.payload| <= MAXIMUM_PAYLOAD
    && (f.channel == HELLO ==> f.payload == [PROTOCOL_VERSION])
  }

  function Encode(f: Frame): seq<u8> { [f.channel] + BigEndian32(|f.payload|) + f.payload }

  /** EncodeBridgeFrame. */
  function EncodeFrame(f: Frame): (r: Outcome<seq<u8>>)
    ensures r.Success? <==> Encodable(f)
    ensures r.Success? ==> r.value == Encode(f)
    ensures r == Failure(UnknownChannel) <==> f.channel !in {0x00, 0x01, 0x7F}
    ensures r == Failure(PayloadTooLarge) <==> f.channel in {0x00, 0x01, 0x7F} && |f.payload| > 65536
    ensures r == Failure(HelloLength) <==> f.channel == 0x7F && |f.payload| != 1 && |f.payload| <= 65536
    ensures r == Failure(UnsupportedVersion) <==> f.channel == 0x7F && |f.payload| == 1 && f.payload[0] != 1
  {
    if !KnownChannel(f.channel) then Failure(UnknownChannel)
    else if |f.payload| > MAXIMUM_PAYLOAD then Failure(PayloadTooLarge)
    else if f.channel == HELLO && |f.payload| != 1 then Failure(HelloLength)
    else if f.channel == HELLO && f.payload[0] != PROTOCOL_VERSION then Failure(UnsupportedVersion)
    else Success([f.channel] + BigEndian32(|f.payload|) + f.payload)
  }

  /** Decoder state: the bytes of the frame being received, and whether the hello was seen or a failure. */
  datatype Decoding = Decoding(hello: bool, failure: Option<Error>, partial: seq<u8>)

  const START: Decoding := Decoding(false, None, [])

  function PayloadSize(partial: seq<u8>): nat
    requires |partial| >= HEADER_SIZE
  {
    Load(partial[1..5])
  }

  /** BeginFrame: what is wrong with a complete header. */
  function HeaderError(hello: bool, header: seq<u8>): Option<Error>
    requires |header| >= HEADER_SIZE
  {
    if !KnownChannel(header[0]) then Some(UnknownChannel)
    else if PayloadSize(header) > MAXIMUM_PAYLOAD then Some(PayloadTooLarge)
    else if !hello && header[0] != HELLO then Some(HelloMissing)
    else if hello && header[0] == HELLO then Some(HelloRepeated)
    else if header[0] == HELLO && PayloadSize(header) != 1 then Some(HelloLength)
    else None
  }

  datatype Progress = Progress(state: Decoding, frames: seq<Frame>)

  function Fail(d: Decoding, e: Error): Progress { Progress(Decoding(d.hello, Some(e), []), []) }

  /** FinishFrame. */
  function Finish(d: Decoding, whole: seq<u8>): Progress
    requires |whole| >= HEADER_SIZE
  {
    if whole[0] == HELLO && (|whole| == HEADER_SIZE || whole[5] != PROTOCOL_VERSION) then Fail(d, UnsupportedVersion)
    else Progress(Decoding(d.hello || whole[0] == HELLO, None, []), [Frame(whole[0], whole[5..])])
  }

  function Step(d: Decoding, b: u8): Progress {
    if d.failure.Some? then Progress(d, [])
    else
      var more := d.partial + [b];
      if |more| < HEADER_SIZE then Progress(d.(partial := more), [])
      else if |more| == HEADER_SIZE && HeaderError(d.hello, more).Some? then Fail(d, HeaderError(d.hello, more).value)
      else if |more| >= HEADER_SIZE + PayloadSize(more) then Finish(d, more)
      else Progress(d.(partial := more), [])
  }

  /** A step function applied to each byte in turn, collecting what it delivers. */
  function Fold(step: (Decoding, u8) -> Progress, d: Decoding, bytes: seq<u8>): Progress {
    if bytes == [] then Progress(d, [])
    else
      var before := Fold(step, d, bytes[..|bytes| - 1]);
      var last := step(before.state, bytes[|bytes| - 1]);
      Progress(last.state, before.frames + last.frames)
  }

  function Steps(d: Decoding, bytes: seq<u8>): Progress { Fold(Step, d, bytes) }

  lemma {:induction false} FoldConcat(step: (Decoding, u8) -> Progress, d: Decoding, xs: seq<u8>, ys: seq<u8>)
    ensures var p := Fold(step, d, xs);
            var q := Fold(step, p.state, ys);
            Fold(step, d, xs + ys) == Progress(q.state, p.frames + q.frames)
    decreases |ys|
  {
    if ys == [] {
      assert xs + ys == xs;
      assert Fold(step, d, xs).frames + [] == Fold(step, d, xs).frames;
    } else {
      FoldConcat(step, d, xs, ys[..|ys| - 1]);
      assert (xs + ys)[..|xs + ys| - 1] == xs + ys[..|ys| - 1];
    }
  }

  /** Cutting the bytes anywhere makes no difference. */
  lemma StepsConcat(d: Decoding, xs: seq<u8>, ys: seq<u8>)
    ensures Steps(d, xs + ys).state == Steps(Steps(d, xs).state, ys).state
    ensures Steps(d, xs + ys).frames == Steps(d, xs).frames + Steps(Steps(d, xs).state, ys).frames
  {
    FoldConcat(Step, d, xs, ys);
  }

  /** A failure is permanent, and nothing is delivered after it. */
  lemma {:induction false} FailurePermanent(d: Decoding, bytes: seq<u8>)
    requires d.failure.Some?
    ensures Steps(d, bytes) == Progress(d, [])
  {
    if bytes != [] { FailurePermanent(d, bytes[..|bytes| - 1]); }
  }

  /** The bytes received so far are an acceptable beginning of a frame. */
  predicate Partial(d: Decoding) {
    d.failure.None? && |d.partial| >= HEADER_SIZE ==>
      HeaderError(d.hello, d.partial).None? && |d.partial| < HEADER_SIZE + PayloadSize(d.partial)
  }

  /** Bytes that complete neither the header nor the payload just accumulate. */
  lemma {:induction false} StepsAccumulate(d: Decoding, bytes: seq<u8>)
    requires d.failure.None? && Partial(d)
    requires if |d.partial| < HEADER_SIZE then |d.partial| + |bytes| < HEADER_SIZE
             else |d.partial| + |bytes| < HEADER_SIZE + PayloadSize(d.partial)
    ensures Steps(d, bytes) == Progress(d.(partial := d.partial + bytes), [])
  {
    if bytes != [] {
      var front := bytes[..|bytes| - 1];
      StepsAccumulate(d, front);
      assert d.partial + front + [bytes[|bytes| - 1]] == d.partial + bytes;
      if |d.partial| >= HEADER_SIZE { assert (d.partial + bytes)[1..5] == d.partial[1..5]; }
    } else {
      assert d.partial + bytes == d.partial;
    }
  }

  /** A frame the decoder takes in a state with or without a hello. */
  predicate Expected(hello: bool, f: Frame) { Encodable(f) && (f.channel == HELLO <==> !hello) }

  lemma EncodeShape(f: Frame)
    requires |f.payload| <= MAXIMUM_PAYLOAD
    ensures |Encode(f)| == HEADER_SIZE + |f.payload| && Encode(f)[0] == f.channel && Encode(f)[5..] == f.payload
    ensures PayloadSize(Encode(f)[..5]) == |f.payload| == PayloadSize(Encode(f))
  {
    assert Power256(4) == 0x1_0000_0000 by { assert Power256(2) == 0x1_0000; }
    LoadInverts(|f.payload|, 4);
    assert Encode(f)[1..5] == BigEndian32(|f.payload|);
    assert Encode(f)[..5][1..5] == BigEndian32(|f.payload|);
  }

  /** What completing the header does. */
  function Begin(d: Decoding, h: seq<u8>): Progress
    requires |h| == HEADER_SIZE
  {
    match HeaderError(d.hello, h)
    case Some(e) => Fail(d, e)
    case None => if PayloadSize(h) == 0 then Finish(d, h) else Progress(d.(partial := h), [])
  }

  /** All but the last byte accumulate. */
  lemma LastByte(d: Decoding, bytes: seq<u8>)
    requires bytes != [] && d.failure.None? && Partial(d)
    requires if |d.partial| < HEADER_SIZE then |d.partial| + |bytes| <= HEADER_SIZE
             else |d.partial| + |bytes| <= HEADER_SIZE + PayloadSize(d.partial)
    ensures Steps(d, bytes) == Step(d.(partial := d.partial + bytes[..|bytes| - 1]), bytes[|bytes| - 1])
  {
    var n := |bytes| - 1;
    StepsAccumulate(d, bytes[..n]);
    var last := Step(d.(partial := d.partial + bytes[..n]), bytes[n]);
    assert [] + last.frames == last.frames;
  }

  lemma LastApart(xs: seq<u8>, ys: seq<u8>)
    requires ys != []
    ensures xs + ys[..|ys| - 1] + [ys[|ys| - 1]] == xs + ys
  {
  }

  lemma LastHeaderByte(d: Decoding, b: u8, h: seq<u8>)
    requires d.failure.None? && h == d.partial + [b] && |h| == HEADER_SIZE
    ensures Step(d, b) == Begin(d, h)
  {
  }

  lemma LastPayloadByte(d: Decoding, b: u8, whole: seq<u8>)
    requires d.failure.None? && whole == d.partial + [b] && |whole| > HEADER_SIZE
    requires |whole| == HEADER_SIZE + PayloadSize(whole)
    ensures Step(d, b) == Finish(d, whole)
  {
  }

  /** Bytes that complete the header, however they were cut before. */
  lemma HeaderCompletes(d: Decoding, bytes: seq<u8>)
    requires d.failure.None? && |d.partial| < HEADER_SIZE && |d.partial| + |bytes| == HEADER_SIZE
    ensures Steps(d, bytes) == Begin(d, d.partial + bytes)
  {
    var n := |bytes| - 1;
    LastByte(d, bytes);
    LastApart(d.partial, bytes);
    LastHeaderByte(d.(partial := d.partial + bytes[..n]), bytes[n], d.partial + bytes);
  }

  /** Bytes that complete the payload. */
  lemma PayloadCompletes(d: Decoding, bytes: seq<u8>)
    requires d.failure.None? && Partial(d) && |d.partial| >= HEADER_SIZE
    requires |d.partial| + |bytes| == HEADER_SIZE + PayloadSize(d.partial)
    ensures Steps(d, bytes) == Finish(d, d.partial + bytes)
  {
    var n, whole := |bytes| - 1, d.partial + bytes;
    SizeStable(d.partial, bytes);
    LastByte(d, bytes);
    var almost := d.(partial := d.partial + bytes[..n]);
    LastApart(d.partial, bytes);
    LastPayloadByte(almost, bytes[n], whole);
    assert Finish(almost, whole) == Finish(d, whole);
  }

  lemma SizeStable(partial: seq<u8>, more: seq<u8>)
    requires |partial| >= HEADER_SIZE
    ensures PayloadSize(partial + more) == PayloadSize(partial)
  {
    assert (partial + more)[1..5] == partial[1..5];
  }

  /** The steps of a longer prefix, from those of a shorter one. */
  lemma LongerPrefix(d: Decoding, data: seq<u8>, i: nat, j: nat)
    requires i <= j <= |data|
    ensures var p := Steps(d, data[..i]);
            var q := Steps(p.state, data[i..j]);
            Steps(d, data[..j]) == Progress(q.state, p.frames + q.frames)
  {
    assert data[..i] + data[i..j] == data[..j];
    StepsConcat(d, data[..i], data[i..j]);
  }

  lemma HeaderGood(hello: bool, f: Frame)
    requires Expected(hello, f)
    ensures HeaderError(hello, Encode(f)[..5]).None? && PayloadSize(Encode(f)[..5]) == |f.payload|
  {
    EncodeShape(f);
  }

  /** From a frame boundary, the encoding of an expected frame is decoded to that frame. */
  lemma FrameRoundTrip(d: Decoding, f: Frame)
    requires d.failure.None? && d.partial == [] && Expected(d.hello, f)
    ensures Steps(d, Encode(f)) == Progress(Decoding(true, None, []), [f])
  {
    var e := Encode(f);
    EncodeShape(f);
    HeaderGood(d.hello, f);
    HeaderCompletes(d, e[..5]);
    assert [] + e[..5] == e[..5];
    if f.payload == [] {
      assert e[..5] == e;
    } else {
      PayloadCompletes(d.(partial := e[..5]), f.payload);
      assert e == e[..5] + f.payload;
      StepsConcat(d, e[..5], f.payload);
    }
  }

  function EncodeAll(frames: seq<Frame>): seq<u8> {
    if frames == [] then [] else EncodeAll(frames[..|frames| - 1]) + Encode(frames[|frames| - 1])
  }

  /** One hello, then command and data frames. */
  predicate Conversation(frames: seq<Frame>) {
    frames != [] ==>
      Conversation(frames[..|frames| - 1]) && Expected(|frames| > 1, frames[|frames| - 1])
  }

  lemma ConversationOn(frames: seq<Frame>, f: Frame)
    ensures Conversation(frames + [f]) <==> Conversation(frames) && Expected(frames != [], f)
    ensures EncodeAll(frames + [f]) == EncodeAll(frames) + Encode(f)
  {
  }

  /** Every conversation is decoded to exactly its frames. */
  lemma {:induction false} ConversationRoundTrip(frames: seq<Frame>)
    requires Conversation(frames)
    ensures Steps(START, EncodeAll(frames)) == Progress(Decoding(frames != [], None, []), frames)
  {
    if frames != [] {
      var front, last := frames[..|frames| - 1], frames[|frames| - 1];
      ConversationRoundTrip(front);
      OneMoreFrame(EncodeAll(front), front, last);
      assert front + [last] == frames;
    }
  }

  lemma OneMoreFrame(bytes: seq<u8>, frames: seq<Frame>, f: Frame)
    requires Expected(frames != [], f) && Steps(START, bytes) == Progress(Decoding(frames != [], None, []), frames)
    ensures Steps(START, bytes + Encode(f)) == Progress(Decoding(true, None, []), frames + [f])
  {
    FrameRoundTrip(Decoding(frames != [], None, []), f);
    StepsConcat(START, bytes, Encode(f));
  }

  /** A frame completed by the decoder is the decoding of its own encoding. */
  lemma FinishEncodes(d: Decoding, whole: seq<u8>)
    requires |whole| >= HEADER_SIZE && HeaderError(d.hello, whole).None? && |whole| == HEADER_SIZE + PayloadSize(whole)
    requires Finish(d, whole).state.failure.None?
    ensures var f := Finish(d, whole).frames[0];
            Expected(d.hello, f) && Encode(f) == whole && Finish(d, whole).frames == [f] && Finish(d, whole).state.hello
  {
    var f := Finish(d, whole).frames[0];
    BigEndianInverts(whole[1..5]);
    assert f.channel == HELLO ==> f.payload == [whole[5]];
    assert whole == [whole[0]] + whole[1..5] + whole[5..];
  }

  /** Bytes, frames delivered and current state agree. */
  predicate Accounts(bytes: seq<u8>, frames: seq<Frame>, d: Decoding) {
    && Conversation(frames) && d.hello == (frames != []) && Partial(d)
    && bytes == EncodeAll(frames) + d.partial
  }

  lemma FinishAccounts(bytes: seq<u8>, frames: seq<Frame>, d: Decoding, whole: seq<u8>)
    requires Conversation(frames) && d.hello == (frames != []) && bytes == EncodeAll(frames) + whole
    requires |whole| >= HEADER_SIZE && HeaderError(d.hello, whole).None? && |whole| == HEADER_SIZE + PayloadSize(whole)
    requires Finish(d, whole).state.failure.None?
    ensures Accounts(bytes, frames + Finish(d, whole).frames, Finish(d, whole).state)
  {
    FinishEncodes(d, whole);
    ConversationOn(frames, Finish(d, whole).frames[0]);
  }

  lemma StepAccounts(bytes: seq<u8>, frames: seq<Frame>, d: Decoding, b: u8)
    requires d.failure.None? && Accounts(bytes, frames, d) && Step(d, b).state.failure.None?
    ensures Accounts(bytes + [b], frames + Step(d, b).frames, Step(d, b).state)
  {
    var more := d.partial + [b];
    assert bytes + [b] == EncodeAll(frames) + more;
    if |more| > HEADER_SIZE { assert more[1..5] == d.partial[1..5]; }
    if |more| >= HEADER_SIZE && |more| >= HEADER_SIZE + PayloadSize(more) {
      FinishAccounts(bytes + [b], frames, d, more);
    } else {
      assert frames + [] == frames;
    }
  }

  /** While nothing has failed, the bytes received are the encodings of the frames delivered, followed by
      the beginning of one more; and the frames form a conversation. */
  lemma {:induction false} AcceptedIsEncoded(bytes: seq<u8>)
    requires Steps(START, bytes).state.failure.None?
    ensures Accounts(bytes, Steps(START, bytes).frames, Steps(START, bytes).state)
  {
    if bytes != [] {
      var front, b := bytes[..|bytes| - 1], bytes[|bytes| - 1];
      var before := Steps(START, front);
      AcceptedIsEncoded(front);
      StepAccounts(front, before.frames, before.state, b);
      assert front + [b] == bytes;
    }
  }

  /** What each header error is about. */
  predicate Defect(e: Error, hello: bool, channel: u8, size: nat) {
    match e
    case UnknownChannel => channel !in {0x00, 0x01, 0x7F}
    case PayloadTooLarge => size > 65536
    case HelloMissing => !hello && channel != 0x7F
    case HelloRepeated => hello && channel == 0x7F
    case HelloLength => channel == 0x7F && size != 1
    case UnsupportedVersion => false
  }

  const HEADER_ERRORS: seq<Error> := [UnknownChannel, PayloadTooLarge, HelloMissing, HelloRepeated, HelloLength]

  /** The error that is reported for a header is the first defect it has. */
  lemma FirstDefect(hello: bool, header: seq<u8>, k: nat)
    requires |header| == HEADER_SIZE && k < |HEADER_ERRORS|
    ensures HeaderError(hello, header) == Some(HEADER_ERRORS[k]) <==>
            && Defect(HEADER_ERRORS[k], hello, header[0], Load(header[1..]))
            && forall j | 0 <= j < k :: !Defect(HEADER_ERRORS[j], hello, header[0], Load(header[1..]))
    ensures HeaderError(hello, header).None? <==>
            forall j | 0 <= j < |HEADER_ERRORS| :: !Defect(HEADER_ERRORS[j], hello, header[0], Load(header[1..]))
  {
    assert header[1..] == header[1..5];
    var es := HEADER_ERRORS;
    assert es[0] == UnknownChannel && es[1] == PayloadTooLarge && es[2] == HelloMissing && es[3] == HelloRepeated && es[4] == HelloLength;
  }

  /** A defective header after a conversation fails there, with its error, whatever follows. */
  lemma RejectedThere(frames: seq<Frame>, header: seq<u8>, more: seq<u8>)
    requires Conversation(frames) && |header| == HEADER_SIZE && HeaderError(frames != [], header).Some?
    ensures Steps(START, EncodeAll(frames) + (header + more))
         == Progress(Decoding(frames != [], HeaderError(frames != [], header), []), frames)
  {
    var d := Decoding(frames != [], None, []);
    ConversationRoundTrip(frames);
    StepsConcat(START, EncodeAll(frames), header + more);
    StepsConcat(d, header, more);
    HeaderCompletes(d, header);
    assert d.partial + header == header;
    FailurePermanent(Steps(d, header).state, more);
    assert frames + [] == frames;
  }

  /** The only hello with another version fails at its version byte. */
  lemma OtherVersionRejected(version: u8, more: seq<u8>)
    requires version != PROTOCOL_VERSION
    ensures Steps(START, [HELLO, 0, 0, 0, 1, version] + more) == Progress(Decoding(false, Some(UnsupportedVersion), []), [])
  {
    var header := [HELLO, 0, 0, 0, 1];
    assert header[1..5] == [0, 0, 0, 1] && Load([0, 0, 0, 1]) == 1 by { LoadOne(); }
    HeaderCompletes(START, header);
    assert [] + header == header && START.partial + header == header;
    StepsConcat(START, header, [version]);
    PayloadCompletes(START.(partial := header), [version]);
    assert header + [version] == [HELLO, 0, 0, 0, 1, version];
    StepsConcat(START, [HELLO, 0, 0, 0, 1, version], more);
    FailurePermanent(Decoding(false, Some(UnsupportedVersion), []), more);
  }

  lemma LoadOne()
    ensures Load([0, 0, 0, 1]) == 1
  {
    assert [0, 0, 0, 1][..3] == [0, 0, 0] && [0, 0, 0][..2] == [0, 0] && [0, 0][..1] == [0] && [0][..0] == [];
  }

  /** A stream is accepted up to a frame boundary exactly when it is the encoding of a conversation. */
  lemma AcceptedExactly(bytes: seq<u8>)
    ensures (exists frames :: Conversation(frames) && bytes == EncodeAll(frames)) <==>
            Steps(START, bytes).state.failure.None? && Steps(START, bytes).state.partial == []
  {
    var p := Steps(START, bytes);
    if p.state.failure.None? && p.state.partial == [] {
      AcceptedIsEncoded(bytes);
      assert EncodeAll(p.frames) + [] == EncodeAll(p.frames);
    }
    if frames :| Conversation(frames) && bytes == EncodeAll(frames) { ConversationRoundTrip(frames); }
  }
}

/** The resumable decoder. */
module BridgeDecoder {
  import opened Words
  import opened BridgeFraming

  class BridgeFrameDecoder {
    var header: seq<u8>
    var channel: u8
    var payloadSize: nat
    var payload: seq<u8>
    var helloReceived: bool
    var failure: Option<Error>

    ghost function View(): Decoding
      reads this
    {
      Decoding(helloReceived, failure, if failure.Some? then [] else header + payload)
    }

    ghost predicate Valid()
      reads this
    {
      failure.None? ==>
        && |header| <= HEADER_SIZE
        && (|header| < HEADER_SIZE ==> payload == [])
        && (|header| == HEADER_SIZE ==>
              HeaderError(helloReceived, header).None? && InFrame() && |payload| < payloadSize)
    }

    /** The header is complete and its fields are loaded. */
    ghost predicate InFrame()
      reads this
    {
      |header| == HEADER_SIZE && channel == header[0] && payloadSize == PayloadSize(header)
    }

    constructor ()
      ensures Valid() && View() == START
    {
      header, channel, payloadSize, payload := [], COMMAND, 0, [];
      helloReceived, failure := false, None;
    }

    method BeginFrame() returns (ok: bool)
      requires |header| == HEADER_SIZE && failure.None? && payload == []
      modifies this
      ensures header == old(header) && helloReceived == old(helloReceived)
      ensures failure == HeaderError(helloReceived, header) && ok == failure.None?
      ensures ok ==> InFrame() && payload == []
    {
      channel := header[0];
      if !KnownChannel(channel) {
        failure := Some(UnknownChannel);
        return false;
      }
      payloadSize := Load(header[1..5]);
      if payloadSize > MAXIMUM_PAYLOAD {
        failure := Some(PayloadTooLarge);
        return false;
      }
      if !helloReceived && channel != HELLO {
        failure := Some(HelloMissing);
        return false;
      }
      if helloReceived && channel == HELLO {
        failure := Some(HelloRepeated);
        return false;
      }
      if channel == HELLO && payloadSize != 1 {
        failure := Some(HelloLength);
        return false;
      }
      payload := [];
      ok := true;
    }

    method FinishFrame(frames: seq<Frame>) returns (ok: bool, more: seq<Frame>)
      requires failure.None? && InFrame() && |payload| == payloadSize && HeaderError(helloReceived, header).None?
      modifies this
      ensures Valid() && ok == failure.None?
      ensures var p := Finish(old(View()), old(header + payload)); View() == p.state && more == frames + p.frames
    {
      more := frames;
      if channel == HELLO && payload[0] != PROTOCOL_VERSION {
        failure := Some(UnsupportedVersion);
        return false, more;
      }
      assert (header + payload)[5..] == payload;
      more := more + [Frame(channel, payload)];
      if channel == HELLO { helloReceived := true; }
      header, payloadSize, payload := [], 0, [];
      ok := true;
    }

    /** Header bytes from one call, up to the end of the header; a frame without payload ends with it. */
    method TakeHeader(bytes: seq<u8>, frames: seq<Frame>) returns (ok: bool, more: seq<Frame>)
      requires Valid() && failure.None? && |header| < HEADER_SIZE && |header| + |bytes| <= HEADER_SIZE
      modifies this
      ensures Valid() && ok == failure.None?
      ensures var p := Steps(old(View()), bytes); View() == p.state && more == frames + p.frames
    {
      more := frames;
      ghost var before := View();
      header := header + bytes;
      assert header + [] == header && old(header) + [] == old(header);
      if |header| < HEADER_SIZE {
        StepsAccumulate(before, bytes);
        return true, more;
      }
      HeaderCompletes(before, bytes);
      ok := BeginFrame();
      if ok && payloadSize == 0 { ok, more := FinishFrame(more); }
    }

    /** Payload bytes from one call, up to the end of the payload. */
    method TakePayload(bytes: seq<u8>, frames: seq<Frame>) returns (ok: bool, more: seq<Frame>)
      requires Valid() && failure.None? && |header| == HEADER_SIZE && |payload| + |bytes| <= payloadSize
      modifies this
      ensures Valid() && ok == failure.None?
      ensures var p := Steps(old(View()), bytes); View() == p.state && more == frames + p.frames
    {
      more := frames;
      ghost var before := View();
      assert before.partial[1..5] == header[1..5];
      payload := payload + bytes;
      assert header + payload == before.partial + bytes;
      if |payload| < payloadSize {
        StepsAccumulate(before, bytes);
        return true, more;
      }
      PayloadCompletes(before, bytes);
      ok, more := FinishFrame(more);
    }

    /** As much of the data as belongs to the current header or payload. */
    method TakeSome(data: seq<u8>, offset: nat, frames: seq<Frame>) returns (next: nat, ok: bool, more: seq<Frame>)
      requires Valid() && failure.None? && offset < |data|
      modifies this
      ensures Valid() && ok == failure.None? && offset < next <= |data|
      ensures var p := Steps(old(View()), data[offset..next]); View() == p.state && more == frames + p.frames
    {
      var room := if |header| < HEADER_SIZE then HEADER_SIZE - |header| else payloadSize - |payload|;
      next := offset + if room < |data| - offset then room else |data| - offset;
      if |header| < HEADER_SIZE {
        ok, more := TakeHeader(data[offset..next], frames);
      } else {
        ok, more := TakePayload(data[offset..next], frames);
      }
    }

    /** Consume: the same frames and the same state as one byte at a time. */
    method Consume(data: seq<u8>) returns (success: bool, frames: seq<Frame>)
      requires Valid()
      modifies this
      ensures Valid() && success == failure.None?
      ensures Steps(old(View()), data) == Progress(View(), frames)
    {
      frames := [];
      if failure.Some? {
        FailurePermanent(View(), data);
        return false, [];
      }
      var offset := 0;
      while offset < |data|
        invariant 0 <= offset <= |data| && Valid() && failure.None?
        invariant Steps(old(View()), data[..offset]) == Progress(View(), frames)
        decreases |data| - offset
      {
        ghost var before := offset;
        offset, success, frames := TakeSome(data, offset, frames);
        LongerPrefix(old(View()), data, before, offset);
        if !success {
          FailurePermanent(View(), data[offset..|data|]);
          LongerPrefix(old(View()), data, offset, |data|);
          assert data[..|data|] == data && frames + [] == frames;
          return;
        }
      }
      assert data[..offset] == data;
      success := true;
    }
  }

  /** A fresh decoder fed chunk by chunk: every conversation comes out frame for frame, however it is cut. */
  method DecodeChunks(chunks: seq<seq<u8>>) returns (success: bool, frames: seq<Frame>)
    ensures frames == Steps(START, Concat(chunks)).frames && success == Steps(START, Concat(chunks)).state.failure.None?
    ensures forall sent | Conversation(sent) && EncodeAll(sent) == Concat(chunks) :: success && frames == sent
  {
    var decoder := new BridgeFrameDecoder();
    success, frames := true, [];
    for i := 0 to |chunks|
      invariant decoder.Valid() && fresh(decoder) && success == decoder.failure.None?
      invariant Steps(START, Concat(chunks[..i])) == Progress(decoder.View(), frames)
    {
      assert chunks[..i + 1][..i] == chunks[..i];
      StepsConcat(START, Concat(chunks[..i]), chunks[i]);
      var more;
      success, more := decoder.Consume(chunks[i]);
      frames := frames + more;
    }
    assert chunks[..|chunks|] == chunks;
    forall sent | Conversation(sent) && EncodeAll(sent) == Concat(chunks) ensures success && frames == sent {
      ConversationRoundTrip(sent);
    }
  }
}
