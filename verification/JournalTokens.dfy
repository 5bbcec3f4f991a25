/** Reading and printing journal text as whitespace-separated tokens. */
module JournalTokens {
  import opened Words
  import opened Numerals

  const MAGIC: string := "MWW_TUNER_RECOVERY"
  const U16: nat := 0xFFFF
  const U32: nat := 0xFFFF_FFFF
  const U64: nat := 0xFFFF_FFFF_FFFF_FFFF

  /** A value read from the front of a token stream, and the rest of the stream. */
  datatype Read<+T> = Malformed | Got(value: T, rest: seq<string>) {
    predicate IsFailure() { Malformed? }
    function PropagateFailure<U>(): Read<U> requires Malformed? { Malformed }
    function Extract(): (T, seq<string>) requires Got? { (value, rest) }
  }

  /** `input >> token`. */
  function Next(ts: seq<string>): Read<string> { if ts == [] then Malformed else Got(ts[0], ts[1..]) }

  /** ExpectToken. */
  function Expect(ts: seq<string>, word: string): Read<()> {
    if ts == [] || ts[0] != word then Malformed else Got((), ts[1..])
  }

  /** ReadUnsigned into an integer type whose largest value is `limit`. */
  function ReadUnsigned(ts: seq<string>, limit: nat): Read<nat> {
    if ts == [] then Malformed
    else match ParseDecimal(ts[0])
         case None => Malformed
         case Some(n) => if n <= limit then Got(n, ts[1..]) else Malformed
  }

  /** One unsigned value per limit. */
  function ReadNumbers(ts: seq<string>, limits: seq<nat>): (r: Read<seq<nat>>)
    ensures r.Got? ==> Fit(r.value, limits)
  {
    if limits == [] then Got([], ts)
    else
      var (n, more) :- ReadUnsigned(ts, limits[0]);
      var (ns, rest) :- ReadNumbers(more, limits[1..]);
      Got([n] + ns, rest)
  }

  /** A keyword and its numbers. */
  function ReadSection(ts: seq<string>, keyword: string, limits: seq<nat>): (r: Read<seq<nat>>)
    ensures r.Got? ==> Fit(r.value, limits)
  {
    var (_, more) :- Expect(ts, keyword);
    ReadNumbers(more, limits)
  }

  function Numbers(ns: seq<nat>): seq<string> { if ns == [] then [] else [Decimal(ns[0])] + Numbers(ns[1..]) }

  function Section(keyword: string, ns: seq<nat>): seq<string> { [keyword] + Numbers(ns) }

  predicate Fit(ns: seq<nat>, limits: seq<nat>) { |ns| == |limits| && forall i | 0 <= i < |ns| :: ns[i] <= limits[i] }

  lemma {:induction false} NumbersRoundTrip(ns: seq<nat>, limits: seq<nat>, rest: seq<string>)
    requires Fit(ns, limits)
    ensures ReadNumbers(Numbers(ns) + rest, limits) == Got(ns, rest)
  {
    if ns == [] {
      assert Numbers(ns) + rest == rest;
    } else {
      NumbersRoundTrip(ns[1..], limits[1..], rest);
      NumbersApart(ns, rest);
      OneMoreNumber(ns[0], Numbers(ns[1..]) + rest, ns[1..], limits, rest);
      assert [ns[0]] + ns[1..] == ns;
    }
  }

  lemma NumbersApart(ns: seq<nat>, rest: seq<string>)
    requires ns != []
    ensures Numbers(ns) + rest == [Decimal(ns[0])] + (Numbers(ns[1..]) + rest)
  {
  }

  lemma OneMoreNumber(n: nat, more: seq<string>, ns: seq<nat>, limits: seq<nat>, rest: seq<string>)
    requires limits != [] && n <= limits[0] && ReadNumbers(more, limits[1..]) == Got(ns, rest)
    ensures ReadNumbers([Decimal(n)] + more, limits) == Got([n] + ns, rest)
  {
    FirstNumber(n, limits[0], more);
  }

  lemma FirstNumber(n: nat, limit: nat, rest: seq<string>)
    requires n <= limit
    ensures ReadUnsigned([Decimal(n)] + rest, limit) == Got(n, rest)
  {
  }

  lemma SectionRoundTrip(keyword: string, ns: seq<nat>, limits: seq<nat>, rest: seq<string>)
    requires Fit(ns, limits)
    ensures ReadSection(Section(keyword, ns) + rest, keyword, limits) == Got(ns, rest)
  {
    NumbersRoundTrip(ns, limits, rest);
    assert (Section(keyword, ns) + rest)[1..] == Numbers(ns) + rest;
  }

  function Repeat(limit: nat, count: nat): seq<nat> { seq(count, _ => limit) }

  /** Numbers that fit thirty-two bits, as such. */
  function Narrow(ns: seq<nat>): (r: seq<u32>)
    requires Fit(ns, Repeat(U32, |ns|))
    ensures r == ns
  {
    assert forall i | 0 <= i < |ns| :: ns[i] <= Repeat(U32, |ns|)[i];
    seq(|ns|, i requires 0 <= i < |ns| => ns[i])
  }

  function Bit(b: bool): nat { if b then 1 else 0 }

  /** Two spellings of one token: the same characters, or two numerals of one number. */
  predicate SameToken(a: string, b: string) { a == b || (ParseDecimal(a).Some? && ParseDecimal(a) == ParseDecimal(b)) }

  predicate Alike(ts: seq<string>, us: seq<string>) { |ts| == |us| && forall i | 0 <= i < |ts| :: SameToken(ts[i], us[i]) }

  lemma AlikeFirst(t: string, ts: seq<string>, u: string, us: seq<string>)
    requires SameToken(t, u) && Alike(ts, us)
    ensures Alike([t] + ts, [u] + us)
  {
  }

  /** What was read as a token is spelled so, whatever follows. */
  lemma NextInverts(ts: seq<string>, after: seq<string>)
    requires Next(ts).Got? && Alike(Next(ts).rest, after)
    ensures Alike(ts, [Next(ts).value] + after)
  {
    AlikeFirst(ts[0], ts[1..], ts[0], after);
  }

  lemma ExpectInverts(ts: seq<string>, word: string, after: seq<string>)
    requires Expect(ts, word).Got? && Alike(Expect(ts, word).rest, after)
    ensures Alike(ts, [word] + after)
  {
    AlikeFirst(ts[0], ts[1..], word, after);
  }

  /** What was read as numbers spells these numbers. */
  lemma {:induction false} NumbersInvert(ts: seq<string>, limits: seq<nat>, after: seq<string>)
    requires ReadNumbers(ts, limits).Got? && Alike(ReadNumbers(ts, limits).rest, after)
    ensures Alike(ts, Numbers(ReadNumbers(ts, limits).value) + after)
  {
    var ns := ReadNumbers(ts, limits).value;
    if limits == [] {
      assert Numbers(ns) + after == after;
    } else {
      NumbersInvert(ts[1..], limits[1..], after);
      DecimalRoundTrip(ns[0]);
      AlikeFirst(ts[0], ts[1..], Decimal(ns[0]), Numbers(ns[1..]) + after);
      NumbersApart(ns, after);
    }
  }

  lemma SectionInverts(ts: seq<string>, keyword: string, limits: seq<nat>, after: seq<string>)
    requires ReadSection(ts, keyword, limits).Got? && Alike(ReadSection(ts, keyword, limits).rest, after)
    ensures Alike(ts, Section(keyword, ReadSection(ts, keyword, limits).value) + after)
  {
    var ns := ReadSection(ts, keyword, limits).value;
    NumbersInvert(ts[1..], limits, after);
    ExpectInverts(ts, keyword, Numbers(ns) + after);
    assert Section(keyword, ns) + after == [keyword] + (Numbers(ns) + after);
  }
}

/** Versions 1 to 4 of the recovery journal. */
module JournalText {
  import opened Words
  import opened RecoveryRecord
  import opened JournalTokens

  /** What the checksum of a record is computed from: its host and its numbers, as far as its format
      version stores them. */
  datatype Hashed = Hashed(host: string, numbers: seq<nat>)

  function SourceNumbers(r: Record): seq<nat> {
    if r.formatVersion < 3 then []
    else [Bit(r.sourceRestoreRequired), r.sourceQuad, r.sourceOriginal] + if r.formatVersion >= 4 then [r.sourceApplied] else []
  }

  function Summary(r: Record): Hashed {
    Hashed(r.host,
      [r.formatVersion, r.phase, r.commandPort, r.mvlcHardwareId, r.mvlcFirmwareRevision]
      + [r.mdppBaseAddress, r.mdppHardwareId, r.mdppIrqLevel, r.mdppOutputFormat]
      + StackNumbers(r)
      + (if r.formatVersion >= 2 then [|r.isolated|] + r.isolated else [])
      + SourceNumbers(r)
      + [Bit(r.previewRestoreRequired), r.previewQuad, r.previewRegister, r.previewOriginal, r.previewApplied])
  }

  function StackNumbers(r: Record): seq<nat> {
    [r.stackTriggerRegister, r.stackTriggerValue, r.stackOffsetRegister, r.stackOffsetValue,
     r.ownershipTokenRegister, r.ownershipTokenValue]
  }

  function StateNumbers(r: Record): seq<nat> {
    [r.phase, Bit(r.previewRestoreRequired), r.previewQuad, r.previewRegister, r.previewOriginal, r.previewApplied]
  }

  /** WriteRecord, from the last section to the first. */
  function PrintEnd(checksum: nat): seq<string> { Section("CHECKSUM", [checksum]) + ["END"] }

  function PrintState(r: Record, checksum: nat): seq<string> { Section("STATE", StateNumbers(r)) + PrintEnd(checksum) }

  function PrintSource(r: Record, checksum: nat): seq<string> {
    if r.formatVersion < 3 then PrintState(r, checksum) else Section("SOURCE", SourceNumbers(r)) + PrintState(r, checksum)
  }

  function PrintStack(r: Record, checksum: nat): seq<string> { Section("STACK", StackNumbers(r)) + PrintSource(r, checksum) }

  function PrintIsolated(r: Record, checksum: nat): seq<string> {
    if r.formatVersion < 2 then PrintStack(r, checksum)
    else Section("ISOLATED", [|r.isolated|]) + (Numbers(r.isolated) + PrintStack(r, checksum))
  }

  function PrintMdpp(r: Record, checksum: nat): seq<string> {
    Section("MDPP", [r.mdppBaseAddress, r.mdppHardwareId, r.mdppIrqLevel, r.mdppOutputFormat]) + PrintIsolated(r, checksum)
  }

  function PrintMvlc(r: Record, checksum: nat): seq<string> {
    Section("MVLC", [r.mvlcHardwareId, r.mvlcFirmwareRevision]) + PrintMdpp(r, checksum)
  }

  function PrintEndpoint(host: string, port: u16, rest: seq<string>): seq<string> {
    ["ENDPOINT"] + ([host] + (Numbers([port]) + rest))
  }

  function Print(r: Record, checksum: nat): seq<string> {
    Section(MAGIC, [r.formatVersion]) + PrintEndpoint(r.host, r.commandPort, PrintMvlc(r, checksum))
  }

  /** SerializeTunerRecoveryJournal for versions 1 to 4. */
  function Serialize(r: Record, checksum: Hashed -> nat): Option<seq<string>> {
    if ValidRecord(r) then Some(Print(r, checksum(Summary(r)))) else None
  }

  function ParseIsolated(ts: seq<string>, version: nat): (r: Read<seq<nat>>)
    ensures r.Got? ==> Fit(r.value, Repeat(U32, |r.value|))
  {
    if version < 2 then Got([], ts)
    else
      var (count, more) :- ReadSection(ts, "ISOLATED", [U16]);
      if count[0] > 15 then Malformed else ReadNumbers(more, Repeat(U32, count[0]))
  }

  function SourceLimits(version: nat): seq<nat> { if version >= 4 then [U16, U16, U16, U16] else [U16, U16, U16] }

  /** Required, quad, original, applied; zero where the version stores less. */
  function ParseSource(ts: seq<string>, version: nat): (r: Read<seq<nat>>)
    ensures r.Got? ==> Fit(r.value, [U16, U16, U16, U16])
  {
    if version < 3 then Got([0, 0, 0, 0], ts)
    else
      var (ns, rest) :- ReadSection(ts, "SOURCE", SourceLimits(version));
      Got(if version >= 4 then ns else ns + [0], rest)
  }

  function ParseEnd(ts: seq<string>): Read<nat> {
    var (checksum, more) :- ReadSection(ts, "CHECKSUM", [U64]);
    var (_, rest) :- Expect(more, "END");
    if rest != [] then Malformed else Got(checksum[0], rest)
  }

  function ParseEndpoint(ts: seq<string>): Read<(string, u16)> {
    var (_, t1) :- Expect(ts, "ENDPOINT");
    var (host, t2) :- Next(t1);
    var (port, t3) :- ReadNumbers(t2, [U16]);
    Got((host, port[0]), t3)
  }

  datatype Head = Head(version: u32, host: string, port: u16, mvlc: seq<nat>, mdpp: seq<nat>)

  const MVLC_LIMITS: seq<nat> := [U32, U32]
  const MDPP_LIMITS: seq<nat> := [U32, U16, U16, U16]
  const STACK_LIMITS: seq<nat> := [U16, U32, U16, U32, U16, U32]
  const STATE_LIMITS: seq<nat> := [U16, U16, U16, U16, U16, U16]

  function ParseModules(ts: seq<string>): (r: Read<(seq<nat>, seq<nat>)>)
    ensures r.Got? ==> Fit(r.value.0, MVLC_LIMITS) && Fit(r.value.1, MDPP_LIMITS)
  {
    var (mvlc, t1) :- ReadSection(ts, "MVLC", MVLC_LIMITS);
    var (mdpp, t2) :- ReadSection(t1, "MDPP", MDPP_LIMITS);
    Got((mvlc, mdpp), t2)
  }

  predicate HeadFits(h: Head) { Fit(h.mvlc, MVLC_LIMITS) && Fit(h.mdpp, MDPP_LIMITS) }

  function ParseHead(ts: seq<string>): (r: Read<Head>)
    ensures r.Got? ==> HeadFits(r.value)
  {
    var (version, t1) :- ReadSection(ts, MAGIC, [U32]);
    var (endpoint, t2) :- ParseEndpoint(t1);
    var (modules, t3) :- ParseModules(t2);
    if version[0] < 1 || version[0] > FORMAT_VERSION then Malformed
    else Got(Head(version[0], endpoint.0, endpoint.1, modules.0, modules.1), t3)
  }

  datatype Body = Body(isolated: seq<nat>, stack: seq<nat>, source: seq<nat>, state: seq<nat>, checksum: nat)

  predicate BodyFits(b: Body) {
    && Fit(b.isolated, Repeat(U32, |b.isolated|)) && Fit(b.stack, STACK_LIMITS)
    && Fit(b.source, [U16, U16, U16, U16]) && Fit(b.state, STATE_LIMITS)
  }

  function ParseBody(ts: seq<string>, version: nat): (r: Read<Body>)
    ensures r.Got? ==> BodyFits(r.value)
  {
    var (isolated, t1) :- ParseIsolated(ts, version);
    var (stack, t2) :- ReadSection(t1, "STACK", STACK_LIMITS);
    var (source, t3) :- ParseSource(t2, version);
    var (state, t4) :- ReadSection(t3, "STATE", STATE_LIMITS);
    var (checksum, t5) :- ParseEnd(t4);
    Got(Body(isolated, stack, source, state, checksum), t5)
  }

  function Build(h: Head, b: Body): Record
    requires HeadFits(h) && BodyFits(b)
  {
    Record(h.version, b.state[0], h.host, h.port, h.mvlc[0], h.mvlc[1], h.mdpp[0], h.mdpp[1], h.mdpp[2], h.mdpp[3],
           b.stack[0], b.stack[1], b.stack[2], b.stack[3], b.stack[4], b.stack[5],
           Narrow(b.isolated),
           b.source[0] == 1, b.source[1], b.source[2], h.version >= 4 && b.source[0] == 1, b.source[3],
           b.state[1] == 1, b.state[2], b.state[3], b.state[4], b.state[5])
  }

  /** ParseTunerRecoveryJournal for versions 1 to 4. */
  function Parse(ts: seq<string>, checksum: Hashed -> nat): (r: Option<Record>)
    ensures r.Some? ==> ValidRecord(r.value)
  {
    match ParseHead(ts)
    case Malformed => None
    case Got(h, rest) =>
      match ParseBody(rest, h.version)
      case Malformed => None
      case Got(b, _) =>
        if b.source[0] > 1 || b.state[1] > 1 then None
        else
          var r := Build(h, b);
          if !ValidRecord(r) || b.checksum != checksum(Summary(r)) then None else Some(r)
  }

  /** A record as far as its format version stores it. */
  function Normal(r: Record): Record {
    if r.formatVersion >= 4 then r
    else if r.formatVersion == 3 then r.(sourceApplied := 0)
    else r.(sourceRestoreRequired := false, sourceQuad := 0, sourceOriginal := 0, sourceApplied := 0)
  }

  function HeadOf(r: Record): Head {
    Head(r.formatVersion, r.host, r.commandPort, [r.mvlcHardwareId, r.mvlcFirmwareRevision],
         [r.mdppBaseAddress, r.mdppHardwareId, r.mdppIrqLevel, r.mdppOutputFormat])
  }

  function StoredSource(r: Record): seq<nat> {
    var n := Normal(r);
    [Bit(n.sourceRestoreRequired), n.sourceQuad, n.sourceOriginal, n.sourceApplied]
  }

  function BodyOf(r: Record, checksum: nat): Body {
    Body(r.isolated, StackNumbers(r), StoredSource(r), StateNumbers(r), checksum)
  }

  lemma EndpointRoundTrip(host: string, port: u16, rest: seq<string>)
    ensures ParseEndpoint(PrintEndpoint(host, port, rest)) == Got((host, port), rest)
  {
    var t2 := Numbers([port]) + rest;
    assert PrintEndpoint(host, port, rest)[1..] == [host] + t2 && ([host] + t2)[1..] == t2;
    NumbersRoundTrip([port], [U16], rest);
  }

  lemma HeadRoundTrip(r: Record, checksum: nat)
    requires ValidRecord(r)
    ensures ParseHead(Print(r, checksum)) == Got(HeadOf(r), PrintIsolated(r, checksum))
  {
    SectionRoundTrip(MAGIC, [r.formatVersion], [U32], PrintEndpoint(r.host, r.commandPort, PrintMvlc(r, checksum)));
    EndpointRoundTrip(r.host, r.commandPort, PrintMvlc(r, checksum));
    ModulesRoundTrip(r, checksum);
  }

  lemma ModulesRoundTrip(r: Record, checksum: nat)
    ensures ParseModules(PrintMvlc(r, checksum)) == Got((HeadOf(r).mvlc, HeadOf(r).mdpp), PrintIsolated(r, checksum))
  {
    SectionRoundTrip("MVLC", HeadOf(r).mvlc, MVLC_LIMITS, PrintMdpp(r, checksum));
    SectionRoundTrip("MDPP", HeadOf(r).mdpp, MDPP_LIMITS, PrintIsolated(r, checksum));
  }

  lemma IsolatedRoundTrip(r: Record, checksum: nat)
    requires ValidRecord(r)
    ensures ParseIsolated(PrintIsolated(r, checksum), r.formatVersion) == Got(r.isolated, PrintStack(r, checksum))
  {
    if r.formatVersion >= 2 {
      var rest := PrintStack(r, checksum);
      SectionRoundTrip("ISOLATED", [|r.isolated|], [U16], Numbers(r.isolated) + rest);
      NumbersRoundTrip(r.isolated, Repeat(U32, |r.isolated|), rest);
    }
  }

  lemma SourceRoundTrip(r: Record, checksum: nat)
    requires ValidRecord(r)
    ensures ParseSource(PrintSource(r, checksum), r.formatVersion) == Got(StoredSource(r), PrintState(r, checksum))
  {
    if r.formatVersion >= 3 {
      SectionRoundTrip("SOURCE", SourceNumbers(r), SourceLimits(r.formatVersion), PrintState(r, checksum));
      assert StoredSource(r) == if r.formatVersion >= 4 then SourceNumbers(r) else SourceNumbers(r) + [0];
    }
  }

  lemma EndRoundTrip(checksum: nat)
    requires checksum <= U64
    ensures ParseEnd(PrintEnd(checksum)) == Got(checksum, [])
  {
    SectionRoundTrip("CHECKSUM", [checksum], [U64], ["END"]);
  }

  lemma BodyRoundTrip(r: Record, checksum: nat)
    requires ValidRecord(r) && checksum <= U64
    ensures ParseBody(PrintIsolated(r, checksum), r.formatVersion) == Got(BodyOf(r, checksum), [])
  {
    IsolatedRoundTrip(r, checksum);
    SectionRoundTrip("STACK", StackNumbers(r), STACK_LIMITS, PrintSource(r, checksum));
    SourceRoundTrip(r, checksum);
    SectionRoundTrip("STATE", StateNumbers(r), STATE_LIMITS, PrintEnd(checksum));
    EndRoundTrip(checksum);
  }

  lemma BuildNormal(r: Record, checksum: nat)
    requires ValidRecord(r)
    ensures HeadFits(HeadOf(r)) && BodyFits(BodyOf(r, checksum)) && Build(HeadOf(r), BodyOf(r, checksum)) == Normal(r)
  {
  }

  lemma NormalValid(r: Record)
    requires ValidRecord(r)
    ensures ValidRecord(Normal(r)) && SourceNumbers(Normal(r)) == SourceNumbers(r)
  {
  }

  lemma NormalStored(r: Record, checksum: nat)
    requires SourceNumbers(Normal(r)) == SourceNumbers(r)
    ensures Summary(Normal(r)) == Summary(r) && Print(Normal(r), checksum) == Print(r, checksum)
  {
  }

  /** Every valid record parses back to what its version stores (for version 4, to itself), and that
      serializes to the same text. */
  lemma RecordRoundTrip(r: Record, checksum: Hashed -> nat)
    requires ValidRecord(r) && checksum(Summary(r)) <= U64
    ensures Serialize(r, checksum).Some? && Parse(Serialize(r, checksum).value, checksum) == Some(Normal(r))
    ensures Serialize(Normal(r), checksum) == Serialize(r, checksum)
    ensures r.formatVersion == 4 ==> Normal(r) == r
  {
    var sum := checksum(Summary(r));
    HeadRoundTrip(r, sum);
    BodyRoundTrip(r, sum);
    BuildNormal(r, sum);
    NormalValid(r);
    NormalStored(r, sum);
  }

  /** The outcome for the text of a record with any stored checksum: it is read back if that is the checksum of
      its fields, and refused otherwise. */
  lemma AnyChecksum(r: Record, stored: nat, checksum: Hashed -> nat)
    requires ValidRecord(r) && stored <= U64
    ensures Parse(Print(r, stored), checksum) == if stored == checksum(Summary(r)) then Some(Normal(r)) else None
  {
    HeadRoundTrip(r, stored);
    BodyRoundTrip(r, stored);
    BuildNormal(r, stored);
    NormalValid(r);
    NormalStored(r, stored);
  }

  /** The parts of a summary: five fixed numbers, four and six more, and the preview's five at the end. */
  predicate Parts(r: Record, ns: seq<nat>) {
    && |ns| >= 20 && ns[..5] == [r.formatVersion, r.phase, r.commandPort, r.mvlcHardwareId, r.mvlcFirmwareRevision]
    && ns[5..9] == [r.mdppBaseAddress, r.mdppHardwareId, r.mdppIrqLevel, r.mdppOutputFormat]
    && ns[9..15] == StackNumbers(r)
    && ns[15..|ns| - 5] == (if r.formatVersion >= 2 then [|r.isolated|] + r.isolated else []) + SourceNumbers(r)
    && ns[|ns| - 5..] == [Bit(r.previewRestoreRequired), r.previewQuad, r.previewRegister, r.previewOriginal, r.previewApplied]
  }

  lemma SummaryParts(r: Record)
    ensures Parts(r, Summary(r).numbers)
  {
  }

  /** The isolated modules and the source numbers can be told apart: the count comes first. */
  lemma MiddleInjective(r1: Record, r2: Record)
    requires ValidRecord(r1) && ValidRecord(r2) && r1.formatVersion == r2.formatVersion
    requires (if r1.formatVersion >= 2 then [|r1.isolated|] + r1.isolated else []) + SourceNumbers(r1)
          == (if r2.formatVersion >= 2 then [|r2.isolated|] + r2.isolated else []) + SourceNumbers(r2)
    ensures r1.isolated == r2.isolated && SourceNumbers(r1) == SourceNumbers(r2)
  {
    if r1.formatVersion >= 2 {
      var n := |r1.isolated|;
      var m1, m2 := [n] + r1.isolated + SourceNumbers(r1), [|r2.isolated|] + r2.isolated + SourceNumbers(r2);
      assert m1[0] == m2[0] == n;
      assert m1[1..n + 1] == r1.isolated && m2[1..n + 1] == r2.isolated;
      assert m1[n + 1..] == SourceNumbers(r1) && m2[n + 1..] == SourceNumbers(r2);
    } else {
      assert [] + SourceNumbers(r1) == SourceNumbers(r1) && [] + SourceNumbers(r2) == SourceNumbers(r2);
    }
  }

  lemma SourceInjective(r1: Record, r2: Record)
    requires ValidRecord(r1) && ValidRecord(r2) && r1.formatVersion == r2.formatVersion && SourceNumbers(r1) == SourceNumbers(r2)
    ensures StoredSource(r1) == StoredSource(r2)
    ensures Normal(r1).sourceRestoreRequired == Normal(r2).sourceRestoreRequired
    ensures Normal(r1).sourceAppliedAvailable == Normal(r2).sourceAppliedAvailable
  {
    if r1.formatVersion >= 3 {
      assert SourceNumbers(r1)[0] == SourceNumbers(r2)[0] && SourceNumbers(r1)[1] == SourceNumbers(r2)[1];
      assert SourceNumbers(r1)[2] == SourceNumbers(r2)[2];
      if r1.formatVersion >= 4 { assert SourceNumbers(r1)[3] == SourceNumbers(r2)[3]; }
    }
  }

  lemma FromParts(r1: Record, r2: Record, ns: seq<nat>)
    requires ValidRecord(r1) && ValidRecord(r2) && r1.host == r2.host && Parts(r1, ns) && Parts(r2, ns)
    ensures Normal(r1) == Normal(r2)
  {
    assert ns[..5][0] == r1.formatVersion == r2.formatVersion;
    MiddleInjective(r1, r2);
    SourceInjective(r1, r2);
    SameFields(r1, r2, ns[..5], ns[5..9], ns[9..15], ns[|ns| - 5..], StoredSource(r1));
  }

  /** The checksum covers everything that is stored: two records with the same summary are stored alike. */
  lemma SummaryInjective(r1: Record, r2: Record)
    requires ValidRecord(r1) && ValidRecord(r2) && Summary(r1) == Summary(r2)
    ensures Normal(r1) == Normal(r2)
  {
    SummaryParts(r1);
    SummaryParts(r2);
    FromParts(r1, r2, Summary(r1).numbers);
  }

  lemma SameFields(r1: Record, r2: Record, head: seq<nat>, mdpp: seq<nat>, stack: seq<nat>, preview: seq<nat>, source: seq<nat>)
    requires r1.host == r2.host && r1.isolated == r2.isolated
    requires forall r | r in [r1, r2] ::
               && head == [r.formatVersion, r.phase, r.commandPort, r.mvlcHardwareId, r.mvlcFirmwareRevision]
               && mdpp == [r.mdppBaseAddress, r.mdppHardwareId, r.mdppIrqLevel, r.mdppOutputFormat]
               && stack == StackNumbers(r) && source == StoredSource(r)
               && preview == [Bit(r.previewRestoreRequired), r.previewQuad, r.previewRegister, r.previewOriginal, r.previewApplied]
    requires Normal(r1).sourceRestoreRequired == Normal(r2).sourceRestoreRequired
    requires Normal(r1).sourceAppliedAvailable == Normal(r2).sourceAppliedAvailable
    ensures Normal(r1) == Normal(r2)
  {
    assert r1 in [r1, r2] && r2 in [r1, r2];
    assert head[0] == r1.formatVersion == r2.formatVersion && head[1] == r1.phase == r2.phase && head[2] == r1.commandPort == r2.commandPort;
    assert head[3] == r1.mvlcHardwareId == r2.mvlcHardwareId && head[4] == r1.mvlcFirmwareRevision == r2.mvlcFirmwareRevision;
    assert mdpp[0] == r1.mdppBaseAddress == r2.mdppBaseAddress && mdpp[1] == r1.mdppHardwareId == r2.mdppHardwareId;
    assert mdpp[2] == r1.mdppIrqLevel == r2.mdppIrqLevel && mdpp[3] == r1.mdppOutputFormat == r2.mdppOutputFormat;
    assert forall i | 0 <= i < 6 :: StackNumbers(r1)[i] == StackNumbers(r2)[i];
    assert forall i | 0 <= i < 4 :: StoredSource(r1)[i] == StoredSource(r2)[i];
    assert preview[0] == Bit(r1.previewRestoreRequired) == Bit(r2.previewRestoreRequired);
    assert preview[1] == r1.previewQuad == r2.previewQuad && preview[2] == r1.previewRegister == r2.previewRegister;
    assert preview[3] == r1.previewOriginal == r2.previewOriginal && preview[4] == r1.previewApplied == r2.previewApplied;
  }

  /** With a checksum that tells summaries apart, the text of one record under the checksum of another is accepted
      only if both are stored alike: no stored field can be altered unnoticed. */
  lemma AlteredIsRefused(r1: Record, r2: Record, checksum: Hashed -> nat)
    requires ValidRecord(r1) && ValidRecord(r2) && checksum(Summary(r1)) <= U64
    requires checksum(Summary(r1)) == checksum(Summary(r2)) ==> Summary(r1) == Summary(r2)
    ensures Parse(Print(r2, checksum(Summary(r1))), checksum).Some? <==> Normal(r1) == Normal(r2)
  {
    AnyChecksum(r2, checksum(Summary(r1)), checksum);
    if Summary(r1) == Summary(r2) { SummaryInjective(r1, r2); }
    if Normal(r1) == Normal(r2) {
      NormalValid(r1);
      NormalValid(r2);
      NormalStored(r1, 0);
      NormalStored(r2, 0);
    }
  }

  // Accepted text is written text

  lemma ModulesInvert(ts: seq<string>, after: seq<string>)
    requires ParseModules(ts).Got? && Alike(ParseModules(ts).rest, after)
    ensures var v := ParseModules(ts).value;
            Alike(ts, Section("MVLC", v.0) + (Section("MDPP", v.1) + after))
  {
    var t1 := ReadSection(ts, "MVLC", MVLC_LIMITS).rest;
    SectionInverts(t1, "MDPP", MDPP_LIMITS, after);
    SectionInverts(ts, "MVLC", MVLC_LIMITS, Section("MDPP", ParseModules(ts).value.1) + after);
  }

  lemma EndpointInverts(ts: seq<string>, after: seq<string>)
    requires ParseEndpoint(ts).Got? && Alike(ParseEndpoint(ts).rest, after)
    ensures Alike(ts, PrintEndpoint(ParseEndpoint(ts).value.0, ParseEndpoint(ts).value.1, after))
  {
    var t1 := Expect(ts, "ENDPOINT").rest;
    var (host, port) := ParseEndpoint(ts).value;
    NumbersInvert(Next(t1).rest, [U16], after);
    assert ReadNumbers(Next(t1).rest, [U16]).value == [port];
    NextInverts(t1, Numbers([port]) + after);
    ExpectInverts(ts, "ENDPOINT", [host] + (Numbers([port]) + after));
  }

  /** The tokens of a head, and of a body. */
  function HeadTokens(h: Head, after: seq<string>): seq<string> {
    Section(MAGIC, [h.version]) + PrintEndpoint(h.host, h.port, Section("MVLC", h.mvlc) + (Section("MDPP", h.mdpp) + after))
  }

  lemma HeadInverts(ts: seq<string>, after: seq<string>)
    requires ParseHead(ts).Got? && Alike(ParseHead(ts).rest, after)
    ensures Alike(ts, HeadTokens(ParseHead(ts).value, after))
  {
    var h := ParseHead(ts).value;
    var t1 := ReadSection(ts, MAGIC, [U32]).rest;
    var t2 := ParseEndpoint(t1).rest;
    ModulesInvert(t2, after);
    var modules := Section("MVLC", h.mvlc) + (Section("MDPP", h.mdpp) + after);
    EndpointInverts(t1, modules);
    assert ReadSection(ts, MAGIC, [U32]).value == [h.version];
    SectionInverts(ts, MAGIC, [U32], PrintEndpoint(h.host, h.port, modules));
  }

  function IsolatedTokens(bases: seq<nat>, version: nat, after: seq<string>): seq<string> {
    if version < 2 then after else Section("ISOLATED", [|bases|]) + (Numbers(bases) + after)
  }

  lemma IsolatedInverts(ts: seq<string>, version: nat, after: seq<string>)
    requires ParseIsolated(ts, version).Got? && Alike(ParseIsolated(ts, version).rest, after)
    ensures Alike(ts, IsolatedTokens(ParseIsolated(ts, version).value, version, after))
  {
    if version >= 2 {
      var bases := ParseIsolated(ts, version).value;
      var count := ReadSection(ts, "ISOLATED", [U16]);
      NumbersInvert(count.rest, Repeat(U32, count.value[0]), after);
      assert count.value == [|bases|];
      SectionInverts(ts, "ISOLATED", [U16], Numbers(bases) + after);
    }
  }

  function SourceTokens(source: seq<nat>, version: nat, after: seq<string>): seq<string>
    requires |source| == 4
  {
    if version < 3 then after else Section("SOURCE", if version >= 4 then source else source[..3]) + after
  }

  lemma SourceInverts(ts: seq<string>, version: nat, after: seq<string>)
    requires ParseSource(ts, version).Got? && Alike(ParseSource(ts, version).rest, after)
    ensures Alike(ts, SourceTokens(ParseSource(ts, version).value, version, after))
    ensures version < 4 ==> ParseSource(ts, version).value[3] == 0
    ensures version < 3 ==> ParseSource(ts, version).value == [0, 0, 0, 0]
  {
    if version >= 3 {
      SectionInverts(ts, "SOURCE", SourceLimits(version), after);
      var ns := ReadSection(ts, "SOURCE", SourceLimits(version)).value;
      if version == 3 { assert (ns + [0])[..3] == ns; }
    }
  }

  lemma EndInverts(ts: seq<string>)
    requires ParseEnd(ts).Got?
    ensures Alike(ts, PrintEnd(ParseEnd(ts).value))
  {
    var section := ReadSection(ts, "CHECKSUM", [U64]);
    ExpectInverts(section.rest, "END", []);
    assert ["END"] + [] == ["END"] && section.value == [ParseEnd(ts).value];
    SectionInverts(ts, "CHECKSUM", [U64], ["END"]);
  }

  function BodyTokens(b: Body, version: nat): seq<string>
    requires BodyFits(b)
  {
    IsolatedTokens(b.isolated, version,
      Section("STACK", b.stack) + SourceTokens(b.source, version, Section("STATE", b.state) + PrintEnd(b.checksum)))
  }

  lemma BodyInverts(ts: seq<string>, version: nat)
    requires ParseBody(ts, version).Got?
    ensures Alike(ts, BodyTokens(ParseBody(ts, version).value, version))
    ensures var source := ParseBody(ts, version).value.source;
            (version < 4 ==> source[3] == 0) && (version < 3 ==> source == [0, 0, 0, 0])
  {
    var b := ParseBody(ts, version).value;
    var t1 := ParseIsolated(ts, version).rest;
    var t2 := ReadSection(t1, "STACK", STACK_LIMITS).rest;
    var t3 := ParseSource(t2, version).rest;
    var t4 := ReadSection(t3, "STATE", STATE_LIMITS).rest;
    EndInverts(t4);
    SectionInverts(t3, "STATE", STATE_LIMITS, PrintEnd(b.checksum));
    var state := Section("STATE", b.state) + PrintEnd(b.checksum);
    SourceInverts(t2, version, state);
    SectionInverts(t1, "STACK", STACK_LIMITS, SourceTokens(b.source, version, state));
    IsolatedInverts(ts, version, Section("STACK", b.stack) + SourceTokens(b.source, version, state));
  }

  /** The fields of a built record are the numbers it was built from. */
  lemma BuiltFields(h: Head, b: Body)
    requires HeadFits(h) && BodyFits(b) && b.source[0] <= 1 && b.state[1] <= 1
    ensures var r := Build(h, b);
            && HeadOf(r) == h && r.isolated == b.isolated && StackNumbers(r) == b.stack && StateNumbers(r) == b.state
            && [Bit(r.sourceRestoreRequired), r.sourceQuad, r.sourceOriginal, r.sourceApplied] == b.source
  {
  }

  lemma BuiltPrints(h: Head, b: Body)
    requires HeadFits(h) && BodyFits(b) && b.source[0] <= 1 && b.state[1] <= 1
    ensures Print(Build(h, b), b.checksum) == HeadTokens(h, BodyTokens(b, h.version))
  {
    BuiltFields(h, b);
    var r := Build(h, b);
    if h.version >= 3 { assert SourceNumbers(r) == if h.version >= 4 then b.source else b.source[..3]; }
    assert PrintSource(r, b.checksum) == SourceTokens(b.source, h.version, Section("STATE", b.state) + PrintEnd(b.checksum));
  }

  /** Nothing else is accepted: accepted text spells a valid record, field for field, with the checksum of exactly
      these fields. */
  lemma AcceptedIsWritten(ts: seq<string>, checksum: Hashed -> nat)
    requires Parse(ts, checksum).Some?
    ensures var r := Parse(ts, checksum).value;
            ValidRecord(r) && Normal(r) == r && Alike(ts, Print(r, checksum(Summary(r))))
  {
    var h := ParseHead(ts);
    var b := ParseBody(h.rest, h.value.version).value;
    BodyInverts(h.rest, h.value.version);
    HeadInverts(ts, BodyTokens(b, h.value.version));
    BuiltPrints(h.value, b);
    BuiltFields(h.value, b);
  }
}
