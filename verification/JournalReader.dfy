/** The journal readers as they run: a cursor that advances through the tokens. */
module JournalReader {
  import opened Words
  import opened ScpRegistry
  import opened ScpProfile
  import opened RecoveryRecord
  import opened V5Record
  import opened JournalTokens
  import JournalText
  import V5Text
  import V5Chain

  /** What a reader must leave behind when the specification reads `spec`. */
  ghost predicate Agrees<T(!new)>(spec: Read<T>, r: Option<T>, rest: seq<string>) {
    match spec
    case Malformed => r.None?
    case Got(value, more) => r == Some(value) && rest == more
  }

  class TokenStream {
    var rest: seq<string>

    constructor (tokens: seq<string>)
      ensures rest == tokens
    {
      rest := tokens;
    }

    method ExpectToken(word: string) returns (r: Option<()>)
      modifies this
      ensures Agrees(Expect(old(rest), word), r, rest)
    {
      if rest == [] { return None; }
      var token := rest[0];
      rest := rest[1..];
      return if token == word then Some(()) else None;
    }

    method NextToken() returns (r: Option<string>)
      modifies this
      ensures Agrees(Next(old(rest)), r, rest)
    {
      if rest == [] { return None; }
      r := Some(rest[0]);
      rest := rest[1..];
    }

    method Numbers(limits: seq<nat>) returns (r: Option<seq<nat>>)
      modifies this
      ensures Agrees(ReadNumbers(old(rest), limits), r, rest)
    {
      var ns := [];
      PrependNone(ReadNumbers(rest, limits));
      assert limits[0..] == limits;
      for i := 0 to |limits|
        invariant ReadNumbers(old(rest), limits) == Prepend(ns, ReadNumbers(rest, limits[i..]))
      {
        var n := ReadUnsigned(rest, limits[i]);
        if n.Malformed? { return None; }
        assert limits[i..][1..] == limits[i + 1..];
        PrependOne(ns, n.value, ReadNumbers(n.rest, limits[i + 1..]));
        rest := n.rest;
        ns := ns + [n.value];
      }
      assert ns + [] == ns;
      return Some(ns);
    }

    method Section(keyword: string, limits: seq<nat>) returns (r: Option<seq<nat>>)
      modifies this
      ensures Agrees(ReadSection(old(rest), keyword, limits), r, rest)
    {
      var found := ExpectToken(keyword);
      if found.None? { return None; }
      r := Numbers(limits);
    }
  }

  function Prepend<T>(ns: seq<T>, r: Read<seq<T>>): Read<seq<T>> {
    if r.Malformed? then Malformed else Got(ns + r.value, r.rest)
  }

  lemma PrependOne<T>(ns: seq<T>, n: T, r: Read<seq<T>>)
    ensures Prepend(ns, Prepend([n], r)) == Prepend(ns + [n], r)
  {
    if r.Got? { assert ns + ([n] + r.value) == ns + [n] + r.value; }
  }

  lemma PrependNone<T>(r: Read<seq<T>>)
    ensures Prepend([], r) == r
  {
    if r.Got? { assert [] + r.value == r.value; }
  }

  // Versions 1 to 4

  method ReadHead(s: TokenStream) returns (r: Option<JournalText.Head>)
    modifies s
    ensures Agrees(JournalText.ParseHead(old(s.rest)), r, s.rest)
  {
    var version := s.Section(MAGIC, [U32]);
    if version.None? { return None; }
    var endpoint := s.ExpectToken("ENDPOINT");
    if endpoint.None? { return None; }
    var host := s.NextToken();
    if host.None? { return None; }
    var port := s.Numbers([U16]);
    if port.None? { return None; }
    var mvlc := s.Section("MVLC", JournalText.MVLC_LIMITS);
    if mvlc.None? { return None; }
    var mdpp := s.Section("MDPP", JournalText.MDPP_LIMITS);
    if mdpp.None? { return None; }
    if version.value[0] < 1 || version.value[0] > FORMAT_VERSION { return None; }
    return Some(JournalText.Head(version.value[0], host.value, port.value[0], mvlc.value, mdpp.value));
  }

  method ReadIsolated(s: TokenStream, version: nat) returns (r: Option<seq<nat>>)
    modifies s
    ensures Agrees(JournalText.ParseIsolated(old(s.rest), version), r, s.rest)
  {
    if version < 2 { return Some([]); }
    var count := s.Section("ISOLATED", [U16]);
    if count.None? || count.value[0] > 15 { return None; }
    r := s.Numbers(Repeat(U32, count.value[0]));
  }

  method ReadSource(s: TokenStream, version: nat) returns (r: Option<seq<nat>>)
    modifies s
    ensures Agrees(JournalText.ParseSource(old(s.rest), version), r, s.rest)
  {
    if version < 3 { return Some([0, 0, 0, 0]); }
    var ns := s.Section("SOURCE", JournalText.SourceLimits(version));
    if ns.None? { return None; }
    return Some(if version >= 4 then ns.value else ns.value + [0]);
  }

  method ReadEnd(s: TokenStream, keyword: string) returns (r: Option<nat>)
    modifies s
    ensures keyword == "CHECKSUM" ==> Agrees(JournalText.ParseEnd(old(s.rest)), r, s.rest)
    ensures keyword == "RECORD_CHECKSUM" ==> Agrees(V5Text.ParseEnd(old(s.rest)), r, s.rest)
  {
    var checksum := s.Section(keyword, [U64]);
    if checksum.None? { return None; }
    var end := s.ExpectToken("END");
    if end.None? || s.rest != [] { return None; }
    return Some(checksum.value[0]);
  }

  method ReadBody(s: TokenStream, version: nat) returns (r: Option<JournalText.Body>)
    modifies s
    ensures Agrees(JournalText.ParseBody(old(s.rest), version), r, s.rest)
  {
    var isolated := ReadIsolated(s, version);
    if isolated.None? { return None; }
    var stack := s.Section("STACK", JournalText.STACK_LIMITS);
    if stack.None? { return None; }
    var source := ReadSource(s, version);
    if source.None? { return None; }
    var state := s.Section("STATE", JournalText.STATE_LIMITS);
    if state.None? { return None; }
    var checksum := ReadEnd(s, "CHECKSUM");
    if checksum.None? { return None; }
    return Some(JournalText.Body(isolated.value, stack.value, source.value, state.value, checksum.value));
  }

  /** ParseTunerRecoveryJournal for versions 1 to 4: every serialized record is read back. */
  method ReadRecord(tokens: seq<string>, checksum: JournalText.Hashed -> nat) returns (r: Option<Record>)
    ensures r == JournalText.Parse(tokens, checksum)
    ensures forall record | ValidRecord(record) && checksum(JournalText.Summary(record)) <= U64
                            && JournalText.Serialize(record, checksum) == Some(tokens) :: r == Some(JournalText.Normal(record))
  {
    forall record | ValidRecord(record) && checksum(JournalText.Summary(record)) <= U64
                    && JournalText.Serialize(record, checksum) == Some(tokens)
      ensures JournalText.Parse(tokens, checksum) == Some(JournalText.Normal(record))
    {
      JournalText.RecordRoundTrip(record, checksum);
    }
    var s := new TokenStream(tokens);
    var head := ReadHead(s);
    if head.None? { return None; }
    var body := ReadBody(s, head.value.version);
    if body.None? || body.value.source[0] > 1 || body.value.state[1] > 1 { return None; }
    var record := JournalText.Build(head.value, body.value);
    if !ValidRecord(record) || body.value.checksum != checksum(JournalText.Summary(record)) { return None; }
    return Some(record);
  }

  // Version 5

  method ReadSession(s: TokenStream, sums: V5Text.Sums) returns (r: Option<(Phase, bool)>)
    modifies s
    ensures Agrees(V5Text.ParseSession(old(s.rest), sums), r, s.rest)
  {
    var keyword := s.ExpectToken("SESSION");
    if keyword.None? { return None; }
    var token := s.NextToken();
    if token.None? { return None; }
    var ns := s.Numbers([U16, U64]);
    if ns.None? || ns.value[0] > 1 { return None; }
    var phase := V5Text.ParsePhase(token.value);
    if phase.None? || ns.value[1] != sums.session(phase.value, ns.value[0] == 1) { return None; }
    return Some((phase.value, ns.value[0] == 1));
  }

  method ReadEndpoint(s: TokenStream, sums: V5Text.Sums) returns (r: Option<Endpoint>)
    modifies s
    ensures Agrees(V5Text.ParseEndpoint(old(s.rest), sums), r, s.rest)
  {
    var keyword := s.ExpectToken("ENDPOINT");
    if keyword.None? { return None; }
    var kind := s.NextToken();
    if kind.None? { return None; }
    var host := s.NextToken();
    if host.None? { return None; }
    var port := s.Numbers([U16]);
    if port.None? { return None; }
    var endpoint;
    if kind.value == "DIRECT" {
      endpoint := Endpoint(DirectEthernet, host.value, port.value[0], "", "");
    } else if kind.value == "SSH_BRIDGE" {
      var destination := s.NextToken();
      if destination.None? { return None; }
      var command := s.NextToken();
      if command.None? { return None; }
      endpoint := Endpoint(SshBridge, host.value, port.value[0], destination.value, command.value);
    } else {
      return None;
    }
    r := CheckSum(s, endpoint, sums.endpoint(endpoint));
  }

  method CheckSum<T(!new)>(s: TokenStream, value: T, sum: nat) returns (r: Option<T>)
    modifies s
    ensures Agrees(V5Text.Checked(value, old(s.rest), sum), r, s.rest)
  {
    var stored := s.Numbers([U64]);
    if stored.None? || stored.value[0] != sum { return None; }
    return Some(value);
  }

  method ReadIdentity(s: TokenStream, sums: V5Text.Sums) returns (r: Option<Identity>)
    modifies s
    ensures Agrees(V5Text.ParseIdentity(old(s.rest), sums), r, s.rest)
  {
    var ns := s.Section("IDENTITY", V5Text.IDENTITY_LIMITS);
    if ns.None? { return None; }
    var identity := Identity(ns.value[0], ns.value[1], ns.value[2], ns.value[3], ns.value[4]);
    r := CheckSum(s, identity, sums.identity(identity));
  }

  method ReadPresence(s: TokenStream, keyword: string) returns (r: Option<bool>)
    modifies s
    ensures Agrees(V5Text.ParsePresence(old(s.rest), keyword), r, s.rest)
  {
    var ns := s.Section(keyword, [U16]);
    if ns.None? || ns.value[0] > 1 { return None; }
    return Some(ns.value[0] == 1);
  }

  method ReadOwnershipFields(s: TokenStream) returns (r: Option<Ownership>)
    modifies s
    ensures Agrees(V5Text.ParseOwnershipFields(old(s.rest)), r, s.rest)
  {
    var ns := s.Numbers(V5Text.OWNERSHIP_LIMITS);
    if ns.None? || ns.value[6] > MAXIMUM_ISOLATED { return None; }
    var bases := s.Numbers(Repeat(U32, ns.value[6]));
    if bases.None? { return None; }
    return Some(Ownership(ns.value[0], ns.value[1], ns.value[2], ns.value[3], ns.value[4], ns.value[5], Narrow(bases.value)));
  }

  method ReadOwnership(s: TokenStream, sums: V5Text.Sums) returns (r: Option<Option<Ownership>>)
    modifies s
    ensures Agrees(V5Text.ParseOwnership(old(s.rest), sums), r, s.rest)
  {
    var present := ReadPresence(s, "OWNERSHIP");
    if present.None? { return None; }
    var ownership: Option<Ownership> := None;
    if present.value {
      ownership := ReadOwnershipFields(s);
      if ownership.None? { return None; }
    }
    var keyword := s.ExpectToken("OWNERSHIP_CHECKSUM");
    if keyword.None? { return None; }
    r := CheckSum(s, ownership, sums.ownership(ownership));
  }

  method ReadQuads(s: TokenStream) returns (r: Option<seq<Quad>>)
    modifies s
    ensures Agrees(V5Text.ParseQuads(old(s.rest), QUAD_COUNT), r, s.rest)
  {
    var quads := [];
    PrependNone(V5Text.ParseQuads(s.rest, QUAD_COUNT));
    for index := 0 to QUAD_COUNT
      invariant V5Text.ParseQuads(old(s.rest), QUAD_COUNT) == Prepend(quads, V5Text.ParseQuads(s.rest, QUAD_COUNT - index))
    {
      var ns := s.Section("QUAD", Repeat(U16, 18));
      if ns.None? { return None; }
      var quad := V5Text.BuildQuad(ns.value);
      PrependOne(quads, quad, V5Text.ParseQuads(s.rest, QUAD_COUNT - index - 1));
      quads := quads + [quad];
    }
    assert quads + [] == quads;
    return Some(quads);
  }

  method ReadSnapshotFields(s: TokenStream) returns (r: Option<Snapshot>)
    modifies s
    ensures Agrees(V5Text.ParseSnapshotFields(old(s.rest)), r, s.rest)
  {
    var ns := s.Section("GLOBALS", V5Text.GLOBALS_LIMITS);
    if ns.None? { return None; }
    var quads := ReadQuads(s);
    if quads.None? { return None; }
    return Some(Snapshot(true, true, ns.value[0], ns.value[1], ns.value[2], ns.value[3], ns.value[4], quads.value));
  }

  method ReadSnapshot(s: TokenStream, sums: V5Text.Sums) returns (r: Option<Option<Snapshot>>)
    modifies s
    ensures Agrees(V5Text.ParseSnapshot(old(s.rest), sums), r, s.rest)
  {
    var present := ReadPresence(s, "RESTORE_SNAPSHOT");
    if present.None? { return None; }
    var snapshot: Option<Snapshot> := None;
    if present.value {
      snapshot := ReadSnapshotFields(s);
      if snapshot.None? { return None; }
    }
    var keyword := s.ExpectToken("SNAPSHOT_CHECKSUM");
    if keyword.None? { return None; }
    r := CheckSum(s, snapshot, sums.snapshot(snapshot));
  }

  method ReadScope(s: TokenStream) returns (r: Option<Option<nat>>)
    modifies s
    ensures Agrees(V5Text.ParseScope(old(s.rest)), r, s.rest)
  {
    var scope := s.NextToken();
    if scope.None? { return None; }
    if scope.value == "GLOBAL" { return Some(None); }
    if scope.value != "QUAD" { return None; }
    var quad := s.Numbers([U16]);
    if quad.None? { return None; }
    return Some(Some(quad.value[0]));
  }

  method ReadDeviation(s: TokenStream) returns (r: Option<Deviation>)
    modifies s
    ensures Agrees(V5Text.ParseDeviation(old(s.rest)), r, s.rest)
  {
    var ordinal := s.Section("DEVIATION", [U32]);
    if ordinal.None? { return None; }
    var quad := ReadScope(s);
    if quad.None? { return None; }
    var ns := s.Numbers(V5Text.DEVIATION_LIMITS);
    if ns.None? { return None; }
    var token := s.NextToken();
    if token.None? { return None; }
    var phase := V5Text.ParsePhase(token.value);
    if phase.None? { return None; }
    var scope, at := GlobalScope, None;
    if quad.value.Some? { scope, at := QuadScope, Some(quad.value.value); }
    return Some(Deviation(ordinal.value[0], scope, at, ns.value[0], ns.value[1], ns.value[2], ns.value[3], phase.value));
  }

  method ReadDeviations(s: TokenStream, count: nat) returns (r: Option<seq<Deviation>>)
    modifies s
    ensures Agrees(V5Text.ParseDeviations(old(s.rest), 0, count), r, s.rest)
  {
    var deviations := [];
    PrependNone(V5Text.ParseDeviations(s.rest, 0, count));
    for index := 0 to count
      invariant V5Text.ParseDeviations(old(s.rest), 0, count)
             == Prepend(deviations, V5Text.ParseDeviations(s.rest, index, count))
    {
      var d := ReadDeviation(s);
      if d.None? || d.value.ordinal != index { return None; }
      PrependOne(deviations, d.value, V5Text.ParseDeviations(s.rest, index + 1, count));
      deviations := deviations + [d.value];
    }
    assert deviations + [] == deviations;
    return Some(deviations);
  }

  method ReadHistory(s: TokenStream, sums: V5Text.Sums) returns (r: Option<seq<Deviation>>)
    modifies s
    ensures Agrees(V5Text.ParseHistory(old(s.rest), sums), r, s.rest)
  {
    var count := s.Section("DEVIATIONS", [U32]);
    if count.None? || count.value[0] > MAXIMUM_DEVIATIONS { return None; }
    var deviations := ReadDeviations(s, count.value[0]);
    if deviations.None? { return None; }
    var keyword := s.ExpectToken("DEVIATIONS_CHECKSUM");
    if keyword.None? { return None; }
    r := CheckSum(s, deviations.value, sums.deviations(deviations.value));
  }

  method ReadEvidence(s: TokenStream, sums: V5Text.Sums) returns (r: Option<V5Text.Evidence>)
    modifies s
    ensures Agrees(V5Text.ParseEvidence(old(s.rest), sums), r, s.rest)
  {
    var ownership := ReadOwnership(s, sums);
    if ownership.None? { return None; }
    var snapshot := ReadSnapshot(s, sums);
    if snapshot.None? { return None; }
    var deviations := ReadHistory(s, sums);
    if deviations.None? { return None; }
    var sum := ReadEnd(s, "RECORD_CHECKSUM");
    if sum.None? { return None; }
    return Some(V5Text.Evidence(ownership.value, snapshot.value, deviations.value, sum.value));
  }

  method ReadData(s: TokenStream, sums: V5Text.Sums) returns (r: Option<Data>)
    modifies s
    ensures Agrees(V5Text.ParseData(old(s.rest), sums), r, s.rest)
  {
    var version := s.Section(MAGIC, [U32]);
    if version.None? || version.value[0] != 5 { return None; }
    var session := ReadSession(s, sums);
    if session.None? { return None; }
    var endpoint := ReadEndpoint(s, sums);
    if endpoint.None? { return None; }
    var identity := ReadIdentity(s, sums);
    if identity.None? { return None; }
    var e := ReadEvidence(s, sums);
    if e.None? { return None; }
    var data := Data(session.value.0, endpoint.value, identity.value, session.value.1,
                     e.value.ownership, e.value.snapshot, e.value.deviations);
    if e.value.sum != sums.record(data) { return None; }
    return Some(data);
  }

  /** ParseTunerRecoveryJournalV5: every serialized document is read back in its normal form. */
  method ReadDocument(tokens: seq<string>, sums: V5Text.Sums) returns (r: Option<V5Text.Document>)
    ensures r == V5Text.Parse(tokens, sums)
    ensures forall d: V5Text.Document | ValidData(d.data) && V5Text.SumsFit(d.data, sums)
                                        && V5Text.Serialize(d, sums) == Some(tokens) :: r == Some(V5Text.Normal(d))
  {
    forall d: V5Text.Document | ValidData(d.data) && V5Text.SumsFit(d.data, sums) && V5Text.Serialize(d, sums) == Some(tokens)
      ensures V5Text.Parse(tokens, sums) == Some(V5Text.Normal(d))
    {
      V5Text.DocumentRoundTrip(d, sums);
    }
    var s := new TokenStream(tokens);
    var data := ReadData(s, sums);
    if data.None? { return None; }
    var valid := V5Chain.ValidateData(data.value);
    if !valid { return None; }
    return Some(V5Text.Stored(data.value));
  }
}
