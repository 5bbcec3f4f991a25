/** A concrete script environment: words split at white space, hexadecimal literals and nothing else. It
    reads literal text as the export lemmas require. */
module PlainScripts {
  import opened Words
  import opened Numerals
  import opened ScriptSyntax
  import opened LiteralScript
  import opened JournalLayout

  function Numeric(s: string): Option<u32> {
    match ParseHex(s)
    case None => None
    case Some(n) => if n < 0x1_0000_0000 then Some(n) else None
  }

  function PlainEnv(base: u32): Env {
    Env(base, (tables, line) => Prepared(true, Split(line), Split(line)), Numeric, Numeric)
  }

  lemma {:induction false} WholeWord(t: string)
    requires forall i | 0 <= i < |t| :: !IsSpace(t[i])
    ensures WordLength(t) == |t|
  {
    if t != "" { WholeWord(t[1..]); }
  }

  lemma {:induction false} SplitJoin(parts: seq<string>)
    requires AllWords(parts)
    ensures Split(Join(parts)) == parts
  {
    if |parts| == 1 {
      WholeWord(parts[0]);
      assert parts[0][..|parts[0]|] == parts[0] && parts[0][|parts[0]|..] == "";
      assert Split("") == [];
    } else if |parts| > 1 {
      SplitJoin(parts[1..]);
      SplitFirst(parts[0], ' ', Join(parts[1..]));
      assert Join(parts) == parts[0] + [' '] + Join(parts[1..]);
    }
  }

  lemma {:induction false} HexDigitsPrintable(v: nat, width: nat)
    ensures forall i | 0 <= i < width :: !IsSpace(HexDigits(v, width)[i])
  {
    if width > 0 { HexDigitsPrintable(v / 16, width - 1); }
  }

  lemma HexIsWord(v: u16)
    ensures IsWord(Hex16(v))
  {
    HexDigitsPrintable(v, 4);
  }

  lemma WriteLineSplits(reg: u16, value: u16)
    ensures Split(WriteLine(reg, value)) == WriteParts(reg, value)
  {
    HexIsWord(reg);
    HexIsWord(value);
    WordThen(Hex16(value), []);
    WordThen(Hex16(reg), [Hex16(value)]);
    WordThen("d16", [Hex16(reg), Hex16(value)]);
    WordThen("a32", ["d16", Hex16(reg), Hex16(value)]);
    WordThen("write", ["a32", "d16", Hex16(reg), Hex16(value)]);
    assert WriteParts(reg, value) == ["write"] + ["a32", "d16", Hex16(reg), Hex16(value)];
    SplitJoin(WriteParts(reg, value));
  }

  lemma SettleSplits()
    ensures Split(SETTLE) == SETTLE_PARTS
  {
    WordThen("1ms", []);
    WordThen("wait", ["1ms"]);
    assert SETTLE_PARTS == ["wait"] + ["1ms"];
    SplitJoin(SETTLE_PARTS);
  }

  /** The environment reads every printed line as its own tokens and every literal as its value. */
  lemma PlainReadsLiterals(base: u32)
    ensures ReadsLiterals(PlainEnv(base))
  {
    var env := PlainEnv(base);
    forall tables, reg: u16, value: u16
      ensures env.prepare(tables, WriteLine(reg, value)) == Prepared(true, WriteParts(reg, value), WriteParts(reg, value))
    {
      WriteLineSplits(reg, value);
    }
    SettleSplits();
  }
}
