/** Saving a record: serialization and atomic installation together. */
module JournalStore {
  import opened Words
  import opened RecoveryRecord
  import opened Crate
  import opened JournalTokens
  import opened JournalLayout
  import opened AtomicInstall
  import JournalText

  /** What loading a file with the given contents yields. */
  function Loaded(text: Option<string>, checksum: JournalText.Hashed -> nat): Option<Record> {
    if text.None? then None else JournalText.Parse(Split(text.value), checksum)
  }

  /** After any crash the destination holds a text it could hold before, another process's text, or one
      that loads as the saved record. */
  twostate predicate OldOrLoads(d: Directory, record: Record, checksum: JournalText.Hashed -> nat)
    reads d
  {
    forall t | d.MayHold(t) ::
      || Yields(old(d.entry), t) || Yields(old(d.durable), t) || (t.Some? && t.value in d.others)
      || (ValidRecord(record) && Loaded(t, checksum) == Some(JournalText.Normal(record)))
  }

  /** SaveTunerRecoveryJournal for versions 1 to 4, under any white-space layout of the text: an invalid
      record is refused untouched; whatever fails or crashes, a later load finds an old record or the new
      one; success means that every later load finds the new one; and when no step fails and a staging name is
      free, every valid record is saved. */
  method SaveRecord(d: Directory, record: Record, checksum: JournalText.Hashed -> nat, layout: nat -> string)
    returns (r: Step<bool>)
    requires forall h :: checksum(h) <= U64
    requires forall n :: |layout(n)| == n && AllSpaces(layout(n))
    modifies d
    ensures !ValidRecord(record) ==> r == Done(false) && d.entry == old(d.entry) && d.durable == old(d.durable)
    ensures OldOrLoads(d, record, checksum)
    ensures r == Done(true) ==>
              ValidRecord(record) && forall t | d.MayHold(t) :: Loaded(t, checksum) == Some(JournalText.Normal(record))
    ensures r == Done(true) ==> d.refusals == old(d.refusals)
    ensures old(d.faulty) ==> d.faulty
    ensures !d.faulty && NameFree(old(d.staging)) ==> r == Done(ValidRecord(record))
    ensures r.Done? && !d.littered ==> d.staging == old(d.staging)
  {
    var tokens := JournalText.Serialize(record, checksum);
    if tokens.None? { return Done(false); }
    var text := Lay(tokens.value, layout(|tokens.value|));
    RecordTextRoundTrip(record, checksum, layout(|tokens.value|));
    ghost var normal := JournalText.Normal(record);
    assert Loaded(Some(text), checksum) == Some(normal);
    var saved :- Install(d, text, Upsert);
    r := Done(saved.success);
  }
}
