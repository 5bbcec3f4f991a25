/** Staging names and the discovery scan that must ignore them. */
module JournalDiscovery {
  import opened Words
  import opened Numerals

  const STAGING_PREFIX: string := ".fidget-journal-staging"

  /** IsJournalStagingEntry. */
  predicate IsStagingEntry(name: string) {
    || name == STAGING_PREFIX
    || (&& |name| > |STAGING_PREFIX| + 1
        && name[..|STAGING_PREFIX|] == STAGING_PREFIX && name[|STAGING_PREFIX|] == '.'
        && forall i | |STAGING_PREFIX| + 1 <= i < |name| :: IsDigit(name[i]))
  }

  function StagingName(attempt: nat): string {
    STAGING_PREFIX + if attempt == 0 then "" else "." + Decimal(attempt)
  }

  /** Discovery ignores nothing else than the prefix, alone or with a dot and a numeral. */
  lemma IgnoredExactly(name: string)
    ensures IsStagingEntry(name) <==>
            || name == STAGING_PREFIX
            || (|name| > |STAGING_PREFIX| && name[..|STAGING_PREFIX| + 1] == STAGING_PREFIX + "."
                && ParseDecimal(name[|STAGING_PREFIX| + 1..]).Some?)
  {
    var n := |STAGING_PREFIX|;
    if |name| > n {
      NumeralExactly(name[n + 1..]);
      assert name[..n + 1] == name[..n] + [name[n]];
      assert forall i | n + 1 <= i < |name| :: name[i] == name[n + 1..][i - n - 1];
    }
  }

  lemma {:induction false} NumeralExactly(s: string)
    ensures ParseDecimal(s).Some? <==> s != "" && forall i | 0 <= i < |s| :: IsDigit(s[i])
  {
    if |s| > 1 { NumeralExactly(s[..|s| - 1]); }
  }

  /** Discovery ignores every name the installer can stage under. */
  lemma StagingNameIgnored(attempt: nat)
    ensures IsStagingEntry(StagingName(attempt))
  {
  }

  /** The number of an attempt that a name ends with. */
  function AttemptOf(name: string): Option<nat>
    requires |name| >= |STAGING_PREFIX|
  {
    if |name| == |STAGING_PREFIX| then Some(0) else ParseDecimal(name[|STAGING_PREFIX| + 1..])
  }

  lemma AttemptRead(attempt: nat)
    ensures |StagingName(attempt)| >= |STAGING_PREFIX| && AttemptOf(StagingName(attempt)) == Some(attempt)
  {
    if attempt > 0 {
      DecimalRoundTrip(attempt);
      assert StagingName(attempt)[|STAGING_PREFIX| + 1..] == Decimal(attempt);
    }
  }

  lemma StagingNamesDiffer(j: nat, k: nat)
    requires j != k
    ensures StagingName(j) != StagingName(k)
  {
    AttemptRead(j);
    AttemptRead(k);
  }

  /** The scan: entries that are not staging leftovers. */
  method Scan(entries: seq<string>) returns (records: seq<string>)
    ensures records == Records(entries)
  {
    records := [];
    for i := 0 to |entries|
      invariant records == Records(entries[..i])
    {
      assert entries[..i + 1][..i] == entries[..i];
      if !IsStagingEntry(entries[i]) { records := records + [entries[i]]; }
    }
    assert entries[..|entries|] == entries;
  }

  function Records(entries: seq<string>): seq<string> {
    if entries == [] then []
    else
      var last := entries[|entries| - 1];
      Records(entries[..|entries| - 1]) + if IsStagingEntry(last) then [] else [last]
  }

  /** A directory of staging leftovers and at most one journal shows discovery the journal alone. */
  lemma {:induction false} OnlyTheJournal(entries: seq<string>, journal: string)
    requires !IsStagingEntry(journal)
    requires forall i | 0 <= i < |entries| :: entries[i] == journal || IsStagingEntry(entries[i])
    requires forall i, j | 0 <= i < j < |entries| :: entries[i] != entries[j]
    ensures Records(entries) == if journal in entries then [journal] else []
  {
    if entries != [] {
      var front, last := entries[..|entries| - 1], entries[|entries| - 1];
      OnlyTheJournal(front, journal);
      assert entries == front + [last];
    }
  }
}

/** The atomic installation of journal text, against a file system that can fail or crash at any step. */
module AtomicInstall {
  import opened Words
  import opened Crate
  import opened JournalDiscovery

  const MAXIMUM_COLLISIONS: nat := 64

  /** A file and whether its contents have reached the disk. */
  datatype File = File(text: string, synced: bool)

  datatype Mode = Upsert | Exclusive | ReplaceExisting

  datatype Creation = Created | Collision | Refused

  datatype Installation = Installed | AlreadyExists | NotInstalled

  /** The recovery directory. A crash may happen at any step, before or after its effect. */
  class Directory {
    /** The destination as processes see it, and as the disk last recorded the directory. */
    var entry: Option<File>
    var durable: Option<File>
    var temporary: Option<File>
    var staging: set<string>
    /** Texts that other processes have put at the destination. */
    ghost var others: set<string>
    /** How often another process has done so. */
    ghost var intrusions: nat
    /** Some existing destination has been replaced. */
    ghost var replaced: bool
    /** A step has failed or crashed so far; the removal of a workspace has failed so far. */
    ghost var faulty: bool
    ghost var littered: bool
    /** Steps other than such removals that have reported failure so far. */
    ghost var refusals: nat

    /** What the destination can hold after a crash now: the recorded or the current entry, and for a
        file that was not synchronized, anything. */
    ghost predicate MayHold(t: Option<string>)
      reads this`entry, this`durable
    {
      Yields(entry, t) || Yields(durable, t)
    }

    constructor ()
      ensures entry == None && durable == None && staging == {} && others == {} && intrusions == 0
      ensures !replaced && !faulty && !littered
    {
      entry, durable, temporary, staging, others, replaced := None, None, None, {}, {}, false;
      intrusions, faulty, littered, refusals := 0, false, false, 0;
    }

    /** Another process may create the destination while there is none. */
    method Interfere()
      modifies this`entry, this`others, this`intrusions
      ensures old(others) <= others
      ensures entry == old(entry) || (old(entry).None? && entry.Some? && entry.value.synced && entry.value.text in others)
      ensures entry == old(entry) ==> others == old(others) && intrusions == old(intrusions)
      ensures entry != old(entry) ==> others == old(others) + {entry.value.text} && intrusions == old(intrusions) + 1
    {
      var create: bool, text: string := *, *;
      if create && entry.None? {
        entry := Some(File(text, true));
        others, intrusions := others + {text}, intrusions + 1;
      }
    }

    method DestinationExists() returns (r: Step<Option<bool>>)
      modifies this`faulty, this`refusals
      ensures r.Done? && r.value.Some? ==> r.value.value == entry.Some?
      ensures old(faulty) ==> faulty
      ensures !faulty ==> r == Done(Some(entry.Some?))
      ensures r.Done? && r.value.Some? ==> refusals == old(refusals)
    {
      var readable: bool, crash: bool := *, *;
      faulty, refusals := faulty || crash || !readable, refusals + if readable then 0 else 1;
      r := if crash then Crashed else Done(if readable then Some(entry.Some?) else None);
    }

    method CreateDirectory(name: string) returns (r: Step<Creation>)
      modifies this`staging, this`faulty, this`refusals
      ensures r == Done(Created) ==> name !in old(staging) && staging == old(staging) + {name}
      ensures r == Done(Collision) ==> name in old(staging)
      ensures r.Done? && r.value != Created ==> staging == old(staging)
      ensures staging == old(staging) || staging == old(staging) + {name}
      ensures old(faulty) ==> faulty
      ensures !faulty ==> r == Done(if name in old(staging) then Collision else Created)
      ensures r.Done? && r.value != Refused ==> refusals == old(refusals)
    {
      var allowed: bool, crash: bool := *, *;
      faulty := faulty || crash || (name !in staging && !allowed);
      refusals := refusals + if name in staging || allowed then 0 else 1;
      if name in staging { return if crash then Crashed else Done(Collision); }
      if allowed { staging := staging + {name}; }
      r := if crash then Crashed else Done(if allowed then Created else Refused);
    }

    method SameFilesystem() returns (r: Step<bool>)
      modifies this`faulty, this`refusals
      ensures old(faulty) ==> faulty
      ensures !faulty ==> r == Done(true)
      ensures r == Done(true) ==> refusals == old(refusals)
    {
      var same: bool, crash: bool := *, *;
      faulty, refusals := faulty || crash || !same, refusals + if same then 0 else 1;
      r := if crash then Crashed else Done(same);
    }

    /** Open, write, flush, close: a failed write leaves anything. */
    method WriteTemporary(text: string) returns (r: Step<bool>)
      modifies this`temporary, this`faulty, this`refusals
      ensures r == Done(true) ==> temporary == Some(File(text, false))
      ensures old(faulty) ==> faulty
      ensures !faulty ==> r == Done(true)
      ensures r == Done(true) ==> refusals == old(refusals)
    {
      var written: bool, partial: Option<File>, crash: bool := *, *, *;
      faulty, refusals := faulty || crash || !written, refusals + if written then 0 else 1;
      temporary := if written then Some(File(text, false)) else partial;
      r := if crash then Crashed else Done(written);
    }

    method SyncTemporary() returns (r: Step<bool>)
      requires temporary.Some?
      modifies this`temporary, this`faulty, this`refusals
      ensures temporary.Some? && temporary.value.text == old(temporary.value.text)
      ensures r == Done(true) ==> temporary.value.synced
      ensures old(faulty) ==> faulty
      ensures !faulty ==> r == Done(true)
      ensures r == Done(true) ==> refusals == old(refusals)
    {
      var synced: bool, crash: bool := *, *;
      faulty, refusals := faulty || crash || !synced, refusals + if synced then 0 else 1;
      if synced { temporary := Some(temporary.value.(synced := true)); }
      r := if crash then Crashed else Done(synced);
    }

    /** A hard link never replaces. */
    method Link() returns (r: Step<Installation>)
      requires temporary.Some?
      modifies this`entry, this`faulty, this`refusals
      ensures old(faulty) ==> faulty
      ensures !faulty ==> r == Done(if old(entry).Some? then AlreadyExists else Installed)
      ensures r == Done(Installed) ==> refusals == old(refusals)
      ensures entry == old(entry) || (old(entry).None? && entry == temporary)
      ensures r == Done(Installed) ==> old(entry).None? && entry == temporary
      ensures r.Done? && r.value != Installed ==> entry == old(entry)
    {
      var allowed: bool, crash: bool := *, *;
      faulty := faulty || crash || (entry.None? && !allowed);
      refusals := refusals + if entry.None? && allowed then 0 else 1;
      if entry.Some? { return if crash then Crashed else Done(AlreadyExists); }
      if allowed { entry := temporary; }
      r := if crash then Crashed else Done(if allowed then Installed else NotInstalled);
    }

    /** A rename replaces in one step. */
    method Rename() returns (r: Step<Installation>)
      requires temporary.Some?
      modifies this`entry, this`temporary, this`replaced, this`faulty, this`refusals
      ensures old(faulty) ==> faulty
      ensures !faulty ==> r == Done(Installed)
      ensures r == Done(Installed) ==> refusals == old(refusals)
      ensures entry == old(entry) || entry == old(temporary)
      ensures r == Done(Installed) ==> entry == old(temporary)
      ensures r.Done? && r.value != Installed ==> entry == old(entry)
    {
      var allowed: bool, crash: bool := *, *;
      faulty, refusals := faulty || crash || !allowed, refusals + if allowed then 0 else 1;
      if allowed {
        replaced := replaced || entry.Some?;
        entry, temporary := temporary, None;
      }
      r := if crash then Crashed else Done(if allowed then Installed else NotInstalled);
    }

    /** Synchronizing the directory records its current entry; a failed attempt may have done so too. */
    method SyncDirectory() returns (r: Step<bool>)
      modifies this`durable, this`faulty, this`refusals
      ensures durable == old(durable) || durable == entry
      ensures r == Done(true) ==> durable == entry
      ensures old(faulty) ==> faulty
      ensures !faulty ==> r == Done(true)
      ensures r == Done(true) ==> refusals == old(refusals)
    {
      var synced: bool, effective: bool, crash: bool := *, *, *;
      faulty, refusals := faulty || crash || !synced, refusals + if synced then 0 else 1;
      if synced || effective { durable := entry; }
      r := if crash then Crashed else Done(synced);
    }

    /** Removal of the workspace is attempted, not checked. */
    method RemoveWorkspace(name: string) returns (r: Step<()>)
      modifies this`staging, this`temporary, this`faulty, this`littered
      ensures staging == old(staging) || staging == old(staging) - {name}
      ensures old(faulty) ==> faulty
      ensures old(littered) ==> littered
      ensures !littered ==> staging == old(staging) - {name}
      ensures !faulty ==> r == Done(())
    {
      var removed: bool, crash: bool := *, *;
      faulty, littered := faulty || crash, littered || !removed;
      if removed { staging, temporary := staging - {name}, None; }
      r := if crash then Crashed else Done(());
    }
  }

  predicate Yields(e: Option<File>, t: Option<string>) {
    match e
    case None => t == None
    case Some(f) => if f.synced then t == Some(f.text) else true
  }

  /** After any crash the destination holds what it could hold before, the new text, or another's text. */
  twostate predicate OldOrNew(d: Directory, text: string)
    reads d
  {
    && (forall t | d.MayHold(t) ::
          || Yields(old(d.entry), t) || Yields(old(d.durable), t)
          || t == Some(text) || (t.Some? && t.value in d.others))
    && (forall n | n in d.staging :: n in old(d.staging) || IsStagingEntry(n))
    && old(d.others) <= d.others
  }

  /** Some name that the installer would try is not taken. */
  ghost predicate NameFree(taken: set<string>) { exists k: nat | k < MAXIMUM_COLLISIONS :: StagingName(k) !in taken }

  function Names(n: nat): set<string> { set k: nat | k < n :: StagingName(k) }

  lemma {:induction false} NamesCounted(n: nat)
    ensures |Names(n)| == n
  {
    if n > 0 {
      var before: nat := n - 1;
      NamesCounted(before);
      NewName(before);
      assert Names(n) == Names(before) + {StagingName(before)};
    }
  }

  lemma NewName(n: nat)
    ensures StagingName(n) !in Names(n)
  {
    forall k: nat | k < n ensures StagingName(k) != StagingName(n) { StagingNamesDiffer(k, n); }
  }

  lemma {:induction false} SubsetCounted(s: set<string>, t: set<string>)
    requires s <= t
    ensures |s| <= |t|
  {
    assert t == s + (t - s);
  }

  /** Every crash leaves at most one workspace behind, and it takes sixty-four to use up the names. */
  lemma FewLeftovers(taken: set<string>)
    requires |taken| < MAXIMUM_COLLISIONS
    ensures NameFree(taken)
  {
    if !NameFree(taken) {
      NamesCounted(MAXIMUM_COLLISIONS);
      SubsetCounted(Names(MAXIMUM_COLLISIONS), taken);
      assert false;
    }
  }

  /** A fresh workspace, unless creation is refused or every candidate name is taken. */
  method AllocateWorkspace(d: Directory) returns (r: Step<Option<string>>)
    modifies d`staging, d`faulty, d`refusals
    ensures forall n | n in d.staging :: n in old(d.staging) || IsStagingEntry(n)
    ensures r.Done? && r.value.Some? ==>
              IsStagingEntry(r.value.value) && r.value.value !in old(d.staging) && d.staging == old(d.staging) + {r.value.value}
    ensures r == Done(None) ==> d.staging == old(d.staging)
    ensures old(d.faulty) ==> d.faulty
    ensures !d.faulty ==> r.Done? && (r.value.Some? <==> NameFree(old(d.staging)))
    ensures r.Done? && r.value.Some? ==> d.refusals == old(d.refusals)
  {
    for attempt := 0 to MAXIMUM_COLLISIONS
      invariant d.staging == old(d.staging) && d.refusals == old(d.refusals)
      invariant old(d.faulty) ==> d.faulty
      invariant forall k: nat | k < attempt :: StagingName(k) in d.staging
    {
      var name := StagingName(attempt);
      StagingNameIgnored(attempt);
      var created :- d.CreateDirectory(name);
      if created == Created { return Done(Some(name)); }
      if created == Refused { return Done(None); }
    }
    return Done(None);
  }

  /** Write and synchronize the temporary file in the workspace. */
  method StageText(d: Directory, text: string) returns (r: Step<bool>)
    modifies d`temporary, d`faulty, d`refusals
    ensures r == Done(true) ==> d.temporary == Some(File(text, true))
    ensures old(d.faulty) ==> d.faulty
    ensures !d.faulty ==> r == Done(true)
    ensures r == Done(true) ==> d.refusals == old(d.refusals)
  {
    var same :- d.SameFilesystem();
    if !same { return Done(false); }
    var written :- d.WriteTemporary(text);
    if !written { return Done(false); }
    var synced :- d.SyncTemporary();
    return Done(synced);
  }

  method Place(d: Directory, mode: Mode) returns (r: Step<Installation>)
    requires d.temporary.Some?
    modifies d`entry, d`temporary, d`replaced, d`faulty, d`refusals
    ensures old(d.faulty) ==> d.faulty
    ensures !d.faulty ==> r == Done(if mode == Exclusive && old(d.entry).Some? then AlreadyExists else Installed)
    ensures r == Done(Installed) ==> d.refusals == old(d.refusals)
    ensures d.entry == old(d.entry) || d.entry == old(d.temporary)
    ensures r == Done(Installed) ==> d.entry == old(d.temporary)
    ensures r.Done? && r.value != Installed ==> d.entry == old(d.entry)
    ensures mode == Exclusive ==> d.replaced == old(d.replaced) && (old(d.entry).Some? ==> d.entry == old(d.entry))
    ensures mode == Exclusive && r == Done(Installed) ==> old(d.entry).None?
  {
    if mode == Exclusive { r := d.Link(); } else { r := d.Rename(); }
  }

  datatype SaveResult = SaveResult(success: bool, installed: bool)

  const NOT_SAVED: SaveResult := SaveResult(false, false)

  /** The destination is as the mode wants it. */
  predicate Fits(mode: Mode, entry: Option<File>) {
    (mode == Exclusive ==> entry.None?) && (mode == ReplaceExisting ==> entry.Some?)
  }

  /** InstallSerializedJournalAtomically. Whatever fails and wherever it crashes, the destination holds a
      complete old text or the complete new one; success means the new text survives any later crash;
      exclusive mode replaces nothing; leftovers are entries that discovery ignores. When no step fails, the
      installation succeeds exactly if the destination fits the mode, some staging name is free, and no other
      process was faster to an exclusive destination. */
  method Install(d: Directory, text: string, mode: Mode) returns (r: Step<SaveResult>)
    modifies d
    ensures OldOrNew(d, text)
    ensures r.Done? && r.value.success ==> forall t :: d.MayHold(t) <==> t == Some(text)
    ensures r.Done? && r.value.success ==> r.value.installed
    ensures old(d.faulty) ==> d.faulty
    ensures !d.faulty ==>
              r == Done(if Fits(mode, old(d.entry)) && NameFree(old(d.staging)) && (mode == Exclusive ==> d.intrusions == old(d.intrusions))
                        then SaveResult(true, true) else NOT_SAVED)
    ensures r.Done? && !d.littered ==> d.staging == old(d.staging)
    ensures r.Done? && r.value.success ==> d.refusals == old(d.refusals)
    ensures r.Done? && !r.value.installed ==> d.durable == old(d.durable)
    ensures mode == Exclusive ==> d.replaced == old(d.replaced)
    ensures mode == Exclusive && r.Done? && r.value.installed ==> old(d.entry).None? && d.others == old(d.others)
    ensures mode == Exclusive && old(d.entry).Some? ==> d.entry == old(d.entry) && (r.Done? ==> r.value == NOT_SAVED)
    ensures mode == ReplaceExisting && old(d.entry).None? ==> d.entry == old(d.entry) && (r.Done? ==> r.value == NOT_SAVED)
  {
    var present :- d.DestinationExists();
    if present.None? { return Done(NOT_SAVED); }
    if mode == Exclusive && present.value { return Done(NOT_SAVED); }
    if mode == ReplaceExisting && !present.value { return Done(NOT_SAVED); }
    var workspace :- AllocateWorkspace(d);
    if workspace.None? { return Done(NOT_SAVED); }
    r := InstallFrom(d, workspace.value, text, mode);
  }

  /** The installation once it has a workspace. */
  method InstallFrom(d: Directory, workspace: string, text: string, mode: Mode) returns (r: Step<SaveResult>)
    modifies d
    ensures OldOrNew(d, text)
    ensures old(d.faulty) ==> d.faulty
    ensures r.Done? && r.value.success ==> (forall t :: d.MayHold(t) <==> t == Some(text)) && r.value.installed
    ensures r.Done? && r.value.success ==> d.refusals == old(d.refusals)
    ensures r.Done? && !r.value.installed ==> d.durable == old(d.durable)
    ensures mode == Exclusive ==> d.replaced == old(d.replaced)
    ensures mode == Exclusive && r.Done? && r.value.installed ==> old(d.entry).None? && d.others == old(d.others)
    ensures !d.faulty ==>
              r == Done(if mode == Exclusive && (old(d.entry).Some? || d.intrusions != old(d.intrusions)) then NOT_SAVED else SaveResult(true, true))
    ensures r.Done? && !d.littered ==> d.staging == old(d.staging) - {workspace}
  {
    var staged :- StageText(d, text);
    if !staged {
      var _ :- d.RemoveWorkspace(workspace);
      return Done(NOT_SAVED);
    }
    d.Interfere();
    var placed :- Place(d, mode);
    if placed != Installed {
      var _ :- d.RemoveWorkspace(workspace);
      return Done(NOT_SAVED);
    }
    var synced :- d.SyncDirectory();
    var _ :- d.RemoveWorkspace(workspace);
    return Done(SaveResult(synced, true));
  }
}
