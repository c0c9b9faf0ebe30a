/** Publication of several client configuration files as one transaction, with a journal that
    lets a later run finish or undo it after a crash. */
module ConfigPublication {
  import opened CrashDisk

  /** A configuration file, the journal, a numbered backup, or a numbered temporary file. */
  datatype Path =
    | Target(name: string)
    | JournalPath
    | Backup(of: Path, number: nat)
    | Temp(of: Path, number: nat)

  datatype Bytes = Text(text: string) | Encoded(journal: Journal)

  /** A digest stands for the bytes it was made from. */
  datatype Digest = Sha(content: Bytes)

  datatype JournalState = Prepared | Published

  datatype Journal = Journal(state: JournalState, entries: seq<Entry>)

  datatype Entry = Entry(target: Path, originalExists: bool, original: Digest, desired: Digest,
                         backup: Option<Path>, temp: Path)

  datatype Plan = Plan(name: string, originalExists: bool, originalText: string, nextText: string)

  /** How a call ended: normally, by an error, or because the process died in it. */
  datatype Ending = Done(found: bool) | Raised | Crashed

  function Broken(fate: Fate): Ending
    requires fate != Works
  {
    if fate == Dies then Crashed else Raised
  }

  type Files = map<Path, Bytes>

  /** What a target held when its entry was written. */
  function Original(e: Entry): Option<Bytes> {
    if e.originalExists then Some(e.original.content) else None
  }

  /** `_validate_publication_entry`. */
  predicate ValidEntry(e: Entry, allowed: set<string>) {
    && e.target.Target? && e.target.name in allowed
    && e.temp.Temp? && e.temp.of == e.target
    && (e.backup.Some? ==> e.backup.value.Backup? && e.backup.value.of == e.target)
  }

  predicate ValidJournal(j: Journal, allowed: set<string>) {
    j.entries != [] && forall i | 0 <= i < |j.entries| :: ValidEntry(j.entries[i], allowed)
  }

  predicate Below(p: Path, next: nat) {
    (p.Backup? || p.Temp?) ==> p.number < next
  }

  predicate EntriesBelow(entries: seq<Entry>, next: nat) {
    forall i | 0 <= i < |entries| ::
      Below(entries[i].temp, next) && (entries[i].backup.Some? ==> Below(entries[i].backup.value, next))
  }

  /** Random names are never used twice: every number on the disk or in a journal is below `next`. */
  predicate NamesBelow(files: Files, next: nat) {
    && (forall p | p in files :: Below(p, next))
    && (forall p | p in files && files[p].Encoded? :: EntriesBelow(files[p].journal.entries, next))
  }

  // ----- one entry of an interrupted publication -----

  predicate Between(files: Files, e: Entry) {
    At(files, e.target) == Original(e) || At(files, e.target) == Some(e.desired.content)
  }

  predicate Restorable(files: Files, e: Entry) {
    e.originalExists ==> e.backup.Some? && At(files, e.backup.value) == Some(e.original.content)
  }

  predicate TempFits(files: Files, e: Entry) {
    e.temp in files ==> files[e.temp] == e.desired.content
  }

  predicate RolledBack(files: Files, e: Entry) {
    At(files, e.target) == Original(e) && e.temp !in files
  }

  predicate RolledForward(files: Files, e: Entry) {
    At(files, e.target) == Some(e.desired.content) && e.temp !in files
  }

  predicate Recoverable(files: Files, state: JournalState, e: Entry) {
    && TempFits(files, e)
    && match state
       case Prepared => Between(files, e) && Restorable(files, e)
       case Published => At(files, e.target) == Some(e.desired.content)
  }

  predicate OneTargetEach(entries: seq<Entry>) {
    forall i, j | 0 <= i < j < |entries| :: entries[i].target != entries[j].target
  }

  /** The disk holds this journal, and every entry can be brought to the journal's end. */
  predicate Pending(files: Files, allowed: set<string>, j: Journal) {
    && At(files, JournalPath) == Some(Encoded(j))
    && ValidJournal(j, allowed) && OneTargetEach(j.entries)
    && forall i | 0 <= i < |j.entries| :: Recoverable(files, j.state, j.entries[i])
  }

  predicate Closed(files: Files, state: JournalState, e: Entry) {
    match state
    case Prepared => RolledBack(files, e)
    case Published => RolledForward(files, e)
  }

  /** The transaction is over: all entries undone, or all carried out. */
  predicate Finished(files: Files, j: Journal) {
    JournalPath !in files && forall i | 0 <= i < |j.entries| :: Closed(files, j.state, j.entries[i])
  }

  // ----- what recovery may overwrite or remove -----

  predicate OwnedBy(e: Entry, p: Path, content: Bytes) {
    || (e.target == p && (content == e.desired.content || Original(e) == Some(content)))
    || (e.temp == p && content == e.desired.content)
  }

  ghost predicate Owned(entries: seq<Entry>, p: Path, content: Bytes) {
    exists i :: 0 <= i < |entries| && OwnedBy(entries[i], p, content)
  }

  /** Every file that was overwritten or removed was the journal, or held what the transaction
      itself knows: the original or desired bytes of a target, or the bytes it staged. */
  ghost predicate Spared(before: Files, after: Files, entries: seq<Entry>) {
    forall p | p in before && At(after, p) != Some(before[p]) :: p == JournalPath || Owned(entries, p, before[p])
  }

  /** A path that neither the journal's entries nor the new names of a call can touch. */
  predicate Apart(p: Path, entries: seq<Entry>, next: nat) {
    && p != JournalPath && Below(p, next)
    && forall i | 0 <= i < |entries| :: p != entries[i].target && p != entries[i].temp
  }

  ghost predicate Frame(before: Files, after: Files, entries: seq<Entry>, next: nat) {
    forall p | Apart(p, entries, next) :: At(after, p) == At(before, p)
  }

  lemma SparedThen(f: Files, g: Files, h: Files, entries: seq<Entry>)
    requires Spared(f, g, entries) && Spared(g, h, entries)
    ensures Spared(f, h, entries)
  {
    hide Owned;
  }

  /** Only the places of one entry changed, apart from new temporary files. */
  predicate OnlyEntry(before: Files, after: Files, e: Entry, next: nat) {
    && (forall p | p in before && p != e.target && p != e.temp :: p in after && after[p] == before[p])
    && (forall p | p in after && p !in before && p != e.target :: p.Temp? && p.number >= next)
    && (forall p | p in before && At(after, p) != Some(before[p]) :: OwnedBy(e, p, before[p]))
  }

  /** The second disk is the first with one more temporary file. */
  predicate Residue(before: Files, after: Files, temporary: Path) {
    temporary in after && after == before[temporary := after[temporary]]
  }

  lemma OtherEntryKept(before: Files, after: Files, e: Entry, other: Entry, next: nat, allowed: set<string>)
    requires OnlyEntry(before, after, e, next) && ValidEntry(e, allowed) && ValidEntry(other, allowed)
    requires EntriesBelow([other], next) && e.target != other.target
    ensures forall state :: Recoverable(after, state, other) <==> Recoverable(before, state, other)
    ensures forall state :: Closed(after, state, other) <==> Closed(before, state, other)
    ensures Ready(after, other) <==> Ready(before, other)
  {
    assert EntriesBelow([other], next) ==> Below([other][0].temp, next);
    if other.backup.Some? {
      assert Below([other][0].backup.value, next);
    }
  }

  /** Handling entry `i` keeps what recovery promises about the whole disk. */
  lemma EntryStep(start: Files, before: Files, after: Files, j: Journal, i: nat, allowed: set<string>, first: nat,
                  next: nat)
    requires ValidJournal(j, allowed) && EntriesBelow(j.entries, next) && i < |j.entries| && first <= next
    requires OnlyEntry(before, after, j.entries[i], next)
    requires Spared(start, before, j.entries) && Frame(start, before, j.entries, first)
    ensures Spared(start, after, j.entries) && Frame(start, after, j.entries, first)
    ensures At(after, JournalPath) == At(before, JournalPath)
  {
    var e := j.entries[i];
    assert ValidEntry(e, allowed);
    assert Spared(before, after, j.entries);
    SparedThen(start, before, after, j.entries);
    forall p | Apart(p, j.entries, first)
      ensures At(after, p) == At(before, p)
    {
    }
  }

  /** Handling entry `i` neither reopens nor spoils any other entry. */
  lemma OthersKept(before: Files, after: Files, j: Journal, i: nat, allowed: set<string>, next: nat)
    requires ValidJournal(j, allowed) && EntriesBelow(j.entries, next) && i < |j.entries| && OneTargetEach(j.entries)
    requires OnlyEntry(before, after, j.entries[i], next)
    ensures forall k | 0 <= k < |j.entries| && k != i && Closed(before, j.state, j.entries[k]) ::
              Closed(after, j.state, j.entries[k])
    ensures Pending(before, allowed, j) && Recoverable(after, j.state, j.entries[i]) ==> Pending(after, allowed, j)
  {
    hide Closed, Recoverable, OnlyEntry;
    forall k | 0 <= k < |j.entries| && k != i
      ensures Closed(before, j.state, j.entries[k]) ==> Closed(after, j.state, j.entries[k])
      ensures Recoverable(before, j.state, j.entries[k]) ==> Recoverable(after, j.state, j.entries[k])
    {
      assert ValidEntry(j.entries[k], allowed) && ValidEntry(j.entries[i], allowed);
      OtherEntryKept(before, after, j.entries[i], j.entries[k], next, allowed);
    }
    JournalKept(before, after, j, i, allowed, next);
  }

  lemma OthersForward(before: Files, after: Files, j: Journal, i: nat, allowed: set<string>, next: nat)
    requires ValidJournal(j, allowed) && EntriesBelow(j.entries, next) && i < |j.entries| && OneTargetEach(j.entries)
    requires OnlyEntry(before, after, j.entries[i], next)
    ensures forall k | 0 <= k < |j.entries| && k != i && RolledForward(before, j.entries[k]) ::
              RolledForward(after, j.entries[k])
    ensures AllReady(before, j.entries, i) ==> AllReady(after, j.entries, i + 1)
    ensures AllReady(before, j.entries, i) ==> Ready(before, j.entries[i])
  {
    hide Recoverable, OnlyEntry, Ready;
    forall k | 0 <= k < |j.entries| && k != i
      ensures RolledForward(before, j.entries[k]) ==> RolledForward(after, j.entries[k])
      ensures Ready(before, j.entries[k]) ==> Ready(after, j.entries[k])
    {
      assert ValidEntry(j.entries[k], allowed) && ValidEntry(j.entries[i], allowed);
      OtherEntryKept(before, after, j.entries[i], j.entries[k], next, allowed);
      assert Closed(before, Published, j.entries[k]) <==> RolledForward(before, j.entries[k]);
    }
  }

  lemma JournalKept(before: Files, after: Files, j: Journal, i: nat, allowed: set<string>, next: nat)
    requires ValidJournal(j, allowed) && i < |j.entries| && OnlyEntry(before, after, j.entries[i], next)
    ensures At(after, JournalPath) == At(before, JournalPath)
  {
    assert ValidEntry(j.entries[i], allowed);
  }

  /** Handling entry `i` keeps all that the loop over the entries relies on. */
  lemma AfterEntry(start: Files, before: Files, after: Files, j: Journal, i: nat, allowed: set<string>, first: nat,
                   next: nat)
    requires ValidJournal(j, allowed) && EntriesBelow(j.entries, first) && i < |j.entries| && first <= next
    requires OnlyEntry(before, after, j.entries[i], next)
    requires Spared(start, before, j.entries) && Frame(start, before, j.entries, first)
    ensures Spared(start, after, j.entries) && Frame(start, after, j.entries, first)
    ensures At(after, JournalPath) == At(before, JournalPath)
    ensures OneTargetEach(j.entries) ==>
              forall k | 0 <= k < |j.entries| && k != i && Closed(before, j.state, j.entries[k]) ::
                Closed(after, j.state, j.entries[k])
    ensures Pending(before, allowed, j) && Recoverable(after, j.state, j.entries[i]) ==> Pending(after, allowed, j)
    ensures Pending(before, allowed, j) ==> Recoverable(before, j.state, j.entries[i])
  {
    hide Spared, Frame, OnlyEntry, Closed, Recoverable, EntriesBelow;
    BelowLater(j.entries, first, next);
    EntryStep(start, before, after, j, i, allowed, first, next);
    if OneTargetEach(j.entries) {
      OthersKept(before, after, j, i, allowed, next);
    }
  }

  lemma ClosedIs(files: Files, e: Entry)
    ensures Closed(files, Prepared, e) <==> RolledBack(files, e)
    ensures Closed(files, Published, e) <==> RolledForward(files, e)
  {
  }

  lemma PendingJournal(files: Files, j: Journal, allowed: set<string>)
    requires Pending(files, allowed, j)
    ensures At(files, JournalPath) == Some(Encoded(j))
  {
  }

  lemma InvalidIsNotPending(files: Files, j: Journal, allowed: set<string>)
    requires !ValidJournal(j, allowed)
    ensures !Pending(files, allowed, j)
  {
  }

  /** Removing the journal ends the transaction, and is all that is left to do. */
  lemma JournalRemoved(start: Files, before: Files, after: Files, j: Journal, allowed: set<string>, first: nat)
    requires At(before, JournalPath) == Some(Encoded(j)) && ValidJournal(j, allowed)
    requires Spared(start, before, j.entries) && Frame(start, before, j.entries, first)
    requires OneTargetEach(j.entries) ==>
               forall k | 0 <= k < |j.entries| :: Closed(before, j.state, j.entries[k])
    requires after == before || after == before - {JournalPath}
    ensures Spared(start, after, j.entries) && Frame(start, after, j.entries, first)
    ensures JournalPath !in after && OneTargetEach(j.entries) ==> Finished(after, j)
    ensures JournalPath in after ==> after == before
  {
    hide Owned;
    forall k | 0 <= k < |j.entries|
      ensures Closed(before, j.state, j.entries[k]) ==> Closed(after, j.state, j.entries[k])
    {
      assert ValidEntry(j.entries[k], allowed);
    }
    hide Closed;
  }

  lemma SparedAtStart(files: Files, entries: seq<Entry>, next: nat)
    ensures Spared(files, files, entries) && Frame(files, files, entries, next)
  {
  }

  lemma ValidAt(j: Journal, i: nat, allowed: set<string>)
    requires ValidJournal(j, allowed) && i < |j.entries|
    ensures ValidEntry(j.entries[i], allowed)
  {
  }

  lemma BelowLater(entries: seq<Entry>, first: nat, next: nat)
    requires EntriesBelow(entries, first) && first <= next
    ensures EntriesBelow(entries, next)
    ensures forall i | 0 <= i < |entries| :: EntriesBelow([entries[i]], next)
  {
  }

  // ----- staging -----

  predicate NoDuplicates(plans: seq<Plan>) {
    forall i, j | 0 <= i < j < |plans| :: plans[i].name != plans[j].name
  }

  /** Nothing changed but that files with new numbered names appeared. */
  predicate OnlyNew(before: Files, after: Files, next: nat) {
    && (forall p | p in before :: p in after && after[p] == before[p])
    && (forall p | p in after && p !in before :: (p.Temp? || p.Backup?) && p.number >= next)
  }

  /** The entries describe the first `n` plans over the disk `start`. */
  predicate Describes(entries: seq<Entry>, plans: seq<Plan>, start: Files, n: nat) {
    && |entries| == n <= |plans|
    && forall i | 0 <= i < n ::
         && entries[i].target == Target(plans[i].name)
         && Original(entries[i]) == At(start, entries[i].target)
         && entries[i].desired == Sha(Text(plans[i].nextText))
  }

  predicate Staged(files: Files, e: Entry) {
    Restorable(files, e) && At(files, e.temp) == Some(e.desired.content)
  }

  /** The entry is staged and its target untouched. */
  predicate Ready(files: Files, e: Entry) {
    Staged(files, e) && At(files, e.target) == Original(e)
  }

  predicate AllReady(files: Files, entries: seq<Entry>, first: nat) {
    forall k | first <= k < |entries| :: Ready(files, entries[k])
  }

  // ----- the whole transaction -----

  /** No journal, and every target holds what it held at the start. */
  ghost predicate NonePublished(start: Files, files: Files) {
    JournalPath !in files && forall name :: At(files, Target(name)) == At(start, Target(name))
  }

  predicate Planned(plans: seq<Plan>, name: string) {
    exists i :: 0 <= i < |plans| && plans[i].name == name
  }

  /** No journal, every planned target holds its next text, and no other target changed. */
  ghost predicate AllPublished(start: Files, files: Files, plans: seq<Plan>) {
    && JournalPath !in files
    && (forall i | 0 <= i < |plans| :: At(files, Target(plans[i].name)) == Some(Text(plans[i].nextText)))
    && (forall name | !Planned(plans, name) :: At(files, Target(name)) == At(start, Target(name)))
  }

  /** A journal of these plans is on the disk, can be brought to its end, and no other target changed. */
  ghost predicate Interrupted(start: Files, files: Files, plans: seq<Plan>, allowed: set<string>, j: Journal) {
    && Pending(files, allowed, j)
    && Describes(j.entries, plans, start, |plans|)
    && (forall name | !Planned(plans, name) :: At(files, Target(name)) == At(start, Target(name)))
  }

  lemma StagedIsNone(start: Files, staged: Files, first: nat)
    requires OnlyNew(start, staged, first) && JournalPath !in start
    ensures NonePublished(start, staged)
  {
  }

  /** Writing the prepared journal either takes effect or leaves nothing but a temporary file. */
  lemma StartsPending(start: Files, staged: Files, files: Files, plans: seq<Plan>, j: Journal, allowed: set<string>,
                      first: nat, number: nat)
    requires OnlyNew(start, staged, first) && JournalPath !in start
    requires files == staged[JournalPath := Encoded(j)] || files == staged
             || Residue(staged, files, Temp(JournalPath, number))
    requires j.state == Prepared && plans != [] && NoDuplicates(plans)
    requires Describes(j.entries, plans, start, |plans|)
    requires forall i | 0 <= i < |j.entries| :: ValidEntry(j.entries[i], allowed)
    requires AllReady(staged, j.entries, 0)
    ensures JournalPath in files ==> Interrupted(start, files, plans, allowed, j) && AllReady(files, j.entries, 0)
    ensures JournalPath !in files ==> NonePublished(start, files)
  {
    forall i | 0 <= i < |j.entries|
      ensures JournalPath in files ==> Recoverable(files, Prepared, j.entries[i]) && Ready(files, j.entries[i])
    {
      var e := j.entries[i];
      assert ValidEntry(e, allowed) && Ready(staged, e);
    }
    hide Recoverable, Ready;
    forall i, k | 0 <= i < k < |j.entries|
      ensures j.entries[i].target != j.entries[k].target
    {
      assert plans[i].name != plans[k].name;
    }
  }

  lemma InterruptedNow(start: Files, before: Files, after: Files, plans: seq<Plan>, j: Journal, allowed: set<string>,
                       next: nat)
    requires Interrupted(start, before, plans, allowed, j) && Pending(after, allowed, j)
    requires Frame(before, after, j.entries, next)
    ensures Interrupted(start, after, plans, allowed, j)
  {
    hide Recoverable, Frame;
    assert forall i | 0 <= i < |j.entries| :: ValidEntry(j.entries[i], allowed);
    FrameTargets(before, after, j.entries, next);
    forall name | !Planned(plans, name)
      ensures At(after, Target(name)) == At(start, Target(name))
    {
      UnplannedApart(start, plans, j, allowed, name, next);
    }
  }

  lemma FrameTargets(before: Files, after: Files, entries: seq<Entry>, next: nat)
    requires Frame(before, after, entries, next)
    ensures forall name | Apart(Target(name), entries, next) :: At(after, Target(name)) == At(before, Target(name))
  {
  }

  lemma InterruptedIsPending(start: Files, files: Files, plans: seq<Plan>, j: Journal, allowed: set<string>)
    requires Interrupted(start, files, plans, allowed, j)
    ensures Pending(files, allowed, j) && LeftBehind(start, files, plans, allowed, Some(j))
  {
  }

  lemma UnplannedApart(start: Files, plans: seq<Plan>, j: Journal, allowed: set<string>, name: string, next: nat)
    requires Describes(j.entries, plans, start, |plans|) && !Planned(plans, name)
    requires forall i | 0 <= i < |j.entries| :: j.entries[i].temp.Temp?
    ensures Apart(Target(name), j.entries, next)
  {
    forall i | 0 <= i < |j.entries|
      ensures j.entries[i].target != Target(name)
    {
      assert plans[i].name != name;
    }
  }

  lemma InterruptedResidue(start: Files, before: Files, after: Files, plans: seq<Plan>, j: Journal,
                           allowed: set<string>, number: nat)
    requires Interrupted(start, before, plans, allowed, j)
    requires after == before || Residue(before, after, Temp(JournalPath, number))
    ensures Interrupted(start, after, plans, allowed, j)
  {
    forall i | 0 <= i < |j.entries|
      ensures Recoverable(after, j.state, j.entries[i])
    {
      assert Recoverable(before, j.state, j.entries[i]) && ValidEntry(j.entries[i], allowed);
    }
    hide Recoverable;
  }

  /** Writing the published journal either takes effect or leaves the prepared one. */
  lemma BecomesPublished(start: Files, before: Files, after: Files, plans: seq<Plan>, j: Journal, allowed: set<string>,
                         number: nat)
    requires Interrupted(start, before, plans, allowed, j)
    requires forall k | 0 <= k < |j.entries| :: RolledForward(before, j.entries[k])
    requires after == before[JournalPath := Encoded(j.(state := Published))] || after == before
             || Residue(before, after, Temp(JournalPath, number))
    ensures if At(after, JournalPath) == Some(Encoded(j.(state := Published)))
            then Interrupted(start, after, plans, allowed, j.(state := Published))
            else Interrupted(start, after, plans, allowed, j)
  {
    if after == before || Residue(before, after, Temp(JournalPath, number)) {
      InterruptedResidue(start, before, after, plans, j, allowed, number);
    }
    forall i | 0 <= i < |j.entries|
      ensures At(after, JournalPath) == Some(Encoded(j.(state := Published))) ==>
                Recoverable(after, Published, j.entries[i])
    {
      assert RolledForward(before, j.entries[i]) && ValidEntry(j.entries[i], allowed);
    }
    hide Recoverable;
  }

  /** Undone, the plans have left no trace on the targets; carried out, all of them hold. */
  lemma FinishedMeans(start: Files, before: Files, after: Files, plans: seq<Plan>, j: Journal, allowed: set<string>,
                      next: nat)
    requires Interrupted(start, before, plans, allowed, j)
    requires Finished(after, j) && Frame(before, after, j.entries, next)
    ensures j.state == Prepared ==> NonePublished(start, after)
    ensures j.state == Published ==> AllPublished(start, after, plans)
  {
    forall name
      ensures !Planned(plans, name) ==> At(after, Target(name)) == At(start, Target(name))
      ensures Planned(plans, name) && j.state == Prepared ==> At(after, Target(name)) == At(start, Target(name))
    {
      if !Planned(plans, name) {
        UnplannedApart(start, plans, j, allowed, name, next);
      } else {
        var i :| 0 <= i < |plans| && plans[i].name == name;
        assert Closed(after, j.state, j.entries[i]);
      }
    }
    hide Pending, Frame;
    forall i | 0 <= i < |plans|
      ensures j.state == Published ==> At(after, Target(plans[i].name)) == Some(Text(plans[i].nextText))
    {
      assert Closed(after, j.state, j.entries[i]);
    }
  }

  /** The three states a publication can leave: none, all, or interrupted with a journal. */
  ghost predicate LeftBehind(start: Files, files: Files, plans: seq<Plan>, allowed: set<string>,
                             journal: Option<Journal>)
  {
    match journal
    case None => NonePublished(start, files)
    case Some(j) =>
      Describes(j.entries, plans, start, |plans|)
      && if JournalPath in files then Interrupted(start, files, plans, allowed, j)
         else Finished(files, j) && if j.state == Prepared then NonePublished(start, files)
                                    else AllPublished(start, files, plans)
  }

  /** What a recovery makes of an interrupted publication. */
  lemma EarlierOutcome(start: Files, before: Files, after: Files, plans: seq<Plan>, j: Journal, allowed: set<string>,
                       next: nat)
    requires Interrupted(start, before, plans, allowed, j) && Frame(before, after, j.entries, next)
    requires Pending(after, allowed, j) || Finished(after, j)
    ensures LeftBehind(start, after, plans, allowed, Some(j))
  {
    hide Frame, Recoverable, ValidJournal, OneTargetEach;
    if JournalPath in after {
      InterruptedNow(start, before, after, plans, j, allowed, next);
    } else {
      FinishedMeans(start, before, after, plans, j, allowed, next);
    }
  }

  lemma JournalMeansInterrupted(start: Files, files: Files, plans: seq<Plan>, allowed: set<string>,
                                journal: Option<Journal>)
    requires JournalPath in files && LeftBehind(start, files, plans, allowed, journal)
    ensures journal.Some? && Interrupted(start, files, plans, allowed, journal.value)
  {
  }

  predicate Publishable(plans: seq<Plan>, allowed: set<string>) {
    NoDuplicates(plans) && forall i | 0 <= i < |plans| :: plans[i].name in allowed
  }

  /** The plan was made from what its target holds. */
  predicate Fits(plan: Plan, files: Files) {
    && plan.originalExists == (Target(plan.name) in files)
    && Text(plan.originalText) == (if Target(plan.name) in files then files[Target(plan.name)] else Text(""))
  }

  predicate UpToDate(plans: seq<Plan>, files: Files) {
    forall i | 0 <= i < |plans| :: Fits(plans[i], files)
  }

  /** Some target is no longer what its plan was made from. */
  predicate Stale(plans: seq<Plan>, files: Files) {
    exists i :: 0 <= i < |plans| &&
      At(files, Target(plans[i].name)) != if plans[i].originalExists then Some(Text(plans[i].originalText)) else None
  }

  /** Every file but the planned targets and the journal is as before; new ones may have appeared. */
  ghost predicate BystandersKept(before: Files, after: Files, plans: seq<Plan>) {
    forall p | p in before && p != JournalPath && !(p.Target? && Planned(plans, p.name)) ::
      At(after, p) == Some(before[p])
  }

  /** Every target that existed has a backup of what it held. */
  ghost predicate BackedUp(start: Files, files: Files, plans: seq<Plan>) {
    forall i | 0 <= i < |plans| && Target(plans[i].name) in start ::
      exists n :: At(files, Backup(Target(plans[i].name), n)) == Some(start[Target(plans[i].name)])
  }

  /** The staged files and backups of the entries have names that are new. */
  predicate NewNames(entries: seq<Entry>, files: Files) {
    forall i | 0 <= i < |entries| ::
      entries[i].temp !in files && (entries[i].backup.Some? ==> entries[i].backup.value !in files)
  }

  lemma UnusedName(files: Files, next: nat, p: Path)
    requires NamesBelow(files, next) && (p.Temp? || p.Backup?) && p.number >= next
    ensures p !in files
  {
  }

  lemma OnlyNewKeeps(before: Files, after: Files, plans: seq<Plan>, next: nat)
    requires OnlyNew(before, after, next)
    ensures BystandersKept(before, after, plans)
  {
  }

  lemma FrameThen(f: Files, g: Files, h: Files, entries: seq<Entry>, first: nat, next: nat)
    requires Frame(f, g, entries, first) && Frame(g, h, entries, next) && first <= next
    ensures Frame(f, h, entries, first)
  {
    forall p | Apart(p, entries, first)
      ensures At(h, p) == At(f, p)
    {
      assert Apart(p, entries, next);
    }
  }

  lemma JournalFrame(before: Files, after: Files, entries: seq<Entry>, content: Bytes, next: nat)
    requires || after == before || after == before[JournalPath := content]
             || Residue(before, after, Temp(JournalPath, next))
    ensures Frame(before, after, entries, next)
  {
  }

  lemma BystandersStand(start: Files, staged: Files, after: Files, plans: seq<Plan>, entries: seq<Entry>, first: nat,
                        next: nat)
    requires OnlyNew(start, staged, first) && Frame(staged, after, entries, next) && NamesBelow(staged, next)
    requires |entries| == |plans| && NewNames(entries, start)
    requires forall i | 0 <= i < |entries| :: entries[i].target == Target(plans[i].name)
    ensures BystandersKept(start, after, plans)
  {
    forall p | p in start && p != JournalPath && !(p.Target? && Planned(plans, p.name))
      ensures At(after, p) == Some(start[p])
    {
      forall i | 0 <= i < |entries|
        ensures p != entries[i].target && p != entries[i].temp
      {
        assert p.Target? ==> plans[i].name != p.name;
      }
      assert Apart(p, entries, next);
    }
  }

  lemma BackupsStand(start: Files, staged: Files, after: Files, plans: seq<Plan>, entries: seq<Entry>,
                     allowed: set<string>, next: nat)
    requires Describes(entries, plans, start, |plans|) && NamesBelow(staged, next)
    requires Frame(staged, after, entries, next)
    requires forall i | 0 <= i < |entries| :: ValidEntry(entries[i], allowed) && Ready(staged, entries[i])
    ensures BackedUp(start, after, plans)
  {
    forall i | 0 <= i < |plans| && Target(plans[i].name) in start
      ensures exists n :: At(after, Backup(Target(plans[i].name), n)) == Some(start[Target(plans[i].name)])
    {
      var e := entries[i];
      assert ValidEntry(e, allowed) && Ready(staged, e);
      var b := e.backup.value;
      assert b in staged && Below(b, next);
      forall k | 0 <= k < |entries|
        ensures b != entries[k].target && b != entries[k].temp
      {
        assert ValidEntry(entries[k], allowed);
      }
      assert Apart(b, entries, next);
      assert b == Backup(Target(plans[i].name), b.number);
    }
  }

  lemma StageStep(start: Files, before: Files, after: Files, entries: seq<Entry>, e: Entry, plans: seq<Plan>, i: nat,
                  first: nat, was: nat, next: nat, allowed: set<string>)
    requires OnlyNew(start, before, first) && OnlyNew(before, after, was) && first <= was <= next
    requires i < |plans| && Describes(entries, plans, start, i) && EntriesBelow(entries, was)
    requires forall k | 0 <= k < |entries| :: ValidEntry(entries[k], allowed)
    requires forall k | 0 <= k < |entries| :: Ready(before, entries[k])
    ensures OnlyNew(start, after, first)
    ensures forall k | 0 <= k < |entries| :: Ready(after, entries[k])
    ensures EntriesBelow(entries, next)
    ensures Fits(plans[i], before) <==> Fits(plans[i], start)
    ensures Describes([e], [plans[i]], before, 1) && EntriesBelow([e], next) ==>
              Describes(entries + [e], plans, start, i + 1) && EntriesBelow(entries + [e], next)
  {
    forall k | 0 <= k < |entries|
      ensures Ready(after, entries[k])
    {
      assert ValidEntry(entries[k], allowed) && Ready(before, entries[k]);
    }
    hide Ready, ValidEntry;
    assert Target(plans[i].name) in before <==> Target(plans[i].name) in start;
    if Describes([e], [plans[i]], before, 1) && EntriesBelow([e], next) {
      assert [e][0] == e && [plans[i]][0] == plans[i];
    }
  }

  class Publisher {
    const disk: Disk<Path, Bytes>
    var next: nat

    ghost predicate Valid()
      reads this, disk
    {
      NamesBelow(disk.files, next)
    }

    constructor (disk: Disk<Path, Bytes>, next: nat)
      requires NamesBelow(disk.files, next)
      ensures this.disk == disk && this.next == next && Valid()
    {
      this.disk, this.next := disk, next;
    }

    /** Gives up a temporary file after an operation on it did not work. */
    method Abandon(temporary: Path, broken: Fate) returns (fate: Fate)
      requires Valid() && broken != Works
      modifies disk
      ensures Valid() && fate != Works && (Calm(old(disk.fates)) ==> Calm(disk.fates))
      ensures disk.files == old(disk.files) || disk.files == old(disk.files) - {temporary}
    {
      hide Calm, First, Rest;
      fate := broken;
      if broken == Fails {
        fate := disk.Unlink(temporary);
        fate := if fate == Dies then Dies else Fails;
      }
    }

    /** `_atomic_private_payload`: writes a temporary file and moves it over the path. */
    method AtomicPayload(path: Path, payload: Bytes) returns (fate: Fate)
      requires Valid() && Below(path, next)
      requires payload.Encoded? ==> EntriesBelow(payload.journal.entries, next)
      modifies this, disk
      ensures Valid() && next == old(next) + 1
      ensures Calm(old(disk.fates)) ==> fate == Works && Calm(disk.fates)
      ensures fate == Works ==> disk.files == old(disk.files)[path := payload]
      ensures fate != Works ==>
                || disk.files == old(disk.files)
                || Residue(old(disk.files), disk.files, Temp(path, old(next)))
                || disk.files == old(disk.files)[path := payload]
    {
      hide Calm, First, Rest;
      var temporary := Temp(path, next);
      assert temporary !in disk.files;
      next := next + 1;
      fate := disk.Write(temporary, Text(""));
      if fate != Works {
        return;
      }
      fate := disk.Write(temporary, payload);
      if fate != Works {
        fate := Abandon(temporary, fate);
        assert temporary !in disk.files ==> disk.files == old(disk.files);
        return;
      }
      fate := disk.Replace(temporary, path);
      if fate != Works {
        fate := Abandon(temporary, fate);
        assert temporary !in disk.files ==> disk.files == old(disk.files);
        return;
      }
      assert disk.files == old(disk.files)[path := payload];
      fate := disk.Sync();
    }

    /** `_safe_unlink_private` of a file whose content was checked. */
    method UnlinkPrivate(p: Path) returns (fate: Fate)
      requires Valid()
      modifies disk
      ensures Valid() && (Calm(old(disk.fates)) ==> fate == Works && Calm(disk.fates))
      ensures disk.files == old(disk.files) - {p} || (fate != Works && disk.files == old(disk.files))
    {
      hide Calm, First, Rest;
      fate := disk.Unlink(p);
      if fate == Works {
        fate := disk.Sync();
      }
    }

    /** Undoes one entry of a prepared journal. */
    method RollBack(e: Entry, allowed: set<string>) returns (r: Ending)
      requires Valid() && ValidEntry(e, allowed) && EntriesBelow([e], next)
      modifies this, disk
      ensures Valid() && next >= old(next)
      ensures OnlyEntry(old(disk.files), disk.files, e, old(next))
      ensures r.Done? ==> RolledBack(disk.files, e)
      ensures Recoverable(old(disk.files), Prepared, e) ==> Recoverable(disk.files, Prepared, e)
      ensures Recoverable(old(disk.files), Prepared, e) && Calm(old(disk.fates)) ==> r.Done? && Calm(disk.fates)
    {
      hide NamesBelow, Calm;
      r := RestoreTarget(e, allowed);
      if r.Done? {
        r := RemoveStaged(e, allowed);
      }
    }

    /** Gives the target of an entry back what it held, from the backup, or removes it. */
    method RestoreTarget(e: Entry, allowed: set<string>) returns (r: Ending)
      requires Valid() && ValidEntry(e, allowed) && EntriesBelow([e], next)
      modifies this, disk
      ensures Valid() && next >= old(next)
      ensures OnlyEntry(old(disk.files), disk.files, e, old(next))
      ensures At(disk.files, e.temp) == At(old(disk.files), e.temp)
      ensures r.Done? ==> At(disk.files, e.target) == Original(e)
      ensures Recoverable(old(disk.files), Prepared, e) ==> Recoverable(disk.files, Prepared, e)
      ensures Recoverable(old(disk.files), Prepared, e) && Calm(old(disk.fates)) ==> r.Done? && Calm(disk.fates)
    {
      hide Calm;
      var current := At(disk.files, e.target);
      assert Below([e][0].temp, next);
      r := Done(true);
      if e.originalExists {
        if e.backup.None? || At(disk.files, e.backup.value) != Some(e.original.content) {
          return Raised;
        }
        if current.Some? && current.value != e.original.content && current.value != e.desired.content {
          return Raised;
        }
        if current != Some(e.original.content) {
          var fate := AtomicPayload(e.target, e.original.content);
          r := if fate == Works then Done(true) else Broken(fate);
        }
      } else if current.Some? {
        if current.value != e.desired.content {
          return Raised;
        }
        var fate := UnlinkPrivate(e.target);
        r := if fate == Works then Done(true) else Broken(fate);
      }
    }

    /** Checks one entry of a published journal and removes what it staged. */
    method RollForward(e: Entry, allowed: set<string>) returns (r: Ending)
      requires Valid() && ValidEntry(e, allowed)
      modifies disk
      ensures Valid() && OnlyEntry(old(disk.files), disk.files, e, next)
      ensures r.Done? ==> RolledForward(disk.files, e)
      ensures Recoverable(old(disk.files), Published, e) ==> Recoverable(disk.files, Published, e)
      ensures Recoverable(old(disk.files), Published, e) && Calm(old(disk.fates)) ==> r.Done? && Calm(disk.fates)
    {
      if At(disk.files, e.target) != Some(e.desired.content) {
        return Raised;
      }
      r := RemoveStaged(e, allowed);
    }

    /** Removes the staged file of an entry, if it still stands and is what was staged. */
    method RemoveStaged(e: Entry, allowed: set<string>) returns (r: Ending)
      requires Valid() && ValidEntry(e, allowed)
      modifies disk
      ensures Valid()
      ensures disk.files == old(disk.files)
              || (TempFits(old(disk.files), e) && disk.files == old(disk.files) - {e.temp})
      ensures r.Done? ==> e.temp !in disk.files
      ensures TempFits(old(disk.files), e) && Calm(old(disk.fates)) ==> r.Done? && Calm(disk.fates)
    {
      r := Done(true);
      if e.temp in disk.files {
        if disk.files[e.temp] != e.desired.content {
          return Raised;
        }
        var fate := UnlinkPrivate(e.temp);
        r := if fate == Works then Done(true) else Broken(fate);
      }
    }

    /** Brings the entries of the journal on the disk to its end: backwards when it was only
        prepared, forwards when it was published. */
    method CloseEntries(j: Journal, allowed: set<string>) returns (r: Ending)
      requires Valid() && ValidJournal(j, allowed) && At(disk.files, JournalPath) == Some(Encoded(j))
      modifies this, disk
      ensures Valid() && next >= old(next) && At(disk.files, JournalPath) == Some(Encoded(j))
      ensures Spared(old(disk.files), disk.files, j.entries) && Frame(old(disk.files), disk.files, j.entries, old(next))
      ensures r.Done? && OneTargetEach(j.entries) ==>
                forall k | 0 <= k < |j.entries| :: Closed(disk.files, j.state, j.entries[k])
      ensures Pending(old(disk.files), allowed, j) ==> Pending(disk.files, allowed, j)
      ensures Pending(old(disk.files), allowed, j) && Calm(old(disk.fates)) ==> r.Done? && Calm(disk.fates)
    {
      assert EntriesBelow(j.entries, next);
      SparedAtStart(disk.files, j.entries, next);
      hide NamesBelow, OnlyEntry, Spared, Frame, Closed, ValidEntry, OneTargetEach, EntriesBelow, RolledBack;
      hide RolledForward, Recoverable, Calm;
      r := Done(true);
      if j.state == Published {
        for i := 0 to |j.entries|
          invariant r.Done? && Valid() && next == old(next) && At(disk.files, JournalPath) == Some(Encoded(j))
          invariant Spared(old(disk.files), disk.files, j.entries)
          invariant Frame(old(disk.files), disk.files, j.entries, old(next))
          invariant OneTargetEach(j.entries) ==> forall k | 0 <= k < i :: Closed(disk.files, Published, j.entries[k])
          invariant Pending(old(disk.files), allowed, j) ==> Pending(disk.files, allowed, j)
          invariant Pending(old(disk.files), allowed, j) && Calm(old(disk.fates)) ==> Calm(disk.fates)
        {
          ghost var before := disk.files;
          ValidAt(j, i, allowed);
          r := RollForward(j.entries[i], allowed);
          AfterEntry(old(disk.files), before, disk.files, j, i, allowed, old(next), next);
          ClosedIs(disk.files, j.entries[i]);
          if !r.Done? {
            return;
          }
        }
      } else {
        for i := |j.entries| downto 0
          invariant r.Done? && Valid() && next >= old(next) && At(disk.files, JournalPath) == Some(Encoded(j))
          invariant Spared(old(disk.files), disk.files, j.entries)
          invariant Frame(old(disk.files), disk.files, j.entries, old(next))
          invariant OneTargetEach(j.entries) ==>
                      forall k | i <= k < |j.entries| :: Closed(disk.files, Prepared, j.entries[k])
          invariant Pending(old(disk.files), allowed, j) ==> Pending(disk.files, allowed, j)
          invariant Pending(old(disk.files), allowed, j) && Calm(old(disk.fates)) ==> Calm(disk.fates)
        {
          ghost var before, later := disk.files, next;
          BelowLater(j.entries, old(next), next);
          ValidAt(j, i, allowed);
          r := RollBack(j.entries[i], allowed);
          AfterEntry(old(disk.files), before, disk.files, j, i, allowed, old(next), later);
          ClosedIs(disk.files, j.entries[i]);
          if !r.Done? {
            return;
          }
        }
      }
    }

    /** `_recover_config_transaction`. */
    method Recover(allowed: set<string>) returns (r: Ending)
      requires Valid()
      modifies this, disk
      ensures Valid() && next >= old(next)
      ensures JournalPath !in old(disk.files) <==> r == Done(false)
      ensures JournalPath !in old(disk.files) ==> disk.files == old(disk.files) && disk.fates == old(disk.fates)
      ensures r == Done(true) ==> JournalPath !in disk.files
      ensures r == Done(true) || (JournalPath in old(disk.files) && JournalPath !in disk.files) ==>
                && old(disk.files)[JournalPath].Encoded?
                && var j := old(disk.files)[JournalPath].journal;
                  ValidJournal(j, allowed) && (OneTargetEach(j.entries) ==> Finished(disk.files, j))
      ensures JournalPath in disk.files ==> At(disk.files, JournalPath) == At(old(disk.files), JournalPath)
      ensures JournalPath in old(disk.files) && old(disk.files)[JournalPath].Encoded? ==>
                && var j := old(disk.files)[JournalPath].journal;
                && Spared(old(disk.files), disk.files, j.entries)
                && Frame(old(disk.files), disk.files, j.entries, old(next))
                && (Pending(old(disk.files), allowed, j) ==> Pending(disk.files, allowed, j) || Finished(disk.files, j))
                && (Pending(old(disk.files), allowed, j) && Calm(old(disk.fates)) ==> r.Done? && Calm(disk.fates))
      ensures JournalPath in old(disk.files)
              && (!old(disk.files)[JournalPath].Encoded?
                  || !ValidJournal(old(disk.files)[JournalPath].journal, allowed))
              ==> r == Raised && disk.files == old(disk.files)
    {
      hide NamesBelow, Recoverable, ValidEntry, OneTargetEach, EntriesBelow, Calm, Closed;
      if JournalPath !in disk.files {
        return Done(false);
      }
      var raw := disk.files[JournalPath];
      if !raw.Encoded? {
        return Raised;
      }
      SparedAtStart(disk.files, raw.journal.entries, next);
      if !ValidJournal(raw.journal, allowed) {
        InvalidIsNotPending(disk.files, raw.journal, allowed);
        return Raised;
      }
      r := CloseEntries(raw.journal, allowed);
      if r.Done? {
        ghost var before := disk.files;
        var fate := UnlinkPrivate(JournalPath);
        JournalRemoved(old(disk.files), before, disk.files, raw.journal, allowed, old(next));
        r := if fate == Works then Done(true) else Broken(fate);
      }
    }

    /** Copies a target to a new backup file. */
    method CreateBackup(target: Path) returns (fate: Fate, backup: Path)
      requires Valid() && target.Target? && target in disk.files
      modifies this, disk
      ensures Valid() && next == old(next) + 1 && backup == Backup(target, old(next))
      ensures OnlyNew(old(disk.files), disk.files, old(next))
      ensures fate == Works ==> disk.files == old(disk.files)[backup := old(disk.files)[target]]
      ensures Calm(old(disk.fates)) ==> fate == Works && Calm(disk.fates)
    {
      hide Calm, First, Rest;
      backup := Backup(target, next);
      assert backup !in disk.files;
      next := next + 1;
      fate := disk.Write(backup, Text(""));
      if fate != Works {
        return;
      }
      fate := disk.Write(backup, disk.files[target]);
      if fate != Works {
        fate := Abandon(backup, fate);
        return;
      }
      fate := disk.Sync();
    }

    /** Writes the desired bytes of a target to a new temporary file. */
    method StagePayload(target: Path, payload: Bytes) returns (fate: Fate, temporary: Path)
      requires Valid() && target.Target? && payload.Text?
      modifies this, disk
      ensures Valid() && next == old(next) + 1 && temporary == Temp(target, old(next))
      ensures OnlyNew(old(disk.files), disk.files, old(next))
      ensures fate == Works ==> disk.files == old(disk.files)[temporary := payload]
      ensures Calm(old(disk.fates)) ==> fate == Works && Calm(disk.fates)
    {
      hide Calm, First, Rest;
      temporary := Temp(target, next);
      assert temporary !in disk.files;
      next := next + 1;
      fate := disk.Write(temporary, Text(""));
      if fate != Works {
        return;
      }
      fate := disk.Write(temporary, payload);
      if fate != Works {
        fate := Abandon(temporary, fate);
      }
    }

    /** Backs up and stages one plan, unless the target is no longer what the plan was made from. */
    method StageOne(plan: Plan, allowed: set<string>) returns (r: Ending, e: Entry)
      requires Valid() && plan.name in allowed
      modifies this, disk
      ensures Valid() && next >= old(next)
      ensures OnlyNew(old(disk.files), disk.files, old(next))
      ensures r.Done? ==>
                && Fits(plan, old(disk.files)) && Describes([e], [plan], old(disk.files), 1)
                && NewNames([e], old(disk.files)) && EntriesBelow([e], next)
                && ValidEntry(e, allowed) && Ready(disk.files, e)
      ensures Fits(plan, old(disk.files)) && Calm(old(disk.fates)) ==> r.Done? && Calm(disk.fates)
    {
      hide Calm, NamesBelow;
      var target := Target(plan.name);
      var current := At(disk.files, target);
      e := Entry(target, current.Some?, Sha(Text(plan.originalText)), Sha(Text(plan.nextText)), None, target);
      if current.Some? != plan.originalExists
         || (if current.Some? then current.value else Text("")) != Text(plan.originalText)
      {
        return Raised, e;
      }
      if current.Some? {
        var fate, saved := CreateBackup(target);
        if fate != Works {
          return Broken(fate), e;
        }
        e := e.(backup := Some(saved));
      }
      var fate, temporary := StagePayload(target, Text(plan.nextText));
      UnusedName(old(disk.files), old(next), temporary);
      if e.backup.Some? {
        UnusedName(old(disk.files), old(next), e.backup.value);
      }
      e := e.(temp := temporary);
      r := if fate == Works then Done(true) else Broken(fate);
    }

    /** Backs up and stages every plan, unless some target is no longer what its plan was made from;
        nothing but new backups and temporary files appears. */
    method Stage(plans: seq<Plan>, allowed: set<string>) returns (r: Ending, entries: seq<Entry>)
      requires Valid() && NoDuplicates(plans) && forall i | 0 <= i < |plans| :: plans[i].name in allowed
      modifies this, disk
      ensures Valid() && next >= old(next)
      ensures OnlyNew(old(disk.files), disk.files, old(next))
      ensures r.Done? ==> !Stale(plans, old(disk.files)) && NewNames(entries, old(disk.files))
      ensures r.Done? ==>
                && Describes(entries, plans, old(disk.files), |plans|) && EntriesBelow(entries, next)
                && (forall i | 0 <= i < |entries| :: ValidEntry(entries[i], allowed))
                && (forall i | 0 <= i < |entries| :: Ready(disk.files, entries[i]))
      ensures UpToDate(plans, old(disk.files)) && Calm(old(disk.fates)) ==> r.Done? && Calm(disk.fates)
    {
      hide Calm, NamesBelow, Ready;
      entries := [];
      for i := 0 to |plans|
        invariant Valid() && next >= old(next)
        invariant OnlyNew(old(disk.files), disk.files, old(next))
        invariant NewNames(entries, old(disk.files)) && forall k | 0 <= k < i :: Fits(plans[k], old(disk.files))
        invariant Describes(entries, plans, old(disk.files), i) && EntriesBelow(entries, next)
        invariant forall k | 0 <= k < |entries| :: ValidEntry(entries[k], allowed)
        invariant forall k | 0 <= k < |entries| :: Ready(disk.files, entries[k])
        invariant Calm(old(disk.fates)) ==> Calm(disk.fates)
      {
        ghost var before, was := disk.files, next;
        var one, e := StageOne(plans[i], allowed);
        StageStep(old(disk.files), before, disk.files, entries, e, plans, i, old(next), was, next, allowed);
        if !one.Done? {
          return one, entries;
        }
        assert [e][0] == e;
        entries := entries + [e];
      }
      r := Done(true);
    }

    /** Moves the staged bytes of one entry over its target, after checking the target again. */
    method PublishEntry(e: Entry, allowed: set<string>) returns (r: Ending)
      requires Valid() && ValidEntry(e, allowed) && Recoverable(disk.files, Prepared, e)
      modifies disk
      ensures Valid() && OnlyEntry(old(disk.files), disk.files, e, next)
      ensures Recoverable(disk.files, Prepared, e)
      ensures r.Done? ==> RolledForward(disk.files, e)
      ensures Ready(old(disk.files), e) && Calm(old(disk.fates)) ==> r.Done? && Calm(disk.fates)
    {
      hide Calm, First, Rest;
      if At(disk.files, e.target) != Original(e) || e.temp !in disk.files {
        return Raised;
      }
      var fate := disk.Replace(e.temp, e.target);
      if fate == Works {
        fate := disk.Sync();
      }
      r := if fate == Works then Done(true) else Broken(fate);
    }

    /** Moves all staged files over their targets, under a prepared journal. */
    method PublishEntries(j: Journal, allowed: set<string>) returns (r: Ending)
      requires Valid() && j.state == Prepared && Pending(disk.files, allowed, j) && EntriesBelow(j.entries, next)
      modifies disk
      ensures Valid() && Pending(disk.files, allowed, j)
      ensures Frame(old(disk.files), disk.files, j.entries, next)
      ensures r.Done? ==> forall k | 0 <= k < |j.entries| :: RolledForward(disk.files, j.entries[k])
      ensures AllReady(old(disk.files), j.entries, 0) && Calm(old(disk.fates)) ==> r.Done? && Calm(disk.fates)
    {
      hide NamesBelow, OnlyEntry, Spared, Frame, Closed, Recoverable, ValidEntry, OneTargetEach, RolledForward;
      hide Calm, Ready, EntriesBelow;
      SparedAtStart(disk.files, j.entries, next);
      for i := 0 to |j.entries|
        invariant Valid() && Pending(disk.files, allowed, j)
        invariant Spared(old(disk.files), disk.files, j.entries) && Frame(old(disk.files), disk.files, j.entries, next)
        invariant forall k | 0 <= k < i :: RolledForward(disk.files, j.entries[k])
        invariant AllReady(old(disk.files), j.entries, 0) && Calm(old(disk.fates)) ==>
                    AllReady(disk.files, j.entries, i) && Calm(disk.fates)
      {
        ghost var before := disk.files;
        ValidAt(j, i, allowed);
        r := PublishEntry(j.entries[i], allowed);
        AfterEntry(old(disk.files), before, disk.files, j, i, allowed, next, next);
        OthersForward(before, disk.files, j, i, allowed, next);
        if !r.Done? {
          return;
        }
      }
      r := Done(true);
    }

    /** Recovery of an interrupted publication of these plans. */
    method RecoverInterrupted(ghost start: Files, ghost plans: seq<Plan>, ghost j: Journal, allowed: set<string>)
      returns (r: Ending)
      requires Valid() && Interrupted(start, disk.files, plans, allowed, j)
      modifies this, disk
      ensures Valid() && next >= old(next)
      ensures LeftBehind(start, disk.files, plans, allowed, Some(j))
      ensures Frame(old(disk.files), disk.files, j.entries, old(next))
      ensures r.Done? ==> JournalPath !in disk.files
      ensures Calm(old(disk.fates)) ==> r.Done? && Calm(disk.fates)
    {
      hide NamesBelow, Frame, Spared, ValidJournal, Recoverable, OneTargetEach, Calm;
      ghost var before := disk.files;
      r := Recover(allowed);
      EarlierOutcome(start, before, disk.files, plans, j, allowed, old(next));
    }

    /** `_publish_config_transaction` with no journal on the disk. */
    method PublishFresh(plans: seq<Plan>, allowed: set<string>) returns (r: Ending, ghost journal: Option<Journal>)
      requires Valid() && JournalPath !in disk.files
      requires plans != [] && NoDuplicates(plans) && forall i | 0 <= i < |plans| :: plans[i].name in allowed
      modifies this, disk
      ensures Valid() && next >= old(next)
      ensures LeftBehind(old(disk.files), disk.files, plans, allowed, journal)
      ensures BystandersKept(old(disk.files), disk.files, plans)
      ensures Stale(plans, old(disk.files)) ==> !r.Done? && NonePublished(old(disk.files), disk.files)
      ensures r.Done? ==>
                AllPublished(old(disk.files), disk.files, plans) && BackedUp(old(disk.files), disk.files, plans)
      ensures UpToDate(plans, old(disk.files)) && Calm(old(disk.fates)) ==> r.Done? && Calm(disk.fates)
    {
      var entries;
      journal := None;
      hide Calm, UpToDate, NonePublished, AllPublished, Finished, Recoverable, Stale, BystandersKept, BackedUp;
      r, entries := Stage(plans, allowed);
      ghost var start, staged, following := old(disk.files), disk.files, next;
      StagedIsNone(start, staged, old(next));
      if !r.Done? {
        OnlyNewKeeps(start, staged, plans, old(next));
        return;
      }
      hide NamesBelow;
      var prepared := Journal(Prepared, entries);
      var fate := AtomicPayload(JournalPath, Encoded(prepared));
      StartsPending(start, staged, disk.files, plans, prepared, allowed, old(next), next - 1);
      JournalFrame(staged, disk.files, entries, Encoded(prepared), following);
      BystandersStand(start, staged, disk.files, plans, entries, old(next), following);
      hide OnlyNew, Pending, Frame, RolledForward, ValidEntry, Ready, AllReady;
      if fate != Works {
        journal := if JournalPath in disk.files then Some(prepared) else None;
        return Broken(fate), journal;
      }
      ghost var begun := disk.files;
      r, journal := PublishPrepared(start, plans, prepared, allowed);
      FrameThen(staged, begun, disk.files, entries, following, following + 1);
      BystandersStand(start, staged, disk.files, plans, entries, old(next), following);
      BackupsStand(start, staged, disk.files, plans, entries, allowed, following);
    }

    /** The part of a publication under its journal: the moves, the published journal, and the
        recovery that ends the transaction either way. */
    method PublishPrepared(ghost start: Files, ghost plans: seq<Plan>, prepared: Journal, allowed: set<string>)
      returns (r: Ending, ghost journal: Option<Journal>)
      requires Valid() && prepared.state == Prepared && EntriesBelow(prepared.entries, next)
      requires Interrupted(start, disk.files, plans, allowed, prepared)
      modifies this, disk
      ensures Valid() && next >= old(next)
      ensures LeftBehind(start, disk.files, plans, allowed, journal)
      ensures Frame(old(disk.files), disk.files, prepared.entries, old(next))
      ensures r.Done? ==> AllPublished(start, disk.files, plans)
      ensures AllReady(old(disk.files), prepared.entries, 0) && Calm(old(disk.fates)) ==> r.Done? && Calm(disk.fates)
    {
      hide Calm, NamesBelow, NonePublished, AllPublished, Finished, Recoverable, Frame, RolledForward, ValidEntry;
      hide Ready, AllReady, EntriesBelow, Pending;
      journal := Some(prepared);
      ghost var pending, following := disk.files, next;
      InterruptedIsPending(start, disk.files, plans, prepared, allowed);
      r := PublishEntries(prepared, allowed);
      InterruptedNow(start, pending, disk.files, plans, prepared, allowed, following);
      InterruptedIsPending(start, disk.files, plans, prepared, allowed);
      if r.Crashed? {
        return;
      }
      var published := prepared.(state := Published);
      if r.Done? {
        ghost var before := disk.files;
        var fate := AtomicPayload(JournalPath, Encoded(published));
        BecomesPublished(start, before, disk.files, plans, prepared, allowed, next - 1);
        JournalFrame(before, disk.files, prepared.entries, Encoded(published), next - 1);
        FrameThen(pending, before, disk.files, prepared.entries, following, next - 1);
        journal := Some(if At(disk.files, JournalPath) == Some(Encoded(published)) then published else prepared);
        InterruptedIsPending(start, disk.files, plans, journal.value, allowed);
        r := if fate == Works then Done(true) else Broken(fate);
        if r.Crashed? {
          return;
        }
      }
      ghost var moved, later := disk.files, next;
      var recovered := RecoverInterrupted(start, plans, journal.value, allowed);
      FrameThen(pending, moved, disk.files, prepared.entries, following, later);
      r := if recovered.Crashed? then Crashed else if recovered.Raised? then Raised else r;
    }

    /** `_publish_config_transaction`: first ends an earlier publication, then publishes.  `middle` is
        the disk between the two: the earlier publication is over there, as none or all of its plans,
        or it is still interrupted and nothing else happens. */
    method Publish(plans: seq<Plan>, allowed: set<string>)
      returns (r: Ending, ghost journal: Option<Journal>, ghost middle: Files)
      requires Valid() && plans != []
      modifies this, disk
      ensures Valid() && next >= old(next)
      ensures !Publishable(plans, allowed) ==> r == Raised && disk.files == old(disk.files)
      ensures JournalPath !in old(disk.files) ==> middle == old(disk.files)
      ensures forall start, earlier, j | Interrupted(start, old(disk.files), earlier, allowed, j) ::
                LeftBehind(start, middle, earlier, allowed, Some(j))
      ensures JournalPath in middle ==> !r.Done? && disk.files == middle
      ensures JournalPath !in middle ==> LeftBehind(middle, disk.files, plans, allowed, journal)
      ensures JournalPath !in middle ==> BystandersKept(middle, disk.files, plans)
      ensures JournalPath !in middle && Stale(plans, middle) ==> !r.Done? && NonePublished(middle, disk.files)
      ensures r.Done? ==> JournalPath !in middle && AllPublished(middle, disk.files, plans)
                          && BackedUp(middle, disk.files, plans)
      ensures && Publishable(plans, allowed) && UpToDate(plans, middle) && Calm(old(disk.fates))
              && (JournalPath in old(disk.files) ==> exists j :: Pending(old(disk.files), allowed, j))
              ==> r.Done?
    {
      hide NamesBelow, Interrupted, Describes, Finished, Pending, Spared, Frame, UpToDate, Calm, Stale, BackedUp;
      journal, middle := None, disk.files;
      ghost var before := disk.files;
      forall start, earlier, j | Interrupted(start, before, earlier, allowed, j)
        ensures LeftBehind(start, before, earlier, allowed, Some(j))
      {
        InterruptedIsPending(start, before, earlier, j, allowed);
      }
      if !NoDuplicates(plans) || exists i :: 0 <= i < |plans| && plans[i].name !in allowed {
        return Raised, journal, middle;
      }
      r := Recover(allowed);
      middle := disk.files;
      forall start, earlier, j | Interrupted(start, before, earlier, allowed, j)
        ensures LeftBehind(start, middle, earlier, allowed, Some(j))
      {
        InterruptedIsPending(start, before, earlier, j, allowed);
        PendingJournal(before, j, allowed);
        EarlierOutcome(start, before, middle, earlier, j, allowed, old(next));
      }
      forall j | Pending(before, allowed, j)
        ensures At(before, JournalPath) == Some(Encoded(j))
      {
        PendingJournal(before, j, allowed);
      }
      if r.Done? {
        r, journal := PublishFresh(plans, allowed);
      }
    }

    /** A publication, and after it a recovery on each later start, each with its own failures and
        its own crash.  Whatever goes wrong, the outcome is none or all of the plans or still to be
        recovered, one undisturbed recovery settles it, and stale plans are never published. */
    method PublishAndRecover(plans: seq<Plan>, allowed: set<string>, starts: seq<seq<Fate>>)
      returns (r: Ending, ghost journal: Option<Journal>)
      requires Valid() && plans != [] && JournalPath !in disk.files
      modifies this, disk
      ensures LeftBehind(old(disk.files), disk.files, plans, allowed, journal)
      ensures JournalPath !in disk.files ==>
                NonePublished(old(disk.files), disk.files) || AllPublished(old(disk.files), disk.files, plans)
      ensures Stale(plans, old(disk.files)) ==> NonePublished(old(disk.files), disk.files)
      ensures (exists i :: 0 <= i < |starts| && Calm(starts[i])) ==> JournalPath !in disk.files
    {
      hide NamesBelow, Interrupted, Describes, Finished, Calm;
      ghost var middle;
      r, journal, middle := Publish(plans, allowed);
      for i := 0 to |starts|
        invariant Valid() && LeftBehind(old(disk.files), disk.files, plans, allowed, journal)
        invariant Stale(plans, old(disk.files)) ==> NonePublished(old(disk.files), disk.files)
        invariant (exists k :: 0 <= k < i && Calm(starts[k])) ==> JournalPath !in disk.files
      {
        disk.fates := starts[i];
        if JournalPath in disk.files {
          JournalMeansInterrupted(old(disk.files), disk.files, plans, allowed, journal);
          r := RecoverInterrupted(old(disk.files), plans, journal.value, allowed);
        }
      }
    }

    /** Recoveries over any disk and any journal, each disturbed or not: only files that hold what
        the journal itself knows are ever overwritten or removed. */
    method RecoverAgainAndAgain(allowed: set<string>, starts: seq<seq<Fate>>) returns (r: Ending)
      requires Valid() && JournalPath in disk.files && disk.files[JournalPath].Encoded?
      modifies this, disk
      ensures Spared(old(disk.files), disk.files, old(disk.files)[JournalPath].journal.entries)
      ensures JournalPath !in disk.files && OneTargetEach(old(disk.files)[JournalPath].journal.entries) ==>
                Finished(disk.files, old(disk.files)[JournalPath].journal)
    {
      hide NamesBelow, Spared, Frame, Finished, OneTargetEach, Pending, Calm;
      ghost var start, j := disk.files, disk.files[JournalPath].journal;
      SparedAtStart(disk.files, j.entries, next);
      r := Crashed;
      for i := 0 to |starts|
        invariant Valid() && Spared(start, disk.files, j.entries)
        invariant JournalPath in disk.files ==> disk.files[JournalPath] == Encoded(j)
        invariant JournalPath !in disk.files && OneTargetEach(j.entries) ==> Finished(disk.files, j)
      {
        if JournalPath in disk.files {
          disk.fates := starts[i];
          ghost var before := disk.files;
          r := Recover(allowed);
          SparedThen(start, before, disk.files, j.entries);
        }
      }
    }
  }
}
