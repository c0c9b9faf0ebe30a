/** The repair that moves the files of an empty request journal aside under a sealed receipt, and
    can be cut off before any of its file operations. */
module PreclaimRepair {
  import opened CrashDisk

  const MAX_RECEIPTS := 8
  const MAX_RECEIPT_TEMPS := 32

  /** The journal database, its lock file and its two sidecar files. */
  datatype Kind = Main | Lock | Wal | Shm

  /** The digest of what was sealed. */
  datatype RepairId = RepairId(journal: string, sealed: seq<Artifact>)

  datatype Name =
    | Source(kind: Kind)
    | Archive(kind: Kind, id: RepairId)
    | ReceiptAt(id: RepairId)
    | ReceiptTemp(id: RepairId)
    | OtherTransient(suffix: string)

  /** Journal bytes, a receipt, or the beginning of one whose writing was cut short. */
  datatype Content = Data(text: string, inode: nat) | Sealed(receipt: Receipt) | Torn

  /** A sealed file: its bytes, as their digest pins them, and its inode. */
  datatype Artifact = Artifact(kind: Kind, data: Content)

  datatype Status = Pending | Complete | Retiring

  datatype Receipt = Receipt(status: Status, id: RepairId, artifacts: seq<Artifact>, createdAt: int)

  datatype Ending = Repaired(receipt: Receipt) | Nothing | Raised | Crashed

  type Files = map<Name, Content>

  function Broken(fate: Fate): Ending
    requires fate != Works
  {
    if fate == Dies then Crashed else Raised
  }

  predicate HasKind(artifacts: seq<Artifact>, kind: Kind) {
    exists i :: 0 <= i < |artifacts| && artifacts[i].kind == kind
  }

  /** `_validate_preclaim_repair_receipt_raw`. */
  predicate ValidReceipt(r: Receipt) {
    && 2 <= |r.artifacts| <= 4
    && (forall i, j | 0 <= i < j < |r.artifacts| :: r.artifacts[i].kind != r.artifacts[j].kind)
    && (forall i | 0 <= i < |r.artifacts| ::
          r.artifacts[i].data.Data? && (r.artifacts[i].kind == Lock ==> r.artifacts[i].data.text == ""))
    && HasKind(r.artifacts, Main) && HasKind(r.artifacts, Lock)
  }

  /** Same immutable evidence. */
  predicate SameEvidence(a: Receipt, b: Receipt) {
    a.id == b.id && a.artifacts == b.artifacts && a.createdAt == b.createdAt
  }

  function ReceiptIds(files: Files): set<RepairId> {
    set n | n in files && n.ReceiptAt? :: n.id
  }

  function TempIds(files: Files): set<RepairId> {
    set n | n in files && n.ReceiptTemp? :: n.id
  }

  predicate ReadsReceipt(files: Files, n: Name, id: RepairId) {
    n in files && files[n].Sealed? && ValidReceipt(files[n].receipt) && files[n].receipt.id == id
  }

  predicate HasReceipt(files: Files, id: RepairId, status: Status) {
    ReceiptAt(id) in files && files[ReceiptAt(id)].Sealed? && files[ReceiptAt(id)].receipt.status == status
  }

  // ----- what every state between two file operations keeps -----

  /** The sealed bytes are at exactly one of their two names. */
  predicate AtOneName(files: Files, a: Artifact, id: RepairId) {
    || (At(files, Source(a.kind)) == Some(a.data) && Archive(a.kind, id) !in files)
    || (At(files, Archive(a.kind, id)) == Some(a.data) && Source(a.kind) !in files)
  }

  predicate Archived(files: Files, a: Artifact, id: RepairId) {
    At(files, Archive(a.kind, id)) == Some(a.data)
  }

  predicate ReceiptKept(files: Files, r: Receipt) {
    match r.status
    case Pending =>
      && (forall i | 0 <= i < |r.artifacts| :: AtOneName(files, r.artifacts[i], r.id))
      && (forall kind | !HasKind(r.artifacts, kind) :: Source(kind) !in files)
    case Complete => forall i | 0 <= i < |r.artifacts| :: Archived(files, r.artifacts[i], r.id)
    case Retiring =>
      forall i | 0 <= i < |r.artifacts| ::
        Archive(r.artifacts[i].kind, r.id) in files ==> Archived(files, r.artifacts[i], r.id)
  }

  /** A receipt that is about to be published for the first time: nothing was moved yet. */
  predicate FirstIntent(files: Files, t: Receipt) {
    && t.status == Pending
    && (forall i | 0 <= i < |t.artifacts| ::
          At(files, Source(t.artifacts[i].kind)) == Some(t.artifacts[i].data)
          && Archive(t.artifacts[i].kind, t.id) !in files)
    && (forall kind | !HasKind(t.artifacts, kind) :: Source(kind) !in files)
    && (HasKind(t.artifacts, Shm) ==> HasKind(t.artifacts, Wal))
  }

  predicate TornAt(files: Files, id: RepairId) {
    At(files, ReceiptTemp(id)) == Some(Torn)
  }

  /** What a whole temporary receipt tells about the disk. */
  predicate WholeTempKept(files: Files, id: RepairId) {
    && ReadsReceipt(files, ReceiptTemp(id), id)
    && var t := files[ReceiptTemp(id)].receipt;
      if ReceiptAt(id) in files then
        && ReadsReceipt(files, ReceiptAt(id), id)
        && var final := files[ReceiptAt(id)].receipt;
          && SameEvidence(t, final)
          && ((final.status == Pending && t.status == Complete
               && forall i | 0 <= i < |t.artifacts| :: Archived(files, t.artifacts[i], id))
              || (final.status == Complete && t.status == Retiring))
      else FirstIntent(files, t)
  }

  /** A torn temporary receipt may lie anywhere but beside a retiring one. */
  predicate TempKept(files: Files, id: RepairId) {
    if TornAt(files, id) then !HasReceipt(files, id, Retiring) else WholeTempKept(files, id)
  }

  predicate NoOtherTransient(files: Files) {
    forall n | n in files :: !n.OtherTransient?
  }

  /** Files may still be moved, or are about to be. */
  predicate Underway(files: Files, id: RepairId) {
    HasReceipt(files, id, Pending) || (ReceiptTemp(id) in files && ReceiptAt(id) !in files)
  }

  /** The files of one repair; `busy` is the only repair that may be pending or have a temporary receipt. */
  predicate OwnKept(files: Files, busy: Option<RepairId>, id: RepairId) {
    && (ReceiptAt(id) in files ==>
          ReadsReceipt(files, ReceiptAt(id), id) && ReceiptKept(files, files[ReceiptAt(id)].receipt))
    && (ReceiptTemp(id) in files ==> TempKept(files, id))
    && (ReceiptTemp(id) in files || HasReceipt(files, id, Pending) ==> busy == Some(id))
    && (forall kind :: Archive(kind, id) in files ==>
          ReceiptAt(id) in files && files[ReceiptAt(id)].Sealed?
          && HasKind(files[ReceiptAt(id)].receipt.artifacts, kind))
    && (Underway(files, id) ==> NoOtherTransient(files))
  }

  /** What holds between any two file operations of any number of repairs. */
  ghost predicate Kept(files: Files, busy: Option<RepairId>) {
    && (forall id {:trigger OwnKept(files, busy, id)} :: OwnKept(files, busy, id))
    && |ReceiptIds(files)| <= MAX_RECEIPTS
    && (busy.Some? && ReceiptTemp(busy.value) in files && ReceiptAt(busy.value) !in files ==>
          |ReceiptIds(files)| < MAX_RECEIPTS)
  }

  predicate Touches(n: Name, id: RepairId) {
    match n
    case Source(_) => true
    case Archive(_, i) => i == id
    case ReceiptAt(i) => i == id
    case ReceiptTemp(i) => i == id
    case OtherTransient(_) => false
  }

  /** Only files of one repair, and source files, changed. */
  ghost predicate OnlyRepair(before: Files, after: Files, id: RepairId) {
    forall n | !Touches(n, id) :: At(after, n) == At(before, n)
  }

  ghost predicate SameSources(before: Files, after: Files) {
    forall kind :: At(after, Source(kind)) == At(before, Source(kind))
  }

  lemma OtherKept(before: Files, busy: Option<RepairId>, after: Files, busy': Option<RepairId>, id: RepairId,
                  other: RepairId)
    requires OwnKept(before, busy, other) && other != id && OnlyRepair(before, after, id)
    requires ((busy == None || busy == Some(id)) && (busy' == None || busy' == Some(id)))
             || (busy' == busy && SameSources(before, after))
    ensures OwnKept(after, busy', other)
  {
    assert At(after, ReceiptAt(other)) == At(before, ReceiptAt(other));
    assert At(after, ReceiptTemp(other)) == At(before, ReceiptTemp(other));
    forall kind
      ensures At(after, Archive(kind, other)) == At(before, Archive(kind, other))
    {
    }
    if NoOtherTransient(before) {
      forall n | n in after
        ensures !n.OtherTransient?
      {
        assert n.OtherTransient? ==> At(after, n) == At(before, n);
      }
    }
    if ReceiptAt(other) in after {
      var r := after[ReceiptAt(other)].receipt;
      assert HasReceipt(before, other, Pending) <==> r.status == Pending;
    }
  }

  lemma CountKept(before: Files, after: Files, id: RepairId)
    requires OnlyRepair(before, after, id)
    ensures ReceiptAt(id) in before ==> |ReceiptIds(after)| <= |ReceiptIds(before)|
    ensures ReceiptAt(id) in before && ReceiptAt(id) !in after ==> |ReceiptIds(after)| < |ReceiptIds(before)|
    ensures ReceiptAt(id) !in before ==> |ReceiptIds(after)| <= |ReceiptIds(before)| + 1
    ensures (ReceiptAt(id) in before <==> ReceiptAt(id) in after) ==> |ReceiptIds(after)| == |ReceiptIds(before)|
  {
    forall other
      ensures other != id ==> (other in ReceiptIds(after) <==> other in ReceiptIds(before))
      ensures other in ReceiptIds(after) <==> ReceiptAt(other) in after
      ensures other in ReceiptIds(before) <==> ReceiptAt(other) in before
    {
      InIds(before, other);
      InIds(after, other);
      assert other != id ==> At(after, ReceiptAt(other)) == At(before, ReceiptAt(other));
    }
    hide ReceiptIds, OnlyRepair;
    SameButOne(ReceiptIds(before), ReceiptIds(after), id);
  }

  lemma SameButOne(was: set<RepairId>, now: set<RepairId>, id: RepairId)
    requires forall other | other != id :: other in now <==> other in was
    ensures |now| - (if id in now then 1 else 0) == |was| - (if id in was then 1 else 0)
  {
    assert now - {id} == was - {id};
    assert now == if id in now then (now - {id}) + {id} else now - {id};
    assert was == if id in was then (was - {id}) + {id} else was - {id};
  }

  lemma InIds(files: Files, id: RepairId)
    ensures id in ReceiptIds(files) <==> ReceiptAt(id) in files
    ensures id in TempIds(files) <==> ReceiptTemp(id) in files
  {
    assert ReceiptAt(id) in files ==> ReceiptAt(id).id == id;
    assert ReceiptTemp(id) in files ==> ReceiptTemp(id).id == id;
  }

  /** A step on one repair keeps everything when it keeps that repair's own files in order. */
  lemma KeptStep(before: Files, busy: Option<RepairId>, after: Files, busy': Option<RepairId>, id: RepairId)
    requires Kept(before, busy) && OnlyRepair(before, after, id)
    requires ((busy == None || busy == Some(id)) && (busy' == None || busy' == Some(id)))
             || (busy' == busy && SameSources(before, after) && ReceiptAt(id) in before)
    requires OwnKept(after, busy', id)
    requires ReceiptAt(id) in after && ReceiptAt(id) !in before ==> |ReceiptIds(before)| < MAX_RECEIPTS
    requires ReceiptTemp(id) in after && ReceiptAt(id) !in after ==> |ReceiptIds(before)| < MAX_RECEIPTS
    ensures Kept(after, busy')
  {
    if busy'.Some? && busy'.value != id {
      assert At(after, ReceiptTemp(busy'.value)) == At(before, ReceiptTemp(busy'.value));
      assert At(after, ReceiptAt(busy'.value)) == At(before, ReceiptAt(busy'.value));
    }
    hide OwnKept, OnlyRepair, ReceiptIds, SameSources;
    forall other
      ensures OwnKept(after, busy', other)
    {
      if other != id {
        assert OwnKept(before, busy, other);
        OtherKept(before, busy, after, busy', id, other);
      }
    }
    CountKept(before, after, id);
  }

  // ----- single file operations -----

  /** Once its temporary receipt is gone and it is not pending, a repair is no longer busy. */
  lemma Idle(files: Files, busy: Option<RepairId>)
    requires Kept(files, busy)
    requires busy.Some? ==> ReceiptTemp(busy.value) !in files && !HasReceipt(files, busy.value, Pending)
    ensures Kept(files, None)
  {
    forall id
      ensures OwnKept(files, None, id)
    {
      assert OwnKept(files, busy, id);
    }
  }

  lemma TempRemoved(files: Files, busy: Option<RepairId>, id: RepairId)
    requires Kept(files, busy) && ReceiptTemp(id) in files
    ensures busy == Some(id) && Kept(files - {ReceiptTemp(id)}, busy)
  {
    assert OwnKept(files, busy, id);
    KeptStep(files, busy, files - {ReceiptTemp(id)}, busy, id);
  }

  lemma Renamed(files: Files, busy: Option<RepairId>, id: RepairId, i: nat)
    requires Kept(files, busy) && HasReceipt(files, id, Pending) && ReceiptTemp(id) !in files
    requires i < |files[ReceiptAt(id)].receipt.artifacts|
    requires Source(files[ReceiptAt(id)].receipt.artifacts[i].kind) in files
    ensures var a := files[ReceiptAt(id)].receipt.artifacts[i];
      var after := (files - {Source(a.kind)})[Archive(a.kind, id) := files[Source(a.kind)]];
      busy == Some(id) && Kept(after, busy) && Archived(after, a, id)
  {
    assert OwnKept(files, busy, id);
    var r := files[ReceiptAt(id)].receipt;
    var a := r.artifacts[i];
    var after := (files - {Source(a.kind)})[Archive(a.kind, id) := files[Source(a.kind)]];
    assert AtOneName(files, a, id);
    forall k | 0 <= k < |r.artifacts|
      ensures AtOneName(after, r.artifacts[k], id)
    {
      assert AtOneName(files, r.artifacts[k], id);
      if k != i {
        assert r.artifacts[k].kind != a.kind;
      }
    }
    forall kind
      ensures Archive(kind, id) in after ==> HasKind(r.artifacts, kind)
    {
    }
    KeptStep(files, busy, after, busy, id);
  }

  /** A temporary receipt is created, and nothing written to it yet. */
  lemma BeginsTorn(files: Files, busy: Option<RepairId>, id: RepairId)
    requires Kept(files, busy) && (busy == None || busy == Some(id)) && !HasReceipt(files, id, Retiring)
    requires ReceiptAt(id) in files || (|ReceiptIds(files)| < MAX_RECEIPTS && NoOtherTransient(files))
    ensures Kept(files[ReceiptTemp(id) := Torn], Some(id))
  {
    assert OwnKept(files, busy, id);
    var torn := files[ReceiptTemp(id) := Torn];
    if ReceiptAt(id) in files {
      var r := files[ReceiptAt(id)].receipt;
      forall i | 0 <= i < |r.artifacts|
        ensures AtOneName(torn, r.artifacts[i], id) <==> AtOneName(files, r.artifacts[i], id)
        ensures Archived(torn, r.artifacts[i], id) <==> Archived(files, r.artifacts[i], id)
      {
      }
    }
    KeptStep(files, busy, torn, Some(id), id);
  }

  /** Publishing the completed receipt: the temporary file, then the move. */
  lemma Completes(files: Files, busy: Option<RepairId>, id: RepairId)
    requires Kept(files, busy) && HasReceipt(files, id, Pending) && ReceiptTemp(id) !in files
    requires var r := files[ReceiptAt(id)].receipt;
      forall i | 0 <= i < |r.artifacts| :: Archived(files, r.artifacts[i], id)
    ensures var done := Sealed(files[ReceiptAt(id)].receipt.(status := Complete));
      && busy == Some(id)
      && Kept(files[ReceiptTemp(id) := Torn], busy) && Kept(files[ReceiptTemp(id) := done], busy)
      && Kept(files[ReceiptAt(id) := done], busy)
  {
    assert OwnKept(files, busy, id);
    var r := files[ReceiptAt(id)].receipt.(status := Complete);
    var staged, after := files[ReceiptTemp(id) := Sealed(r)], files[ReceiptAt(id) := Sealed(r)];
    assert forall i | 0 <= i < |r.artifacts| ::
        Archived(staged, r.artifacts[i], id) && Archived(after, r.artifacts[i], id);
    assert forall i | 0 <= i < |r.artifacts| ::
        AtOneName(staged, r.artifacts[i], id) <==> AtOneName(files, r.artifacts[i], id);
    BeginsTorn(files, busy, id);
    KeptStep(files, busy, staged, busy, id);
    KeptStep(files, busy, after, busy, id);
  }

  /** Turning a completed receipt into a retiring one. */
  lemma Retires(files: Files, id: RepairId)
    requires Kept(files, None) && HasReceipt(files, id, Complete)
    ensures var retiring := Sealed(files[ReceiptAt(id)].receipt.(status := Retiring));
      && ReceiptTemp(id) !in files
      && Kept(files[ReceiptTemp(id) := Torn], Some(id)) && Kept(files[ReceiptTemp(id) := retiring], Some(id))
      && Kept(files[ReceiptAt(id) := retiring], None)
  {
    assert OwnKept(files, None, id);
    var r := files[ReceiptAt(id)].receipt.(status := Retiring);
    var staged, after := files[ReceiptTemp(id) := Sealed(r)], files[ReceiptAt(id) := Sealed(r)];
    assert forall i | 0 <= i < |r.artifacts| :: Archived(files, r.artifacts[i], id);
    assert forall i | 0 <= i < |r.artifacts| ::
        Archived(staged, r.artifacts[i], id) && Archived(after, r.artifacts[i], id);
    BeginsTorn(files, None, id);
    KeptStep(files, None, staged, Some(id), id);
    KeptStep(files, None, after, None, id);
  }

  lemma ArchiveRemoved(files: Files, busy: Option<RepairId>, id: RepairId, kind: Kind)
    requires Kept(files, busy) && HasReceipt(files, id, Retiring)
    ensures Kept(files - {Archive(kind, id)}, busy)
  {
    assert OwnKept(files, busy, id);
    KeptStep(files, busy, files - {Archive(kind, id)}, busy, id);
  }

  lemma ReceiptRemoved(files: Files, busy: Option<RepairId>, id: RepairId)
    requires Kept(files, busy) && HasReceipt(files, id, Retiring)
    requires forall i | 0 <= i < |files[ReceiptAt(id)].receipt.artifacts| ::
               Archive(files[ReceiptAt(id)].receipt.artifacts[i].kind, id) !in files
    ensures Kept(files - {ReceiptAt(id)}, busy)
    ensures |ReceiptIds(files - {ReceiptAt(id)})| < |ReceiptIds(files)|
  {
    assert OwnKept(files, busy, id);
    KeptStep(files, busy, files - {ReceiptAt(id)}, busy, id);
    CountKept(files, files - {ReceiptAt(id)}, id);
  }

  /** Publishing the first, pending receipt. */
  lemma Begins(files: Files, r: Receipt)
    requires Kept(files, None) && ReceiptAt(r.id) !in files && |ReceiptIds(files)| < MAX_RECEIPTS
    requires ValidReceipt(r) && FirstIntent(files, r) && NoOtherTransient(files)
    ensures Kept(files[ReceiptTemp(r.id) := Torn], Some(r.id))
    ensures Kept(files[ReceiptTemp(r.id) := Sealed(r)], Some(r.id))
    ensures Kept(files[ReceiptAt(r.id) := Sealed(r)], Some(r.id))
  {
    var id := r.id;
    assert OwnKept(files, None, id);
    var staged, after := files[ReceiptTemp(id) := Sealed(r)], files[ReceiptAt(id) := Sealed(r)];
    assert forall i | 0 <= i < |r.artifacts| :: AtOneName(after, r.artifacts[i], id);
    BeginsTorn(files, None, id);
    KeptStep(files, None, staged, Some(id), id);
    KeptStep(files, None, after, Some(id), id);
  }

  // ----- the checks of one call -----

  /** The sealed lock file is at exactly one of its names, and is the sealed one. */
  predicate LockBound(files: Files, r: Receipt) {
    exists i :: 0 <= i < |r.artifacts| && r.artifacts[i].kind == Lock && AtOneName(files, r.artifacts[i], r.id)
  }

  predicate ValidSuccession(final: Status, next: Status) {
    match final
    case Pending => next == Pending || next == Complete
    case Complete => next == Complete || next == Retiring
    case Retiring => next == Retiring
  }

  /** What `_cleanup_preclaim_receipt_temps` demands of a temporary receipt before it removes it. */
  predicate TempPasses(files: Files, id: RepairId) {
    && ReadsReceipt(files, ReceiptTemp(id), id)
    && var t := files[ReceiptTemp(id)].receipt;
      && (if ReceiptAt(id) in files then
            && ReadsReceipt(files, ReceiptAt(id), id)
            && SameEvidence(t, files[ReceiptAt(id)].receipt)
            && ValidSuccession(files[ReceiptAt(id)].receipt.status, t.status)
          else FirstIntent(files, t) && NoOtherTransient(files))
      && LockBound(files, t)
  }

  /** The temporary receipt of a repair that the clean-up refuses: it was cut short, or a retirement
      was cut off between it and the move, and a new journal has its lock file in place. */
  predicate Blocks(files: Files, id: RepairId) {
    TornAt(files, id) || (HasReceipt(files, id, Complete) && Source(Lock) in files)
  }

  predicate Stuck(files: Files) {
    exists n :: n in files && n.ReceiptTemp? && Blocks(files, n.id)
  }

  /** Exactly when the clean-up accepts the temporary receipt that a cut-off repair left. */
  lemma TempPassesIff(files: Files, busy: Option<RepairId>, id: RepairId)
    requires Kept(files, busy) && ReceiptTemp(id) in files
    ensures TempPasses(files, id) <==> !Blocks(files, id)
  {
    assert OwnKept(files, busy, id);
    if TornAt(files, id) {
      return;
    }
    var t := files[ReceiptTemp(id)].receipt;
    var i :| 0 <= i < |t.artifacts| && t.artifacts[i].kind == Lock;
    forall k | 0 <= k < |t.artifacts| && t.artifacts[k].kind == Lock
      ensures k == i
    {
    }
    if HasReceipt(files, id, Complete) {
      assert Archived(files, files[ReceiptAt(id)].receipt.artifacts[i], id);
    } else if HasReceipt(files, id, Pending) {
      assert AtOneName(files, files[ReceiptAt(id)].receipt.artifacts[i], id);
    }
  }

  /** Only the repair under way can have a temporary receipt, so the clean-up's limit is never reached. */
  lemma OneTemp(files: Files, busy: Option<RepairId>)
    requires Kept(files, busy)
    ensures TempIds(files) <= if busy.Some? then {busy.value} else {}
    ensures |TempIds(files)| <= 1 < MAX_RECEIPT_TEMPS
  {
    forall id | id in TempIds(files)
      ensures busy == Some(id)
    {
      assert OwnKept(files, busy, id);
    }
    if busy.Some? {
      assert TempIds(files) == {} || TempIds(files) == {busy.value};
    } else {
      assert TempIds(files) == {};
    }
  }

  /** The scan of all receipts and archives. */
  predicate ScanPasses(files: Files) {
    && |ReceiptIds(files)| <= MAX_RECEIPTS
    && (forall n | n in files && n.ReceiptAt? ::
          && ReadsReceipt(files, n, n.id)
          && forall i | 0 <= i < |files[n].receipt.artifacts| ::
               var a := files[n].receipt.artifacts[i];
               Archive(a.kind, n.id) in files || files[n].receipt.status == Complete ==> Archived(files, a, n.id))
    && (forall n | n in files && n.Archive? ::
          ReceiptAt(n.id) in files && files[ReceiptAt(n.id)].Sealed?
          && HasKind(files[ReceiptAt(n.id)].receipt.artifacts, n.kind))
    && NoOtherTransient(files)
  }

  lemma ScanPassesIff(files: Files, busy: Option<RepairId>)
    requires Kept(files, busy)
    ensures ScanPasses(files) <==> NoOtherTransient(files)
  {
    forall n | n in files && n.ReceiptAt?
      ensures ReadsReceipt(files, n, n.id)
      ensures forall i | 0 <= i < |files[n].receipt.artifacts| ::
                var a := files[n].receipt.artifacts[i];
                Archive(a.kind, n.id) in files || files[n].receipt.status == Complete ==> Archived(files, a, n.id)
    {
      assert OwnKept(files, busy, n.id);
    }
    forall n | n in files && n.Archive?
      ensures ReceiptAt(n.id) in files && files[ReceiptAt(n.id)].Sealed?
              && HasKind(files[ReceiptAt(n.id)].receipt.artifacts, n.kind)
    {
      assert OwnKept(files, busy, n.id);
    }
  }

  /** A pending repair is carried over: still pending or already complete, with the same evidence. */
  ghost predicate Carried(before: Files, after: Files) {
    forall id | HasReceipt(before, id, Pending) ::
      && (HasReceipt(after, id, Pending) || HasReceipt(after, id, Complete))
      && SameEvidence(before[ReceiptAt(id)].receipt, after[ReceiptAt(id)].receipt)
  }

  ghost predicate SameButTemps(before: Files, after: Files) {
    forall n: Name | !n.ReceiptTemp? :: At(after, n) == At(before, n)
  }

  lemma StuckIff(files: Files, busy: Option<RepairId>)
    requires Kept(files, busy)
    ensures TempIds(files) == {} ==> !Stuck(files)
    ensures forall id | id in TempIds(files) ::
              (Stuck(files) <==> Blocks(files, id))
  {
    OneTemp(files, busy);
    forall id
      ensures id in TempIds(files) <==> ReceiptTemp(id) in files
    {
      InIds(files, id);
    }
    forall id | id in TempIds(files)
      ensures Stuck(files) <==> Blocks(files, id)
    {
      assert ReceiptTemp(id) in files && ReceiptTemp(id).id == id;
      if n :| n in files && n.ReceiptTemp? && Blocks(files, n.id) {
        InIds(files, n.id);
        assert n.id == id;
      }
    }
  }

  lemma TempGone(files: Files, id: RepairId)
    ensures TempIds(files - {ReceiptTemp(id)}) == TempIds(files) - {id}
  {
    forall other
      ensures other in TempIds(files - {ReceiptTemp(id)}) <==> other in TempIds(files) - {id}
    {
      InIds(files, other);
      InIds(files - {ReceiptTemp(id)}, other);
    }
  }

  lemma CarriedAtStart(files: Files)
    ensures Carried(files, files)
  {
  }

  /** What a pending repair tells about the disk. */
  lemma PendingKept(files: Files, busy: Option<RepairId>, id: RepairId)
    requires Kept(files, busy) && HasReceipt(files, id, Pending)
    ensures busy == Some(id) && ReadsReceipt(files, ReceiptAt(id), id) && NoOtherTransient(files)
    ensures var r := files[ReceiptAt(id)].receipt;
      && (forall i | 0 <= i < |r.artifacts| :: AtOneName(files, r.artifacts[i], id))
      && (forall kind | !HasKind(r.artifacts, kind) :: Source(kind) !in files)
      && ((forall i | 0 <= i < |r.artifacts| :: Archived(files, r.artifacts[i], id)) ==>
            forall kind :: Source(kind) !in files)
  {
    assert OwnKept(files, busy, id);
    var r := files[ReceiptAt(id)].receipt;
    if forall i | 0 <= i < |r.artifacts| :: Archived(files, r.artifacts[i], id) {
      forall kind
        ensures Source(kind) !in files
      {
        if HasKind(r.artifacts, kind) {
          var i :| 0 <= i < |r.artifacts| && r.artifacts[i].kind == kind;
          assert AtOneName(files, r.artifacts[i], id) && Archived(files, r.artifacts[i], id);
        }
      }
    }
  }

  predicate MovedAside(before: Files, after: Files, a: Artifact, id: RepairId) {
    && Source(a.kind) in before && before[Source(a.kind)] == a.data
    && after == (before - {Source(a.kind)})[Archive(a.kind, id) := before[Source(a.kind)]]
  }

  lemma OnlyRepairThen(f: Files, g: Files, h: Files, id: RepairId)
    requires OnlyRepair(f, g, id) && OnlyRepair(g, h, id)
    ensures OnlyRepair(f, h, id)
  {
  }

  lemma MovedKeeps(start: Files, before: Files, after: Files, r: Receipt, i: nat, id: RepairId)
    requires Carried(start, before) && ValidReceipt(r) && i < |r.artifacts|
    requires after == before || MovedAside(before, after, r.artifacts[i], id)
    ensures At(after, ReceiptAt(id)) == At(before, ReceiptAt(id))
    ensures At(after, ReceiptTemp(id)) == At(before, ReceiptTemp(id))
    ensures Carried(start, after)
    ensures forall k | 0 <= k < i && Archived(before, r.artifacts[k], id) :: Archived(after, r.artifacts[k], id)
    ensures OnlyRepair(before, after, id)
  {
    forall other | HasReceipt(start, other, Pending)
      ensures (HasReceipt(after, other, Pending) || HasReceipt(after, other, Complete))
              && SameEvidence(start[ReceiptAt(other)].receipt, after[ReceiptAt(other)].receipt)
    {
      assert At(after, ReceiptAt(other)) == At(before, ReceiptAt(other));
    }
  }

  /** Publishing the completed receipt of a pending repair carries over whatever was carried so far. */
  lemma CompletionCarries(before: Files, after: Files, id: RepairId)
    requires HasReceipt(before, id, Pending) && before[ReceiptAt(id)].receipt.id == id
    requires var done := Sealed(before[ReceiptAt(id)].receipt.(status := Complete));
      || after == before || after == before[ReceiptTemp(id) := Torn]
      || after == before[ReceiptTemp(id) := done] || after == before[ReceiptAt(id) := done]
    ensures forall start: Files | Carried(start, before) :: Carried(start, after)
  {
    forall start: Files | Carried(start, before)
      ensures Carried(start, after)
    {
      forall other | HasReceipt(start, other, Pending)
        ensures (HasReceipt(after, other, Pending) || HasReceipt(after, other, Complete))
                && SameEvidence(start[ReceiptAt(other)].receipt, after[ReceiptAt(other)].receipt)
      {
        if other != id {
          assert At(after, ReceiptAt(other)) == At(before, ReceiptAt(other));
        }
      }
    }
  }

  /** The repair is over: its receipt is complete, every sealed file is at its archive name, and
      no journal file is left at a source name. */
  predicate Finished(before: Files, after: Files, id: RepairId, done: Receipt) {
    && HasReceipt(before, id, Pending)
    && done == before[ReceiptAt(id)].receipt.(status := Complete)
    && At(after, ReceiptAt(id)) == Some(Sealed(done))
    && (forall i | 0 <= i < |done.artifacts| :: Archived(after, done.artifacts[i], id))
    && (forall kind :: Source(kind) !in after)
  }

  lemma ArchivesUntouched(before: Files, after: Files, id: RepairId, done: Receipt)
    requires after == before[ReceiptAt(id) := Sealed(done)]
             || after == before || after == before[ReceiptTemp(id) := Torn]
             || after == before[ReceiptTemp(id) := Sealed(done)]
    ensures forall a, other :: Archived(after, a, other) <==> Archived(before, a, other)
    ensures forall kind :: Source(kind) in after <==> Source(kind) in before
  {
  }

  /** Only archives and the receipt of one repair were removed. */
  ghost predicate OnlyArchives(before: Files, after: Files, id: RepairId) {
    forall n: Name | !(n.Archive? && n.id == id) && n != ReceiptAt(id) :: At(after, n) == At(before, n)
  }

  // ----- which completed repair makes room -----

  /** Every completed repair but the excepted one is as before, receipt and archives. */
  ghost predicate CompletedStay(before: Files, after: Files, except: Option<RepairId>) {
    forall id | HasReceipt(before, id, Complete) && Some(id) != except ::
      && At(after, ReceiptAt(id)) == At(before, ReceiptAt(id))
      && forall kind :: At(after, Archive(kind, id)) == At(before, Archive(kind, id))
  }

  /** There are eight receipts, all complete. */
  predicate Full(files: Files) {
    |ReceiptIds(files)| == MAX_RECEIPTS && forall n | n in files && n.ReceiptAt? :: HasReceipt(files, n.id, Complete)
  }

  ghost predicate Oldest(files: Files, id: RepairId) {
    HasReceipt(files, id, Complete)
    && forall other | HasReceipt(files, other, Complete) ::
         files[ReceiptAt(id)].receipt.createdAt <= files[ReceiptAt(other)].receipt.createdAt
  }

  /** No completed repair was touched, except that out of eight completed ones the oldest may have
      made room. */
  ghost predicate RoomMade(before: Files, after: Files) {
    || CompletedStay(before, after, None)
    || (Full(before) && exists id :: Oldest(before, id) && CompletedStay(before, after, Some(id)))
  }

  lemma OnlyRepairStay(before: Files, after: Files, id: RepairId)
    requires OnlyRepair(before, after, id)
    ensures CompletedStay(before, after, Some(id))
    ensures !HasReceipt(before, id, Complete) ==> CompletedStay(before, after, None)
  {
  }

  lemma StayThen(f: Files, g: Files, h: Files)
    requires CompletedStay(f, g, None)
    ensures CompletedStay(g, h, None) ==> CompletedStay(f, h, None)
    ensures forall id | CompletedStay(g, h, Some(id)) :: CompletedStay(f, h, Some(id))
  {
  }

  lemma ExceptThen(f: Files, g: Files, h: Files, id: RepairId)
    requires CompletedStay(f, g, Some(id)) && CompletedStay(g, h, None)
    ensures CompletedStay(f, h, Some(id))
  {
  }

  /** Where the clean-up changed only temporary receipts, room is made for the same repairs. */
  lemma CleanupRoom(before: Files, mid: Files, after: Files)
    requires SameButTemps(before, mid)
    ensures CompletedStay(before, mid, None) && (RoomMade(mid, after) ==> RoomMade(before, after))
  {
    forall id
      ensures At(mid, ReceiptAt(id)) == At(before, ReceiptAt(id))
      ensures id in ReceiptIds(mid) <==> id in ReceiptIds(before)
    {
      InIds(mid, id);
      InIds(before, id);
    }
    assert ReceiptIds(mid) == ReceiptIds(before);
    StayThen(before, mid, after);
    hide CompletedStay;
    if Full(mid) {
      forall n | n in before && n.ReceiptAt?
        ensures HasReceipt(before, n.id, Complete)
      {
        assert n == ReceiptAt(n.id) && At(mid, ReceiptAt(n.id)) == At(before, ReceiptAt(n.id));
      }
    }
    forall id
      ensures Oldest(mid, id) ==> Oldest(before, id)
    {
      assert forall other :: HasReceipt(mid, other, Complete) <==> HasReceipt(before, other, Complete);
    }
  }

  /** Below eight receipts nothing makes room. */
  lemma RoomAbove(before: Files, mid: Files, after: Files)
    requires CompletedStay(before, mid, None) && RoomMade(mid, after) && |ReceiptIds(mid)| < MAX_RECEIPTS
    ensures CompletedStay(before, after, None) && RoomMade(before, after)
  {
    StayThen(before, mid, after);
    hide CompletedStay;
  }

  /** One oldest completed repair was retired, and nothing after that made room. */
  lemma RoomAfterRetiring(before: Files, mid: Files, after: Files, id: RepairId)
    requires Full(before) && Oldest(before, id) && CompletedStay(before, mid, Some(id))
    requires after == mid || (RoomMade(mid, after) && |ReceiptIds(mid)| < MAX_RECEIPTS)
    ensures RoomMade(before, after)
  {
    if after != mid {
      ExceptThen(before, mid, after, id);
    }
    hide CompletedStay;
  }

  lemma AllAreComplete(files: Files)
    requires WithStatus(files, Complete) == ReceiptIds(files) && |ReceiptIds(files)| == MAX_RECEIPTS
    ensures Full(files)
  {
    forall n | n in files && n.ReceiptAt?
      ensures HasReceipt(files, n.id, Complete)
    {
      assert n == ReceiptAt(n.id);
      InIds(files, n.id);
      StatusIn(files, n.id, Complete);
    }
  }

  lemma OldestIs(files: Files, id: RepairId)
    requires HasReceipt(files, id, Complete)
    requires forall other | other in WithStatus(files, Complete) :: CreatedAt(files, id) <= CreatedAt(files, other)
    ensures Oldest(files, id)
  {
    forall other | HasReceipt(files, other, Complete)
      ensures CreatedAt(files, id) <= CreatedAt(files, other)
    {
      StatusIn(files, other, Complete);
    }
  }

  lemma OwnStay(before: Files, after: Files, id: RepairId)
    requires OnlyOwn(before, after, id)
    ensures CompletedStay(before, after, Some(id))
  {
  }

  lemma KeepsStay(before: Files, after: Files)
    requires KeepsOthers(before, after)
    ensures CompletedStay(before, after, None)
  {
  }

  lemma AtMostEight(files: Files, busy: Option<RepairId>)
    requires Kept(files, busy)
    ensures |ReceiptIds(files)| <= MAX_RECEIPTS
  {
  }

  lemma UntouchedIsRoom(before: Files, after: Files)
    requires CompletedStay(before, after, None)
    ensures RoomMade(before, after)
  {
  }

  lemma RoomAtStart(files: Files)
    ensures CompletedStay(files, files, None) && RoomMade(files, files)
  {
  }

  lemma OwnOf(files: Files, busy: Option<RepairId>, id: RepairId)
    requires Kept(files, busy)
    ensures OwnKept(files, busy, id)
  {
    assert OwnKept(files, busy, id);
  }

  lemma SameIds(files: Files, id: RepairId, kind: Kind)
    ensures ReceiptIds(files - {Archive(kind, id)}) == ReceiptIds(files)
  {
    forall other
      ensures other in ReceiptIds(files - {Archive(kind, id)}) <==> other in ReceiptIds(files)
    {
      InIds(files, other);
      InIds(files - {Archive(kind, id)}, other);
    }
  }

  /** Only files of one repair changed, and no source file. */
  ghost predicate OnlyOwn(before: Files, after: Files, id: RepairId) {
    forall n: Name | n.Source? || !Touches(n, id) :: At(after, n) == At(before, n)
  }

  lemma OwnId(files: Files, busy: Option<RepairId>, id: RepairId)
    requires Kept(files, busy) && ReceiptAt(id) in files
    ensures ReadsReceipt(files, ReceiptAt(id), id)
  {
    assert OwnKept(files, busy, id);
  }

  lemma NoTemp(files: Files, id: RepairId)
    requires Kept(files, None)
    ensures ReceiptTemp(id) !in files
  {
    assert OwnKept(files, None, id);
  }

  lemma CountSame(files: Files, id: RepairId, r: Receipt)
    requires ReceiptAt(id) in files
    ensures |ReceiptIds(files[ReceiptAt(id) := Sealed(r)])| == |ReceiptIds(files)|
  {
    CountKept(files, files[ReceiptAt(id) := Sealed(r)], id);
  }

  /** The artifact at a source name, if there is a file. */
  function SourceOf(files: Files, kind: Kind): seq<Artifact> {
    if Source(kind) in files then [Artifact(kind, files[Source(kind)])] else []
  }

  /** The artifacts a new repair seals. */
  function Present(files: Files): seq<Artifact> {
    SourceOf(files, Main) + SourceOf(files, Lock) + SourceOf(files, Wal) + SourceOf(files, Shm)
  }

  predicate Readable(files: Files) {
    forall kind | kind in {Main, Lock, Wal, Shm} && Source(kind) in files :: files[Source(kind)].Data?
  }

  /** The files at the source names form an empty journal that may be sealed; `verified` is the
      journal's identity as found in an isolated copy of its files, if the copy passed. */
  predicate Startable(files: Files, verified: Option<string>) {
    && Source(Main) in files && Source(Lock) in files
    && (Source(Shm) in files ==> Source(Wal) in files)
    && Readable(files)
    && files[Source(Lock)].text == ""
    && verified.Some?
  }

  function NewId(files: Files, verified: Option<string>): RepairId {
    RepairId(if verified.Some? then verified.value else "", Present(files))
  }

  /** A completed repair stands on the disk. */
  predicate Settled(files: Files, done: Receipt) {
    && done.status == Complete
    && At(files, ReceiptAt(done.id)) == Some(Sealed(done))
    && (forall i | 0 <= i < |done.artifacts| :: Archived(files, done.artifacts[i], done.id))
    && (forall kind :: Source(kind) !in files)
  }

  lemma PresentIsIntent(files: Files, busy: Option<RepairId>, r: Receipt, verified: Option<string>)
    requires Kept(files, busy) && Startable(files, verified) && ReceiptAt(r.id) !in files
    requires r.status == Pending && r.artifacts == Present(files)
    ensures ValidReceipt(r) && FirstIntent(files, r)
  {
    assert OwnKept(files, busy, r.id);
    assert r.artifacts[0] == Artifact(Main, files[Source(Main)]);
    assert r.artifacts[1] == Artifact(Lock, files[Source(Lock)]);
    if Source(Wal) in files {
      assert r.artifacts[2] == Artifact(Wal, files[Source(Wal)]);
    }
    if Source(Shm) in files {
      assert r.artifacts[3] == Artifact(Shm, files[Source(Shm)]);
    }
  }

  function WithStatus(files: Files, status: Status): set<RepairId> {
    set n | n in files && n.ReceiptAt? && HasReceipt(files, n.id, status) :: n.id
  }

  lemma StatusIn(files: Files, id: RepairId, status: Status)
    ensures id in WithStatus(files, status) <==> HasReceipt(files, id, status)
  {
    assert ReceiptAt(id) in files ==> ReceiptAt(id).id == id;
  }

  /** Sources, transients and temporary receipts are as before, and so is every receipt that was
      not retiring, with its archives. */
  ghost predicate KeepsOthers(before: Files, after: Files) {
    && (forall n: Name | n.Source? || n.OtherTransient? || n.ReceiptTemp? :: At(after, n) == At(before, n))
    && (forall id | !HasReceipt(before, id, Retiring) :: At(after, ReceiptAt(id)) == At(before, ReceiptAt(id)))
    && (forall id, kind | !HasReceipt(before, id, Retiring) ::
          At(after, Archive(kind, id)) == At(before, Archive(kind, id)))
    && (forall id | HasReceipt(before, id, Retiring) ::
          ReceiptAt(id) !in after || At(after, ReceiptAt(id)) == At(before, ReceiptAt(id)))
  }

  lemma KeepsAtStart(files: Files)
    ensures KeepsOthers(files, files)
  {
  }

  lemma ArchivesKeepOthers(start: Files, before: Files, after: Files, id: RepairId)
    requires KeepsOthers(start, before) && HasReceipt(before, id, Retiring) && OnlyArchives(before, after, id)
    requires ReceiptAt(id) !in after || At(after, ReceiptAt(id)) == At(before, ReceiptAt(id))
    ensures KeepsOthers(start, after)
  {
    assert At(start, ReceiptAt(id)) == At(before, ReceiptAt(id));
  }

  lemma RetiringGone(before: Files, after: Files, id: RepairId)
    requires OnlyArchives(before, after, id) && ReceiptAt(id) !in after
    ensures WithStatus(after, Retiring) == WithStatus(before, Retiring) - {id}
  {
    forall other
      ensures other in WithStatus(after, Retiring) <==> other in WithStatus(before, Retiring) - {id}
    {
      StatusIn(before, other, Retiring);
      StatusIn(after, other, Retiring);
      if other != id {
        assert At(after, ReceiptAt(other)) == At(before, ReceiptAt(other));
      }
    }
  }

  predicate NoSources(files: Files) {
    forall kind :: Source(kind) !in files
  }

  /** What an undisturbed call answers, in terms of the disk it found. */
  ghost predicate Expected(before: Files, after: Files, verified: Option<string>, r: Ending) {
    if Stuck(before) then r == Raised && after == before
    else if !NoOtherTransient(before) then r == Raised
    else if WithStatus(before, Pending) != {} then
      forall id | HasReceipt(before, id, Pending) ::
        r.Repaired? && SameEvidence(r.receipt, before[ReceiptAt(id)].receipt)
    else if Source(Main) !in before then r == if NoSources(before) then Nothing else Raised
    else
      ReceiptAt(NewId(before, verified)) !in before ==>
        (r.Repaired? <==> Startable(before, verified))
        && (r.Repaired? ==> r.receipt.id == NewId(before, verified) && r.receipt.artifacts == Present(before))
  }

  /** The second disk poses the same repair as the first. */
  ghost predicate Alike(before: Files, after: Files) {
    && (forall n: Name | n.Source? || n.OtherTransient? :: At(after, n) == At(before, n))
    && (forall id | HasReceipt(before, id, Pending) || HasReceipt(after, id, Pending) ::
          At(after, ReceiptAt(id)) == At(before, ReceiptAt(id)))
    && (forall id | ReceiptAt(id) in after :: ReceiptAt(id) in before)
  }

  lemma AlikeFacts(before: Files, after: Files)
    requires Alike(before, after)
    ensures NoOtherTransient(after) <==> NoOtherTransient(before)
    ensures WithStatus(after, Pending) == WithStatus(before, Pending)
    ensures NoSources(after) <==> NoSources(before)
  {
    forall n: Name | n.OtherTransient?
      ensures n in after <==> n in before
    {
      assert At(after, n) == At(before, n);
    }
    forall id
      ensures id in WithStatus(after, Pending) <==> id in WithStatus(before, Pending)
    {
      StatusIn(after, id, Pending);
      StatusIn(before, id, Pending);
    }
    forall kind
      ensures Source(kind) in after <==> Source(kind) in before
    {
      assert At(after, Source(kind)) == At(before, Source(kind));
    }
  }

  lemma AlikeSources(before: Files, after: Files, verified: Option<string>)
    requires Alike(before, after)
    ensures Source(Main) in after <==> Source(Main) in before
    ensures Present(after) == Present(before)
    ensures Startable(after, verified) <==> Startable(before, verified)
  {
    assert forall kind :: At(after, Source(kind)) == At(before, Source(kind));
  }

  /** An answer that fits the second disk fits the first one too. */
  lemma Inherits(before: Files, mid: Files, after: Files, verified: Option<string>, r: Ending)
    requires Alike(before, mid) && !Stuck(before) && !Stuck(mid)
    ensures Expected(mid, after, verified, r) ==> Expected(before, after, verified, r)
  {
    AlikeFacts(before, mid);
    AlikeSources(before, mid, verified);
    hide Stuck, Startable, NoOtherTransient, WithStatus, Present, NoSources;
    forall id | HasReceipt(before, id, Pending)
      ensures At(mid, ReceiptAt(id)) == At(before, ReceiptAt(id))
    {
    }
  }

  lemma AlikeCarries(before: Files, mid: Files, after: Files)
    requires Alike(before, mid)
    ensures Carried(mid, after) ==> Carried(before, after)
    ensures Carried(before, mid)
  {
    forall id | HasReceipt(before, id, Pending)
      ensures At(mid, ReceiptAt(id)) == At(before, ReceiptAt(id))
    {
    }
  }

  lemma CleanupAlike(before: Files, after: Files)
    requires SameButTemps(before, after)
    ensures Alike(before, after) && ReceiptIds(after) == ReceiptIds(before)
  {
    forall id
      ensures At(after, ReceiptAt(id)) == At(before, ReceiptAt(id))
      ensures id in ReceiptIds(after) <==> id in ReceiptIds(before)
    {
      InIds(after, id);
      InIds(before, id);
    }
  }

  lemma RetiringAlike(before: Files, after: Files)
    requires KeepsOthers(before, after)
    ensures Alike(before, after) && TempIds(after) == TempIds(before)
  {
    forall id
      ensures id in TempIds(after) <==> id in TempIds(before)
    {
      InIds(after, id);
      InIds(before, id);
      assert At(after, ReceiptTemp(id)) == At(before, ReceiptTemp(id));
    }
  }

  lemma RetiredAlike(before: Files, after: Files, id: RepairId)
    requires OnlyOwn(before, after, id) && HasReceipt(before, id, Complete) && !HasReceipt(after, id, Pending)
    ensures Alike(before, after)
  {
    forall other | other != id
      ensures At(after, ReceiptAt(other)) == At(before, ReceiptAt(other))
    {
    }
  }

  lemma StuckExpected(before: Files, after: Files, verified: Option<string>, r: Ending)
    ensures Stuck(before) && r == Raised && after == before ==> Expected(before, after, verified, r)
  {
  }

  lemma TransientExpected(before: Files, mid: Files, verified: Option<string>)
    requires Alike(before, mid) && !NoOtherTransient(mid) && !Stuck(before)
    ensures Expected(before, mid, verified, Raised)
  {
    AlikeFacts(before, mid);
  }

  lemma OnePending(files: Files, busy: Option<RepairId>)
    requires Kept(files, busy)
    ensures forall id | HasReceipt(files, id, Pending) :: busy == Some(id)
  {
    forall id | HasReceipt(files, id, Pending)
      ensures busy == Some(id)
    {
      assert OwnKept(files, busy, id);
    }
  }

  lemma PendingExpected(before: Files, after: Files, id: RepairId, verified: Option<string>, r: Ending)
    requires !Stuck(before) && NoOtherTransient(before) && HasReceipt(before, id, Pending)
    requires forall other | HasReceipt(before, other, Pending) :: other == id
    requires before[ReceiptAt(id)].receipt.id == id
    ensures r.Repaired? && Finished(before, after, id, r.receipt) ==>
              Expected(before, after, verified, r) && Settled(after, r.receipt)
  {
    StatusIn(before, id, Pending);
  }

  lemma NonePending(files: Files, busy: Option<RepairId>)
    requires Kept(files, busy) && TempIds(files) == {} && WithStatus(files, Pending) == {}
    ensures Kept(files, None)
  {
    if busy.Some? {
      InIds(files, busy.value);
      StatusIn(files, busy.value, Pending);
    }
    Idle(files, busy);
  }

  lemma NothingToCarry(files: Files)
    requires WithStatus(files, Pending) == {}
    ensures forall after: Files :: Carried(files, after)
  {
    forall id
      ensures !HasReceipt(files, id, Pending)
    {
      StatusIn(files, id, Pending);
    }
  }

  function CreatedAt(files: Files, id: RepairId): int {
    if ReceiptAt(id) in files && files[ReceiptAt(id)].Sealed? then files[ReceiptAt(id)].receipt.createdAt else 0
  }

  /** With no receipt pending or retiring, all are complete. */
  lemma AllComplete(files: Files, busy: Option<RepairId>)
    requires Kept(files, busy) && WithStatus(files, Pending) == {} && WithStatus(files, Retiring) == {}
    ensures WithStatus(files, Complete) == ReceiptIds(files)
  {
    forall id
      ensures id in WithStatus(files, Complete) <==> id in ReceiptIds(files)
    {
      InIds(files, id);
      StatusIn(files, id, Pending);
      StatusIn(files, id, Complete);
      StatusIn(files, id, Retiring);
      assert OwnKept(files, busy, id);
    }
  }

  lemma {:induction false} OldestExists(files: Files, ids: set<RepairId>)
    requires ids != {}
    ensures exists id :: id in ids && forall other | other in ids :: CreatedAt(files, id) <= CreatedAt(files, other)
    decreases |ids|
  {
    var id :| id in ids;
    if ids - {id} == {} {
      assert forall other | other in ids :: other == id || other in ids - {id};
    } else {
      OldestExists(files, ids - {id});
      var best :| best in ids - {id}
        && forall other | other in ids - {id} :: CreatedAt(files, best) <= CreatedAt(files, other);
      var oldest := if CreatedAt(files, id) <= CreatedAt(files, best) then id else best;
      assert forall other | other in ids :: CreatedAt(files, oldest) <= CreatedAt(files, other);
    }
  }

  lemma CarriedOne(before: Files, after: Files, id: RepairId)
    requires Carried(before, after) && HasReceipt(before, id, Pending)
    ensures HasReceipt(after, id, Pending) || HasReceipt(after, id, Complete)
    ensures SameEvidence(after[ReceiptAt(id)].receipt, before[ReceiptAt(id)].receipt)
  {
  }

  /** While a repair is pending, nothing but a torn receipt makes an undisturbed call refuse. */
  lemma PendingCanGoOn(files: Files, busy: Option<RepairId>, id: RepairId)
    requires Kept(files, busy) && HasReceipt(files, id, Pending)
    ensures Stuck(files) <==> TornAt(files, id)
    ensures NoOtherTransient(files) && WithStatus(files, Pending) != {}
    ensures ReadsReceipt(files, ReceiptAt(id), id)
  {
    PendingKept(files, busy, id);
    StuckIff(files, busy);
    OneTemp(files, busy);
    InIds(files, id);
    StatusIn(files, id, Pending);
  }

  /** Cut off between the temporary file and the move, a retirement that made room for a new
      journal leaves a disk on which every later call refuses, as long as the new lock file stands. */
  lemma RetirementCanStick(files: Files, id: RepairId)
    requires Kept(files, None) && HasReceipt(files, id, Complete) && Source(Lock) in files
    ensures var retiring := files[ReceiptAt(id)].receipt.(status := Retiring);
      var cut := files[ReceiptTemp(id) := Sealed(retiring)];
      Kept(cut, Some(id)) && Stuck(cut) && !TempPasses(cut, id)
  {
    Retires(files, id);
    var cut := files[ReceiptTemp(id) := Sealed(files[ReceiptAt(id)].receipt.(status := Retiring))];
    assert ReceiptTemp(id) in cut && HasReceipt(cut, ReceiptTemp(id).id, Complete);
    TempPassesIff(cut, Some(id), id);
  }

  /** A receipt whose writing was cut short, before a repair or at any of its later receipts, makes
      every later call refuse, whatever journal files stand. */
  lemma TornReceiptSticks(files: Files, busy: Option<RepairId>, id: RepairId)
    requires Kept(files, busy) && TornAt(files, id)
    ensures busy == Some(id) && Stuck(files) && !TempPasses(files, id)
    ensures forall after: Files | At(after, ReceiptTemp(id)) == At(files, ReceiptTemp(id)) :: Stuck(after)
  {
    assert OwnKept(files, busy, id);
    forall after: Files | At(after, ReceiptTemp(id)) == At(files, ReceiptTemp(id))
      ensures Stuck(after)
    {
      assert ReceiptTemp(id) in after && Blocks(after, ReceiptTemp(id).id);
    }
    assert At(files, ReceiptTemp(id)) == At(files, ReceiptTemp(id));
  }

  /** The application may create journal files at the source names while no repair is under way. */
  lemma NewJournalKeeps(before: Files, busy: Option<RepairId>, after: Files)
    requires Kept(before, busy)
    requires busy.Some? ==> !Underway(before, busy.value)
    requires forall n: Name | !n.Source? && !n.OtherTransient? :: At(after, n) == At(before, n)
    ensures Kept(after, busy)
  {
    forall id
      ensures OwnKept(after, busy, id)
    {
      assert OwnKept(before, busy, id);
      assert At(after, ReceiptAt(id)) == At(before, ReceiptAt(id));
      assert At(after, ReceiptTemp(id)) == At(before, ReceiptTemp(id));
      assert forall kind :: At(after, Archive(kind, id)) == At(before, Archive(kind, id));
    }
    forall id
      ensures id in ReceiptIds(after) <==> id in ReceiptIds(before)
    {
      InIds(after, id);
      InIds(before, id);
      assert At(after, ReceiptAt(id)) == At(before, ReceiptAt(id));
    }
    assert ReceiptIds(after) == ReceiptIds(before);
    if busy.Some? {
      assert At(after, ReceiptAt(busy.value)) == At(before, ReceiptAt(busy.value));
      assert At(after, ReceiptTemp(busy.value)) == At(before, ReceiptTemp(busy.value));
    }
  }

  /** Where no repair ever ran the state is sound, whatever journal files lie at the source names. */
  lemma FreshDirectoryKept(files: Files)
    requires forall n | n in files :: n.Source? || n.OtherTransient?
    ensures Kept(files, None)
  {
    assert ReceiptIds(files) == {};
  }

  class Repairer {
    const disk: Disk<Name, Content>
    ghost var busy: Option<RepairId>

    ghost predicate Valid()
      reads this, disk
    {
      Kept(disk.files, busy)
    }

    constructor (disk: Disk<Name, Content>, ghost busy: Option<RepairId>)
      requires Kept(disk.files, busy)
      ensures this.disk == disk && this.busy == busy && Valid()
    {
      this.disk, this.busy := disk, busy;
    }

    /** `_atomic_private_json`: the temporary file is created, written and flushed, and then moved. An
        error or a crash while it is written leaves it behind as it is. */
    method PublishReceipt(r: Receipt) returns (fate: Fate)
      requires ReceiptTemp(r.id) !in disk.files
      modifies disk
      ensures fate == Works ==> disk.files == old(disk.files)[ReceiptAt(r.id) := Sealed(r)]
      ensures || disk.files == old(disk.files)
              || disk.files == old(disk.files)[ReceiptTemp(r.id) := Torn]
              || disk.files == old(disk.files)[ReceiptTemp(r.id) := Sealed(r)]
              || disk.files == old(disk.files)[ReceiptAt(r.id) := Sealed(r)]
      ensures TornAt(disk.files, r.id) <==>
                First(old(disk.fates)) == Works && First(Rest(old(disk.fates))) != Works
      ensures Calm(old(disk.fates)) ==> fate == Works && Calm(disk.fates)
    {
      hide Calm, First, Rest;
      fate := disk.Write(ReceiptTemp(r.id), Torn);
      if fate != Works {
        return;
      }
      fate := disk.Write(ReceiptTemp(r.id), Sealed(r));
      if fate == Works {
        fate := disk.Sync();
      }
      if fate != Works {
        return;
      }
      fate := disk.Replace(ReceiptTemp(r.id), ReceiptAt(r.id));
      if fate == Works {
        assert disk.files == old(disk.files)[ReceiptAt(r.id) := Sealed(r)];
        fate := disk.Sync();
      } else if fate == Fails {
        fate := disk.Unlink(ReceiptTemp(r.id));
        fate := if fate == Dies then Dies else Fails;
        assert ReceiptTemp(r.id) !in disk.files ==> disk.files == old(disk.files);
      }
    }

    /** `_cleanup_preclaim_receipt_temps`. */
    method CleanTemps() returns (r: Ending)
      requires Valid()
      modifies disk
      ensures Valid() && (r == Nothing || r == Raised || r == Crashed)
      ensures SameButTemps(old(disk.files), disk.files)
      ensures r == Nothing ==> TempIds(disk.files) == {} && !Stuck(old(disk.files))
      ensures Stuck(old(disk.files)) ==> r == Raised && disk.files == old(disk.files)
      ensures Calm(old(disk.fates)) ==> (r == Nothing <==> !Stuck(old(disk.files))) && Calm(disk.fates)
      ensures Calm(old(disk.fates)) && r != Nothing ==> r == Raised && disk.files == old(disk.files)
    {
      hide Kept, OwnKept, TempPasses, Stuck;
      var names := TempIds(disk.files);
      OneTemp(disk.files, busy);
      assert |names| <= MAX_RECEIPT_TEMPS;  // so the program's test of their number passes
      StuckIff(disk.files, busy);
      while names != {}
        invariant Valid() && names == TempIds(disk.files)
        invariant SameButTemps(old(disk.files), disk.files)
        invariant names != {} ==> disk.files == old(disk.files)
        invariant Calm(old(disk.fates)) ==> Calm(disk.fates)
        invariant names == {} ==> !Stuck(old(disk.files))
        decreases |names|
      {
        var id :| id in names;
        InIds(disk.files, id);
        TempPassesIff(disk.files, busy, id);
        if !TempPasses(disk.files, id) {
          return Raised;
        }
        TempRemoved(disk.files, busy, id);
        var fate := disk.Unlink(ReceiptTemp(id));
        if fate == Works {
          fate := disk.Sync();
        }
        if fate != Works {
          return Broken(fate);
        }
        names := names - {id};
        TempGone(old(disk.files), id);
      }
      r := Nothing;
    }

    /** Moves one sealed file to its archive name, unless an earlier call already did. */
    method ArchiveOne(id: RepairId, i: nat) returns (r: Ending)
      requires Valid() && HasReceipt(disk.files, id, Pending) && ReceiptTemp(id) !in disk.files
      requires i < |disk.files[ReceiptAt(id)].receipt.artifacts|
      modifies disk
      ensures Valid() && (r == Nothing || r == Raised || r == Crashed)
      ensures var a := old(disk.files)[ReceiptAt(id)].receipt.artifacts[i];
        && (disk.files == old(disk.files) || MovedAside(old(disk.files), disk.files, a, id))
        && (r == Nothing ==> Archived(disk.files, a, id))
      ensures Calm(old(disk.fates)) ==> r == Nothing && Calm(disk.fates)
    {
      hide Kept, OwnKept;
      var a := disk.files[ReceiptAt(id)].receipt.artifacts[i];
      PendingKept(disk.files, busy, id);
      if !AtOneName(disk.files, a, id) {
        return Raised;
      }
      r := Nothing;
      if Source(a.kind) in disk.files {
        Renamed(disk.files, busy, id, i);
        var fate := disk.Replace(Source(a.kind), Archive(a.kind, id));
        if fate == Works {
          fate := disk.Sync();
        }
        r := if fate == Works then Nothing else Broken(fate);
      }
    }

    /** `_finish_preclaim_repair`: moves what is still at its source name, then completes the receipt. */
    method Finish(id: RepairId) returns (r: Ending)
      requires Valid() && HasReceipt(disk.files, id, Pending) && ReceiptTemp(id) !in disk.files
      modifies disk
      ensures Valid() && r != Nothing && Carried(old(disk.files), disk.files)
      ensures OnlyRepair(old(disk.files), disk.files, id)
      ensures r.Repaired? ==> Finished(old(disk.files), disk.files, id, r.receipt)
      ensures Calm(old(disk.fates)) ==> r.Repaired? && Calm(disk.fates)
    {
      hide Kept, OwnKept, ReceiptIds, Calm, AtOneName, Archived, ValidReceipt, Carried, MovedAside, SameEvidence;
      var receipt := disk.files[ReceiptAt(id)].receipt;
      CarriedAtStart(disk.files);
      PendingKept(disk.files, busy, id);
      for i := 0 to |receipt.artifacts|
        invariant Valid() && HasReceipt(disk.files, id, Pending) && disk.files[ReceiptAt(id)].receipt == receipt
        invariant ReceiptTemp(id) !in disk.files && Carried(old(disk.files), disk.files)
        invariant OnlyRepair(old(disk.files), disk.files, id)
        invariant forall k | 0 <= k < i :: Archived(disk.files, receipt.artifacts[k], id)
        invariant Calm(old(disk.fates)) ==> Calm(disk.fates)
      {
        ghost var before := disk.files;
        PendingKept(disk.files, busy, id);
        r := ArchiveOne(id, i);
        MovedKeeps(old(disk.files), before, disk.files, receipt, i, id);
        OnlyRepairThen(old(disk.files), before, disk.files, id);
        if r != Nothing {
          return;
        }
      }
      ghost var moved := disk.files;
      r := CompleteReceipt(id);
      OnlyRepairThen(old(disk.files), moved, disk.files, id);
    }

    /** Publishes the completed receipt once all files are archived. */
    method CompleteReceipt(id: RepairId) returns (r: Ending)
      requires Valid() && HasReceipt(disk.files, id, Pending) && ReceiptTemp(id) !in disk.files
      requires forall k | 0 <= k < |disk.files[ReceiptAt(id)].receipt.artifacts| ::
                 Archived(disk.files, disk.files[ReceiptAt(id)].receipt.artifacts[k], id)
      modifies disk
      ensures Valid() && r != Nothing && OnlyRepair(old(disk.files), disk.files, id)
      ensures forall start: Files | Carried(start, old(disk.files)) :: Carried(start, disk.files)
      ensures r.Repaired? ==> Finished(old(disk.files), disk.files, id, r.receipt)
      ensures Calm(old(disk.fates)) ==> r.Repaired? && Calm(disk.fates)
    {
      hide Kept, OwnKept, ReceiptIds, AtOneName, Carried;
      PendingKept(disk.files, busy, id);
      Completes(disk.files, busy, id);
      var done := disk.files[ReceiptAt(id)].receipt.(status := Complete);
      var fate := disk.Sync();
      if fate == Works {
        ghost var before := disk.files;
        fate := PublishReceipt(done);
        CompletionCarries(before, disk.files, id);
        ArchivesUntouched(before, disk.files, id, done);
      }
      r := if fate == Works then Repaired(done) else Broken(fate);
    }

    /** Removes one archive of a retiring repair, unless an earlier call already did. */
    method RemoveArchive(id: RepairId, i: nat) returns (r: Ending)
      requires Valid() && HasReceipt(disk.files, id, Retiring)
      requires i < |disk.files[ReceiptAt(id)].receipt.artifacts|
      modifies disk
      ensures Valid() && (r == Nothing || r == Raised || r == Crashed)
      ensures var n := Archive(old(disk.files)[ReceiptAt(id)].receipt.artifacts[i].kind, id);
        (disk.files == old(disk.files) || disk.files == old(disk.files) - {n})
        && (r == Nothing ==> n !in disk.files)
      ensures Calm(old(disk.fates)) ==> r == Nothing && Calm(disk.fates)
    {
      hide Kept;
      OwnOf(disk.files, busy, id);
      hide OwnKept;
      var a := disk.files[ReceiptAt(id)].receipt.artifacts[i];
      var n := Archive(a.kind, id);
      r := Nothing;
      if n in disk.files {
        if disk.files[n] != a.data {
          return Raised;
        }
        ArchiveRemoved(disk.files, busy, id, a.kind);
        var fate := disk.Unlink(n);
        r := if fate == Works then Nothing else Broken(fate);
      }
    }

    /** Removes the archives of a retiring repair, then its receipt. */
    method RemoveRetired(id: RepairId) returns (r: Ending)
      requires Valid() && HasReceipt(disk.files, id, Retiring)
      modifies disk
      ensures Valid() && (r == Nothing || r == Raised || r == Crashed)
      ensures OnlyArchives(old(disk.files), disk.files, id)
      ensures ReceiptAt(id) !in disk.files || At(disk.files, ReceiptAt(id)) == At(old(disk.files), ReceiptAt(id))
      ensures r == Nothing ==>
                ReceiptAt(id) !in disk.files && |ReceiptIds(disk.files)| < |ReceiptIds(old(disk.files))|
      ensures Calm(old(disk.fates)) ==> r == Nothing && Calm(disk.fates)
    {
      hide Kept, ReceiptIds, OwnKept;
      var receipt := disk.files[ReceiptAt(id)].receipt;
      for i := 0 to |receipt.artifacts|
        invariant Valid() && OnlyArchives(old(disk.files), disk.files, id)
        invariant At(disk.files, ReceiptAt(id)) == Some(Sealed(receipt))
        invariant forall k | 0 <= k < i :: Archive(receipt.artifacts[k].kind, id) !in disk.files
        invariant |ReceiptIds(disk.files)| == |ReceiptIds(old(disk.files))|
        invariant Calm(old(disk.fates)) ==> Calm(disk.fates)
      {
        SameIds(disk.files, id, receipt.artifacts[i].kind);
        r := RemoveArchive(id, i);
        if r != Nothing {
          return;
        }
      }
      r := RemoveReceipt(id);
    }

    method RemoveReceipt(id: RepairId) returns (r: Ending)
      requires Valid() && HasReceipt(disk.files, id, Retiring)
      requires forall i | 0 <= i < |disk.files[ReceiptAt(id)].receipt.artifacts| ::
                 Archive(disk.files[ReceiptAt(id)].receipt.artifacts[i].kind, id) !in disk.files
      modifies disk
      ensures Valid() && (r == Nothing || r == Raised || r == Crashed)
      ensures disk.files == old(disk.files) || disk.files == old(disk.files) - {ReceiptAt(id)}
      ensures r == Nothing ==>
                ReceiptAt(id) !in disk.files && |ReceiptIds(disk.files)| < |ReceiptIds(old(disk.files))|
      ensures Calm(old(disk.fates)) ==> r == Nothing && Calm(disk.fates)
    {
      hide Kept, ReceiptIds, OwnKept;
      ReceiptRemoved(disk.files, busy, id);
      var fate := disk.Sync();
      if fate == Works {
        fate := disk.Unlink(ReceiptAt(id));
      }
      if fate == Works {
        fate := disk.Sync();
      }
      r := if fate == Works then Nothing else Broken(fate);
    }

    /** `_retire_preclaim_repair` of a completed repair. */
    method Retire(id: RepairId) returns (r: Ending)
      requires Valid() && busy == None && HasReceipt(disk.files, id, Complete)
      modifies this, disk
      ensures Valid() && (r == Nothing || r == Raised || r == Crashed)
      ensures OnlyOwn(old(disk.files), disk.files, id) && !HasReceipt(disk.files, id, Pending)
      ensures r == Nothing ==> busy == None && |ReceiptIds(disk.files)| < |ReceiptIds(old(disk.files))|
                               && TempIds(disk.files) == {}
      ensures Calm(old(disk.fates)) ==> r == Nothing && Calm(disk.fates)
    {
      hide Kept, ReceiptIds, OwnKept, TempIds;
      var retiring := disk.files[ReceiptAt(id)].receipt.(status := Retiring);
      Retires(disk.files, id);
      OwnId(disk.files, busy, id);
      ghost var before := disk.files;
      var fate := PublishReceipt(retiring);
      if fate != Works {
        if ReceiptTemp(id) in disk.files {
          busy := Some(id);
        }
        return Broken(fate);
      }
      CountSame(before, id, retiring);
      r := RemoveRetired(id);
      OneTemp(disk.files, busy);
    }

    /** Seals the files of an empty journal and moves them aside. */
    method Begin(verified: Option<string>, now: int) returns (r: Ending)
      requires Valid() && busy == None && NoOtherTransient(disk.files) && |ReceiptIds(disk.files)| < MAX_RECEIPTS
      requires Source(Main) in disk.files
      modifies this, disk
      ensures Valid() && r != Nothing && CompletedStay(old(disk.files), disk.files, None)
      ensures r.Repaired? ==> Settled(disk.files, r.receipt)
      ensures Calm(old(disk.fates)) ==>
                && Calm(disk.fates)
                && (r.Repaired? <==> Startable(old(disk.files), verified)
                                     && ReceiptAt(NewId(old(disk.files), verified)) !in old(disk.files))
      ensures r.Repaired? ==> Startable(old(disk.files), verified)
                              && r.receipt == Receipt(Complete, NewId(old(disk.files), verified),
                                                      Present(old(disk.files)), now)
    {
      hide Kept, OwnKept, ReceiptIds, ValidReceipt, FirstIntent, Archived, CompletedStay;
      RoomAtStart(disk.files);
      if Source(Lock) !in disk.files || (Source(Shm) in disk.files && Source(Wal) !in disk.files)
         || !Readable(disk.files) || disk.files[Source(Lock)].text != "" || verified.None?
      {
        return Raised;
      }
      var artifacts := Present(disk.files);
      var id := RepairId(verified.value, artifacts);
      if ReceiptAt(id) in disk.files {
        return Raised;
      }
      var receipt := Receipt(Pending, id, artifacts, now);
      PresentIsIntent(disk.files, busy, receipt, verified);
      Begins(disk.files, receipt);
      ghost var before := disk.files;
      NoTemp(disk.files, id);
      var fate := PublishReceipt(receipt);
      if disk.files != before {
        busy := Some(id);
      }
      assert OnlyRepair(before, disk.files, id);
      OnlyRepairStay(before, disk.files, id);
      if fate != Works {
        return Broken(fate);
      }
      ghost var begun := disk.files;
      r := Finish(id);
      OnlyRepairThen(before, begun, disk.files, id);
      OnlyRepairStay(before, disk.files, id);
    }

    /** Finishes the removal of every retiring repair. */
    method FinishRetiring() returns (r: Ending)
      requires Valid()
      modifies disk
      ensures Valid() && (r == Nothing || r == Raised || r == Crashed)
      ensures KeepsOthers(old(disk.files), disk.files)
      ensures r == Nothing ==> WithStatus(disk.files, Retiring) == {}
                               && (WithStatus(old(disk.files), Retiring) != {} ==>
                                     |ReceiptIds(disk.files)| < |ReceiptIds(old(disk.files))|)
                               && (WithStatus(old(disk.files), Retiring) == {} ==> disk.files == old(disk.files))
      ensures Calm(old(disk.fates)) ==> r == Nothing && Calm(disk.fates)
    {
      hide Kept, ReceiptIds, WithStatus, KeepsOthers, OnlyArchives, Calm;
      KeepsAtStart(disk.files);
      var retiring := WithStatus(disk.files, Retiring);
      ghost var before := disk.files;
      while retiring != {}
        invariant Valid() && retiring == WithStatus(disk.files, Retiring) && KeepsOthers(before, disk.files)
        invariant (disk.files == before && retiring == WithStatus(before, Retiring))
                  || (WithStatus(before, Retiring) != {} && |ReceiptIds(disk.files)| < |ReceiptIds(before)|)
        invariant Calm(old(disk.fates)) ==> Calm(disk.fates)
        decreases |retiring|
      {
        var id :| id in retiring;
        StatusIn(disk.files, id, Retiring);
        ghost var was := disk.files;
        r := RemoveRetired(id);
        ArchivesKeepOthers(before, was, disk.files, id);
        if r != Nothing {
          return;
        }
        RetiringGone(was, disk.files, id);
        retiring := retiring - {id};
      }
      r := Nothing;
    }

    /** `repair_empty_preclaim_journal_residue`: clears what a cut-off call left in temporary
        receipts, checks all receipts, and goes on. */
    method Repair(verified: Option<string>, now: int) returns (r: Ending)
      requires Valid()
      modifies this, disk
      ensures Valid()
      ensures Carried(old(disk.files), disk.files) && RoomMade(old(disk.files), disk.files)
      ensures r.Repaired? ==> Settled(disk.files, r.receipt)
      ensures r.Repaired? && WithStatus(old(disk.files), Pending) == {} ==> r.receipt.createdAt == now
      ensures r == Nothing ==> NoSources(disk.files)
      ensures Stuck(old(disk.files)) ==> r == Raised && disk.files == old(disk.files)
      ensures Calm(old(disk.fates)) ==> Calm(disk.fates) && Expected(old(disk.files), disk.files, verified, r)
      decreases |ReceiptIds(disk.files)|, 2
    {
      hide Kept, OwnKept, ReceiptIds, TempIds, Startable, Settled, Carried, ScanPasses, Calm, Alike, SameButTemps;
      hide NoOtherTransient, Stuck, NoSources, Expected, RoomMade;
      ghost var start := disk.files;
      CarriedAtStart(start);
      r := CleanTemps();
      CleanupAlike(start, disk.files);
      RoomAtStart(disk.files);
      CleanupRoom(start, disk.files, disk.files);
      AlikeCarries(start, disk.files, disk.files);
      if r != Nothing {
        StuckExpected(start, disk.files, verified, r);
        return;
      }
      ghost var cleaned := disk.files;
      StuckIff(cleaned, busy);
      ScanPassesIff(disk.files, busy);
      if !ScanPasses(disk.files) {
        TransientExpected(start, cleaned, verified);
        return Raised;
      }
      r := Proceed(verified, now);
      Inherits(start, cleaned, disk.files, verified, r);
      AlikeCarries(start, cleaned, disk.files);
      CleanupRoom(start, cleaned, disk.files);
      AlikeFacts(start, cleaned);
    }

    /** Ends retirements, or finishes the pending repair, or begins a new one. */
    method Proceed(verified: Option<string>, now: int) returns (r: Ending)
      requires Valid() && TempIds(disk.files) == {} && NoOtherTransient(disk.files)
      modifies this, disk
      ensures Valid()
      ensures Carried(old(disk.files), disk.files) && RoomMade(old(disk.files), disk.files)
      ensures r.Repaired? ==> Settled(disk.files, r.receipt)
      ensures r.Repaired? && WithStatus(old(disk.files), Pending) == {} ==> r.receipt.createdAt == now
      ensures r == Nothing ==> NoSources(disk.files)
      ensures Calm(old(disk.fates)) ==> Calm(disk.fates) && Expected(old(disk.files), disk.files, verified, r)
      decreases |ReceiptIds(disk.files)|, 1
    {
      hide Kept, OwnKept, ReceiptIds, TempIds, Startable, Settled, Carried, Calm, Alike, KeepsOthers, WithStatus;
      hide NoOtherTransient, Stuck, NoSources, Expected, Finished, CompletedStay, OnlyRepair;
      ghost var start := disk.files;
      CarriedAtStart(start);
      AtMostEight(start, busy);
      StuckIff(start, busy);
      var retiring := WithStatus(disk.files, Retiring);
      r := FinishRetiring();
      ghost var mid := disk.files;
      RetiringAlike(start, mid);
      AlikeCarries(start, mid, mid);
      KeepsStay(start, mid);
      if r != Nothing {
        return;
      }
      if retiring != {} {
        StuckIff(mid, busy);
        r := Repair(verified, now);
        Inherits(start, mid, disk.files, verified, r);
        AlikeCarries(start, mid, disk.files);
        AlikeFacts(start, mid);
        RoomAbove(start, mid, disk.files);
        return;
      }
      var pending := WithStatus(disk.files, Pending);
      if pending != {} {
        var id :| id in pending;
        StatusIn(disk.files, id, Pending);
        InIds(disk.files, id);
        OnePending(disk.files, busy);
        OwnId(disk.files, busy, id);
        r := Finish(id);
        OnlyRepairStay(start, disk.files, id);
        PendingExpected(start, disk.files, id, verified, r);
        return;
      }
      NonePending(disk.files, busy);
      busy := None;
      r := StartAnew(verified, now);
    }

    /** With nothing under way: makes room when all receipts are taken, and begins a repair. */
    method StartAnew(verified: Option<string>, now: int) returns (r: Ending)
      requires Valid() && busy == None && NoOtherTransient(disk.files)
      requires WithStatus(disk.files, Pending) == {} && WithStatus(disk.files, Retiring) == {}
      requires !Stuck(disk.files)
      modifies this, disk
      ensures Valid()
      ensures Carried(old(disk.files), disk.files) && RoomMade(old(disk.files), disk.files)
      ensures r.Repaired? ==> Settled(disk.files, r.receipt)
      ensures r.Repaired? && WithStatus(old(disk.files), Pending) == {} ==> r.receipt.createdAt == now
      ensures r == Nothing ==> NoSources(disk.files)
      ensures Calm(old(disk.fates)) ==> Calm(disk.fates) && Expected(old(disk.files), disk.files, verified, r)
      decreases |ReceiptIds(disk.files)|, 0
    {
      hide Kept, OwnKept, ReceiptIds, TempIds, Settled, Calm, Alike, OnlyOwn, WithStatus, NoOtherTransient, Stuck;
      hide RoomMade, Oldest, Full, CompletedStay, CreatedAt;
      ghost var start := disk.files;
      NothingToCarry(start);
      RoomAtStart(start);
      if Source(Main) !in disk.files {
        return if NoSources(disk.files) then Nothing else Raised;
      }
      if |ReceiptIds(disk.files)| >= MAX_RECEIPTS {
        var completed := WithStatus(disk.files, Complete);
        AllComplete(disk.files, busy);
        OldestExists(disk.files, completed);
        var id :| id in completed
          && forall other | other in completed :: CreatedAt(disk.files, id) <= CreatedAt(disk.files, other);
        StatusIn(disk.files, id, Complete);
        AtMostEight(disk.files, busy);
        AllAreComplete(disk.files);
        OldestIs(disk.files, id);
        r := Retire(id);
        ghost var mid := disk.files;
        RetiredAlike(start, mid, id);
        OwnStay(start, mid, id);
        if r != Nothing {
          RoomAfterRetiring(start, mid, mid, id);
          return;
        }
        AtMostEight(start, None);
        StuckIff(mid, busy);
        r := Repair(verified, now);
        Inherits(start, mid, disk.files, verified, r);
        AlikeFacts(start, mid);
        RoomAfterRetiring(start, mid, disk.files, id);
        return;
      }
      r := Begin(verified, now);
      UntouchedIsRoom(start, disk.files);
    }

    /** A pending repair over any number of starts, each with its own failures and its own crash:
        it stays the same repair, and one undisturbed start completes it, unless an earlier one was
        cut short while it wrote the completed receipt; then it is pending for ever. */
    method FinishAcrossCrashes(id: RepairId, verified: Option<string>, now: int, starts: seq<seq<Fate>>)
      requires Valid() && HasReceipt(disk.files, id, Pending)
      modifies this, disk
      ensures Valid() && ReceiptAt(id) in disk.files && disk.files[ReceiptAt(id)].Sealed?
      ensures SameEvidence(disk.files[ReceiptAt(id)].receipt, old(disk.files)[ReceiptAt(id)].receipt)
      ensures HasReceipt(disk.files, id, Pending) || HasReceipt(disk.files, id, Complete)
      ensures (exists i :: 0 <= i < |starts| && Calm(starts[i])) ==>
                HasReceipt(disk.files, id, Complete) || TornAt(disk.files, id)
      ensures TornAt(old(disk.files), id) ==> disk.files == old(disk.files)
    {
      hide Kept, OwnKept, Calm, Carried, NoOtherTransient, Stuck, Present, Startable, TornAt;
      for i := 0 to |starts|
        invariant Valid() && (HasReceipt(disk.files, id, Pending) || HasReceipt(disk.files, id, Complete))
        invariant SameEvidence(disk.files[ReceiptAt(id)].receipt, old(disk.files)[ReceiptAt(id)].receipt)
        invariant (exists k :: 0 <= k < i && Calm(starts[k])) ==>
                    HasReceipt(disk.files, id, Complete) || TornAt(disk.files, id)
        invariant TornAt(old(disk.files), id) ==> disk.files == old(disk.files)
      {
        if HasReceipt(disk.files, id, Pending) {
          disk.fates := starts[i];
          ghost var before := disk.files;
          PendingCanGoOn(before, busy, id);
          var r := Repair(verified, now);
          CarriedOne(before, disk.files, id);
        }
      }
    }
  }
}
