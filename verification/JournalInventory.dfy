/** Paging through the request journal, and reviewing its unresolved rows. */
module JournalInventory {
  import opened RequestJournal
  import opened TextOrder

  const RECONCILIATION_OPERATIONS := {"reconcile_request_journal", "reconcile_stranded_accepted_prune"}

  // ----- the order of the rows -----

  predicate Less(a: Key, b: Key) {
    Precedes(a.caller, b.caller) || (a.caller == b.caller && Precedes(a.requestId, b.requestId))
  }

  lemma LessIsStrict(a: Key, b: Key)
    ensures !(Less(a, b) && Less(b, a)) && !Less(a, a)
    ensures a == b || Less(a, b) || Less(b, a)
  {
    PrecedesIsTotal(a.caller, b.caller);
    PrecedesIsTotal(a.requestId, b.requestId);
    if Precedes(a.caller, b.caller) { PrecedesIsAsymmetric(a.caller, b.caller); }
    if Precedes(a.requestId, b.requestId) { PrecedesIsAsymmetric(a.requestId, b.requestId); }
    if Precedes(a.caller, a.caller) { PrecedesIsAsymmetric(a.caller, a.caller); }
    if Precedes(a.requestId, a.requestId) { PrecedesIsAsymmetric(a.requestId, a.requestId); }
  }

  lemma LessIsTransitive(a: Key, b: Key, c: Key)
    requires Less(a, b) && Less(b, c)
    ensures Less(a, c)
  {
    if Precedes(a.caller, b.caller) && Precedes(b.caller, c.caller) {
      PrecedesIsTransitive(a.caller, b.caller, c.caller);
    }
    if Precedes(a.caller, a.caller) {
      PrecedesIsAsymmetric(a.caller, a.caller);
    } else if a.caller == b.caller && b.caller == c.caller {
      PrecedesIsTransitive(a.requestId, b.requestId, c.requestId);
    }
  }

  predicate Ascending(keys: seq<Key>) {
    forall i, j | 0 <= i < j < |keys| :: Less(keys[i], keys[j])
  }

  predicate Least(keys: set<Key>, k: Key) {
    k in keys && forall other | other in keys && other != k :: Less(k, other)
  }

  lemma {:induction false} LeastExists(keys: set<Key>) returns (least: Key)
    requires keys != {}
    ensures Least(keys, least)
    decreases |keys|
  {
    var first :| first in keys;
    var rest := keys - {first};
    if rest == {} {
      least := first;
      assert keys == rest + {first};
    } else {
      var best := LeastExists(rest);
      LessIsStrict(first, best);
      least := if Less(best, first) then best else first;
      forall other | other in keys && other != least
        ensures Less(least, other)
      {
        if other == first || other == best {
          assert least == best || least == first;
        } else {
          assert other in rest && Less(best, other);
          if least == first {
            LessIsTransitive(first, best, other);
          }
        }
      }
    }
  }

  /** The keys in ascending order. */
  ghost function Sorted(keys: set<Key>): (sorted: seq<Key>)
    ensures Ascending(sorted) && (forall k :: k in sorted <==> k in keys)
    decreases |keys|
  {
    if keys == {} then []
    else
      assert exists k :: Least(keys, k) by { var least := LeastExists(keys); }
      var k :| Least(keys, k);
      [k] + Sorted(keys - {k})
  }

  lemma {:induction false} OnlyOneOrder(a: seq<Key>, b: seq<Key>)
    requires Ascending(a) && Ascending(b) && forall k :: k in a <==> k in b
    ensures a == b
  {
    assert |a| > 0 ==> a[0] in b;
    assert |b| > 0 ==> b[0] in a;
    if |a| > 0 {
      LessIsStrict(a[0], b[0]);
      var i :| 0 <= i < |b| && b[i] == a[0];
      var j :| 0 <= j < |a| && a[j] == b[0];
      assert a[0] == b[0];
      forall k
        ensures k in a[1..] <==> k in b[1..]
      {
        LessIsStrict(k, a[0]);
        assert k in a <==> k == a[0] || k in a[1..];
        assert k in b <==> k == b[0] || k in b[1..];
        if k in a[1..] {
          assert Less(a[0], k);
        }
        if k in b[1..] {
          assert Less(b[0], k);
        }
      }
      OnlyOneOrder(a[1..], b[1..]);
    }
  }

  // ----- filters and snapshots -----

  datatype Filter = Filter(states: set<State>, caller: Option<string>, operation: Option<string>)

  predicate Matches(f: Filter, k: Key, r: Row) {
    && r.state in f.states
    && r.operation !in RECONCILIATION_OPERATIONS
    && (f.caller.Some? ==> k.caller == f.caller.value)
    && (f.operation.Some? ==> r.operation == f.operation.value)
  }

  function Filtered(rows: Rows, f: Filter): Rows {
    map k | k in rows && Matches(f, k, rows[k]) :: rows[k]
  }

  datatype Entry = Entry(k: Key, row: Row)

  function Entries(rows: Rows, keys: seq<Key>): seq<Entry>
    requires forall i | 0 <= i < |keys| :: keys[i] in rows
  {
    seq(|keys|, i requires 0 <= i < |keys| => Entry(keys[i], rows[keys[i]]))
  }

  /** The filtered rows in their order. */
  ghost function Rowlist(rows: Rows, f: Filter): (entries: seq<Entry>)
    ensures forall i | 0 <= i < |entries| :: entries[i].k in rows && rows[entries[i].k] == entries[i].row
  {
    var sorted := Sorted(Filtered(rows, f).Keys);
    assert forall i | 0 <= i < |sorted| :: sorted[i] in sorted;
    Entries(Filtered(rows, f), sorted)
  }

  datatype Binding = Binding(journalId: string, storeIdentity: Option<string>)

  /** A digest of what it was computed from. */
  datatype Revision =
    | SnapshotRevision(binding: Binding, filter: Filter, entries: seq<Entry>)
    | EntryRevision(binding: Binding, entry: Entry)

  ghost function SnapshotOf(b: Binding, rows: Rows, f: Filter): Revision {
    SnapshotRevision(b, f, Rowlist(rows, f))
  }

  /** Two snapshots agree exactly when they come from the same filter over the same filtered rows. */
  lemma SameSnapshotIff(b: Binding, rows: Rows, f: Filter, rows': Rows, f': Filter)
    ensures SnapshotOf(b, rows, f) == SnapshotOf(b, rows', f') <==> f == f' && Filtered(rows, f) == Filtered(rows', f')
  {
    if SnapshotOf(b, rows, f) == SnapshotOf(b, rows', f') {
      ListDetermines(rows, rows', f);
      ListDetermines(rows', rows, f);
    }
  }

  lemma ListDetermines(rows: Rows, rows': Rows, f: Filter)
    requires Rowlist(rows, f) == Rowlist(rows', f)
    ensures Filtered(rows, f).Keys <= Filtered(rows', f).Keys
    ensures forall k | k in Filtered(rows, f) :: k in rows' && rows'[k] == rows[k]
  {
    var sorted, sorted' := Sorted(Filtered(rows, f).Keys), Sorted(Filtered(rows', f).Keys);
    forall k | k in Filtered(rows, f)
      ensures k in Filtered(rows', f) && rows'[k] == rows[k]
    {
      var i :| 0 <= i < |sorted| && sorted[i] == k;
      assert Rowlist(rows, f)[i] == Rowlist(rows', f)[i] == Entry(k, rows[k]);
      assert sorted'[i] in sorted';
    }
  }

  // ----- pages -----

  predicate After(cursor: Option<Key>, k: Key) {
    cursor.Some? ==> Less(cursor.value, k)
  }

  function Eligible(list: seq<Entry>, cursor: Option<Key>): seq<Entry> {
    if |list| == 0 then []
    else
      var before := Eligible(list[..|list| - 1], cursor);
      if After(cursor, list[|list| - 1].k) then before + [list[|list| - 1]] else before
  }

  datatype Page = Page(entries: seq<Entry>, next: Option<Key>)

  function PageOf(list: seq<Entry>, cursor: Option<Key>, limit: nat): Page
    requires limit > 0
  {
    var eligible := Eligible(list, cursor);
    if |eligible| > limit then Page(eligible[..limit], Some(eligible[limit - 1].k)) else Page(eligible, None)
  }

  predicate Ordered(list: seq<Entry>) {
    forall i, j | 0 <= i < j < |list| :: Less(list[i].k, list[j].k)
  }

  /** What lies behind the cursor at position `n` is the rest of the list. */
  lemma {:induction false} EligibleIsRest(list: seq<Entry>, n: nat, m: nat)
    requires Ordered(list) && n <= m <= |list|
    ensures Eligible(list[..m], if n == 0 then None else Some(list[n - 1].k)) == list[n..m]
  {
    var cursor := if n == 0 then None else Some(list[n - 1].k);
    if m > 0 {
      assert list[..m][..m - 1] == list[..m - 1];
      if n == m {
        EligibleIsNone(list, n, m);
      } else {
        EligibleIsRest(list, n, m - 1);
      }
    }
  }

  lemma {:induction false} EligibleIsNone(list: seq<Entry>, n: nat, m: nat)
    requires Ordered(list) && m <= n <= |list| && n > 0
    ensures Eligible(list[..m], Some(list[n - 1].k)) == []
  {
    if m > 0 {
      assert list[..m][..m - 1] == list[..m - 1];
      EligibleIsNone(list, n, m - 1);
      LessIsStrict(list[m - 1].k, list[n - 1].k);
    }
  }

  /** A page, unless the caller expects another snapshot. */
  ghost function Serve(b: Binding, rows: Rows, f: Filter, cursor: Option<Key>, limit: nat, expected: Option<Revision>)
    : Option<Page>
    requires limit > 0
  {
    if expected.Some? && expected.value != SnapshotOf(b, rows, f) then None
    else Some(PageOf(Rowlist(rows, f), cursor, limit))
  }

  /** A reader follows the cursors, each page being served from the journal as it then is; the
      reader passes the snapshot revision of the first page along.  The entries read, once the
      last page has come without a refusal. */
  ghost function Follow(b: Binding, states: seq<Rows>, f: Filter, cursor: Option<Key>, limit: nat,
                        expected: Option<Revision>): Option<seq<Entry>>
    requires limit > 0
    decreases |states|
  {
    if |states| == 0 then None
    else
      match Serve(b, states[0], f, cursor, limit, expected)
      case None => None
      case Some(page) =>
        if page.next.None? then Some(page.entries)
        else
          var revision := if expected.Some? then expected else Some(SnapshotOf(b, states[0], f));
          match Follow(b, states[1..], f, page.next, limit, revision)
          case None => None
          case Some(rest) => Some(page.entries + rest)
  }

  function CursorAt(list: seq<Entry>, n: nat): Option<Key>
    requires n <= |list|
  {
    if n == 0 then None else Some(list[n - 1].k)
  }

  /** The page at position `n` is the next stretch of the list, and points behind it. */
  lemma PageAt(list: seq<Entry>, n: nat, limit: nat)
    requires Ordered(list) && n <= |list| && limit > 0
    ensures PageOf(list, CursorAt(list, n), limit) ==
              if |list| - n > limit then Page(list[n..n + limit], CursorAt(list, n + limit)) else Page(list[n..], None)
  {
    EligibleIsRest(list, n, |list|);
    assert list[..|list|] == list;
    hide Eligible;
  }

  /** One step of a reader that expects the snapshot of the journal `first`. */
  lemma FollowStep(b: Binding, states: seq<Rows>, f: Filter, first: Rows, n: nat, limit: nat)
    requires limit > 0 && n <= |Rowlist(first, f)| && |states| > 0
    ensures var list := Rowlist(first, f);
      var revision := Some(SnapshotOf(b, first, f));
      Follow(b, states, f, CursorAt(list, n), limit, revision) ==
        if Filtered(states[0], f) != Filtered(first, f) then None
        else if |list| - n <= limit then Some(list[n..])
        else
          match Follow(b, states[1..], f, CursorAt(list, n + limit), limit, revision)
          case None => None
          case Some(rest) => Some(list[n..n + limit] + rest)
  {
    ServeAt(b, states[0], f, first, n, limit);
    hide SnapshotOf, Rowlist, Filtered, Serve;
  }

  lemma {:induction false} FollowReadsRest(b: Binding, states: seq<Rows>, f: Filter, first: Rows, n: nat, limit: nat)
    requires limit > 0 && n <= |Rowlist(first, f)|
    ensures var list := Rowlist(first, f);
      var read := Follow(b, states, f, CursorAt(list, n), limit, Some(SnapshotOf(b, first, f)));
      read.Some? ==> read.value == list[n..]
    decreases |states|
  {
    hide Follow, SnapshotOf, Rowlist, Filtered, CursorAt;
    var list := Rowlist(first, f);
    if |states| > 0 {
      FollowStep(b, states, f, first, n, limit);
      if |list| - n > limit {
        FollowReadsRest(b, states[1..], f, first, n + limit, limit);
        assert list[n..] == list[n..n + limit] + list[n + limit..];
      }
    } else {
      NothingServed(b, f, CursorAt(list, n), limit, Some(SnapshotOf(b, first, f)));
    }
  }

  lemma NothingServed(b: Binding, f: Filter, cursor: Option<Key>, limit: nat, expected: Option<Revision>)
    requires limit > 0
    ensures Follow(b, [], f, cursor, limit, expected) == None
  {
  }

  lemma {:induction false} FollowComesToEnd(b: Binding, states: seq<Rows>, f: Filter, first: Rows, n: nat, limit: nat)
    requires limit > 0 && n <= |Rowlist(first, f)| && |states| > |Rowlist(first, f)| - n
    requires forall i | 0 <= i < |states| :: Filtered(states[i], f) == Filtered(first, f)
    ensures Follow(b, states, f, CursorAt(Rowlist(first, f), n), limit, Some(SnapshotOf(b, first, f))).Some?
    decreases |states|
  {
    hide Follow, SnapshotOf, Rowlist, Filtered, CursorAt;
    FollowStep(b, states, f, first, n, limit);
    if |Rowlist(first, f)| - n > limit {
      FollowComesToEnd(b, states[1..], f, first, n + limit, limit);
    }
  }

  /** A page for the snapshot of some journal is that journal's page, or refused. */
  lemma ServeAt(b: Binding, rows: Rows, f: Filter, first: Rows, n: nat, limit: nat)
    requires limit > 0 && n <= |Rowlist(first, f)|
    ensures var list := Rowlist(first, f);
      Serve(b, rows, f, CursorAt(list, n), limit, Some(SnapshotOf(b, first, f))) ==
        if Filtered(rows, f) != Filtered(first, f) then None
        else Some(if |list| - n > limit then Page(list[n..n + limit], CursorAt(list, n + limit))
                  else Page(list[n..], None))
  {
    SameSnapshotIff(b, rows, f, first, f);
    RowlistOrdered(first, f);
    PageAt(Rowlist(first, f), n, limit);
    if Filtered(rows, f) == Filtered(first, f) {
      SameList(rows, first, f);
    }
    hide SnapshotOf, Rowlist, Filtered, PageOf, CursorAt;
  }

  lemma SameList(rows: Rows, rows': Rows, f: Filter)
    requires Filtered(rows, f) == Filtered(rows', f)
    ensures Rowlist(rows, f) == Rowlist(rows', f)
  {
  }

  lemma RowlistOrdered(rows: Rows, f: Filter)
    ensures Ordered(Rowlist(rows, f))
  {
    hide Less;
    var sorted := Sorted(Filtered(rows, f).Keys);
    assert Ascending(sorted);
  }

  /** Paging is exact.  Whatever happens to the journal between the pages, a reader that is never
      refused has read exactly the filtered rows of the first page's journal, each once and in
      order; and while the filtered rows do not change it is never refused and comes to an end. */
  lemma PagingIsExact(b: Binding, states: seq<Rows>, f: Filter, limit: nat)
    requires limit > 0 && |states| > 0
    ensures var read := Follow(b, states, f, None, limit, None);
      && (read.Some? ==> read.value == Rowlist(states[0], f))
      && ((forall i | 0 <= i < |states| :: Filtered(states[i], f) == Filtered(states[0], f))
            && |states| > |Rowlist(states[0], f)| ==>
          read.Some?)
  {
    var first := states[0];
    FollowReadsRest(b, states, f, first, 0, limit);
    if (forall i | 0 <= i < |states| :: Filtered(states[i], f) == Filtered(first, f))
       && |states| > |Rowlist(first, f)|
    {
      FollowComesToEnd(b, states, f, first, 0, limit);
    }
    assert Serve(b, first, f, None, limit, Some(SnapshotOf(b, first, f))) == Serve(b, first, f, None, limit, None);
    assert Rowlist(first, f)[0..] == Rowlist(first, f);
    hide SnapshotOf, Rowlist, Serve, Filtered;
  }
}
