/** The request journal as one process holds it open. */
module CoreRequestJournalService {
  import opened RequestJournal
  import opened JournalInventory

  const MAX_STATUS_AGE_MS := 9_007_199_254_740_991

  datatype Code = InvalidRequest | Unavailable | RequestConflict

  datatype Ask = Ask(states: Option<seq<State>>, caller: Option<string>, operation: Option<string>, limit: int,
                     afterCaller: Option<string>, afterRequestId: Option<string>, expected: Option<Revision>)

  datatype Item = Item(k: Key, operation: string, epoch: string, state: State, resultKind: Option<string>,
                       safeError: Option<string>, acceptedAge: int, finishedAge: Option<int>, revision: Revision,
                       eligible: bool)

  datatype Reply =
    | Served(items: seq<Item>, next: Option<Key>, total: nat, snapshot: Revision, guard: Revision)
    | NotServed(code: Code)

  function BoundedAge(now: int, at: int): int {
    if now < at then 0 else if now - at > MAX_STATUS_AGE_MS then MAX_STATUS_AGE_MS else now - at
  }

  function ItemOf(b: Binding, e: Entry, now: int): Item {
    var r := e.row;
    Item(e.k, r.operation, r.epoch, r.state, r.resultKind, r.safeError, BoundedAge(now, r.acceptedAt),
         if r.finishedAt.Some? then Some(BoundedAge(now, r.finishedAt.value)) else None, EntryRevision(b, e),
         r.state == Ambiguous && r.operation !in RECONCILIATION_OPERATIONS)
  }

  predicate Repeats(states: seq<State>) {
    exists i, j :: 0 <= i < j < |states| && states[i] == states[j]
  }

  predicate BadIdentifier(s: Option<string>) {
    s.Some? && !ValidIdentifier(s.value)
  }

  const UNRESOLVED: set<State> := {Accepted, Ambiguous}

  function FilterOf(ask: Ask): Filter {
    Filter(if ask.states.None? then UNRESOLVED else set i | 0 <= i < |ask.states.value| :: ask.states.value[i],
           ask.caller, ask.operation)
  }

  function CursorOf(ask: Ask): Option<Key> {
    if ask.afterCaller.Some? && ask.afterRequestId.Some? then Some(Key(ask.afterCaller.value, ask.afterRequestId.value))
    else None
  }

  /** The refusals that do not depend on the rows. */
  function Malformed(ask: Ask): Option<Code> {
    if ask.states.Some? && (ask.states.value == [] || Repeats(ask.states.value)) then Some(InvalidRequest)
    else if BadIdentifier(ask.caller) || BadIdentifier(ask.operation) then Some(Unavailable)
    else if !(1 <= ask.limit <= 100) then Some(InvalidRequest)
    else if ask.afterCaller.Some? != ask.afterRequestId.Some? then Some(InvalidRequest)
    else if ask.afterCaller.Some? && ask.expected.None? then Some(InvalidRequest)
    else if BadIdentifier(ask.afterCaller) || BadIdentifier(ask.afterRequestId) then Some(Unavailable)
    else None
  }

  /** What an item shows of its row: the fields as they are, and ages cut at both ends. */
  lemma ItemShows(b: Binding, e: Entry, now: int)
    ensures var i, r := ItemOf(b, e, now), e.row;
      && i.k == e.k && i.operation == r.operation && i.epoch == r.epoch && i.state == r.state
      && i.resultKind == r.resultKind && i.safeError == r.safeError && i.revision == EntryRevision(b, e)
      && AgeOf(i.acceptedAge, now, r.acceptedAt)
      && (i.finishedAge.Some? <==> r.finishedAt.Some?)
      && (r.finishedAt.Some? ==> AgeOf(i.finishedAge.value, now, r.finishedAt.value))
      && (i.eligible <==> r.state == Ambiguous && r.operation != "reconcile_request_journal"
                          && r.operation != "reconcile_stranded_accepted_prune")
  {
  }

  predicate AgeOf(age: int, now: int, at: int) {
    && 0 <= age <= MAX_STATUS_AGE_MS
    && (age == now - at || (age == 0 && now < at) || (age == MAX_STATUS_AGE_MS && now - at > MAX_STATUS_AGE_MS))
  }

  // ----- reading page by page -----

  /** What one inventory call answers. */
  ghost function ReplyTo(b: Binding, rows: Rows, ask: Ask, now: int): Reply {
    if Malformed(ask).Some? then NotServed(Malformed(ask).value)
    else
      var f := FilterOf(ask);
      match Serve(b, rows, f, CursorOf(ask), ask.limit, ask.expected)
      case None => NotServed(RequestConflict)
      case Some(page) =>
        Served(seq(|page.entries|, i requires 0 <= i < |page.entries| => ItemOf(b, page.entries[i], now)),
               page.next, |Rowlist(rows, f)|, SnapshotOf(b, rows, f),
               SnapshotOf(b, rows, Filter(UNRESOLVED, None, None)))
  }

  /** A request is served exactly when its arguments are well-formed, a cursor comes whole and with a
      snapshot revision, and that revision is the current one. */
  lemma ServedIff(b: Binding, rows: Rows, ask: Ask, now: int)
    ensures ReplyTo(b, rows, ask, now).Served? <==>
              && 1 <= ask.limit <= 100
              && (ask.states.Some? ==> |ask.states.value| > 0)
              && (ask.states.Some? ==>
                    forall i, j | 0 <= i < j < |ask.states.value| :: ask.states.value[i] != ask.states.value[j])
              && (forall s | s in {ask.caller, ask.operation, ask.afterCaller, ask.afterRequestId} && s.Some? ::
                    ValidIdentifier(s.value))
              && (ask.afterCaller.Some? <==> ask.afterRequestId.Some?)
              && (ask.afterCaller.Some? ==> ask.expected.Some?)
              && (ask.expected.Some? ==> ask.expected.value == SnapshotOf(b, rows, FilterOf(ask)))
  {
    hide Rowlist, SnapshotOf, FilterOf, ValidIdentifier, ItemOf, PageOf;
  }

  /** The request for the page behind a reply: the same question, with the key and the snapshot
      revision that the reply gave. */
  function NextAsk(ask: Ask, reply: Reply): Ask
    requires reply.Served? && reply.next.Some?
  {
    ask.(afterCaller := Some(reply.next.value.caller), afterRequestId := Some(reply.next.value.requestId),
         expected := Some(reply.snapshot))
  }

  function KeysOf(items: seq<Item>): (keys: seq<Key>)
    ensures |keys| == |items| && forall i | 0 <= i < |items| :: keys[i] == items[i].k
  {
    seq(|items|, i requires 0 <= i < |items| => items[i].k)
  }

  /** The keys that a reader has seen once the last page has come, each page being served from the
      journal as it then is; none if some page was refused. */
  ghost function Browse(b: Binding, states: seq<Rows>, ask: Ask, now: int): Option<seq<Key>>
    decreases |states|
  {
    if |states| == 0 then None
    else
      var reply := ReplyTo(b, states[0], ask, now);
      if reply.NotServed? then None
      else if reply.next.None? then Some(KeysOf(reply.items))
      else
        match Browse(b, states[1..], NextAsk(ask, reply), now)
        case None => None
        case Some(rest) => Some(KeysOf(reply.items) + rest)
  }

  /** The request asks for this row. */
  predicate AsksFor(ask: Ask, k: Key, r: Row) {
    && (if ask.states.Some? then r.state in ask.states.value else r.state == Accepted || r.state == Ambiguous)
    && r.operation != "reconcile_request_journal" && r.operation != "reconcile_stranded_accepted_prune"
    && (ask.caller.Some? ==> k.caller == ask.caller.value)
    && (ask.operation.Some? ==> r.operation == ask.operation.value)
  }

  function EntryKeys(entries: seq<Entry>): (keys: seq<Key>)
    ensures |keys| == |entries| && forall i | 0 <= i < |entries| :: keys[i] == entries[i].k
  {
    seq(|entries|, i requires 0 <= i < |entries| => entries[i].k)
  }

  predicate KeysValid(rows: Rows) {
    forall k | k in rows :: ValidIdentifier(k.caller) && ValidIdentifier(k.requestId)
  }

  lemma {:induction false} EligibleFrom(list: seq<Entry>, cursor: Option<Key>)
    ensures forall i | 0 <= i < |Eligible(list, cursor)| :: Eligible(list, cursor)[i] in list
  {
    if |list| > 0 {
      hide After;
      EligibleFrom(list[..|list| - 1], cursor);
      assert list == list[..|list| - 1] + [list[|list| - 1]];
    }
  }

  lemma NextIsARow(rows: Rows, f: Filter, cursor: Option<Key>, limit: nat)
    requires limit > 0
    ensures PageOf(Rowlist(rows, f), cursor, limit).next.Some? ==>
              PageOf(Rowlist(rows, f), cursor, limit).next.value in rows
  {
    EligibleFrom(Rowlist(rows, f), cursor);
    hide Eligible, Rowlist;
    var eligible := Eligible(Rowlist(rows, f), cursor);
    if |eligible| > limit {
      assert eligible[limit - 1] in Rowlist(rows, f);
    }
  }

  /** The request for the next page is well-formed, asks the same question, and points behind the page. */
  lemma NextIsWellFormed(b: Binding, rows: Rows, ask: Ask, now: int)
    requires Malformed(ask).None? && KeysValid(rows)
    requires ReplyTo(b, rows, ask, now).Served? && ReplyTo(b, rows, ask, now).next.Some?
    ensures var ask' := NextAsk(ask, ReplyTo(b, rows, ask, now));
      && Malformed(ask').None? && FilterOf(ask') == FilterOf(ask) && ask'.limit == ask.limit
      && CursorOf(ask') == ReplyTo(b, rows, ask, now).next
      && ask'.expected == Some(SnapshotOf(b, rows, FilterOf(ask)))
  {
    hide Rowlist, Filtered, ItemOf, ValidIdentifier, Repeats, PageOf, SnapshotOf;
    NextIsARow(rows, FilterOf(ask), CursorOf(ask), ask.limit);
  }

  /** A reply by its page. */
  lemma ReplyIs(b: Binding, rows: Rows, ask: Ask, now: int)
    requires Malformed(ask).None?
    ensures ask.limit > 0
    ensures var served := Serve(b, rows, FilterOf(ask), CursorOf(ask), ask.limit, ask.expected);
      var reply := ReplyTo(b, rows, ask, now);
      && (reply.Served? <==> served.Some?)
      && (served.Some? ==> reply.next == served.value.next && KeysOf(reply.items) == EntryKeys(served.value.entries)
                           && reply.snapshot == SnapshotOf(b, rows, FilterOf(ask)))
      && (served.Some? && ask.expected.Some? ==> ask.expected == Some(reply.snapshot))
  {
    hide Rowlist, Filtered, Repeats, PageOf, SnapshotOf, FilterOf, CursorOf, BadIdentifier;
  }

  /** Browsing reads what following the cursors reads. */
  lemma {:induction false} BrowseIsFollow(b: Binding, states: seq<Rows>, ask: Ask, now: int)
    requires Malformed(ask).None? && forall i | 0 <= i < |states| :: KeysValid(states[i])
    ensures var read := Follow(b, states, FilterOf(ask), CursorOf(ask), ask.limit, ask.expected);
      Browse(b, states, ask, now) == if read.Some? then Some(EntryKeys(read.value)) else None
    decreases |states|
  {
    hide Rowlist, SnapshotOf, FilterOf, CursorOf, Malformed, KeysValid, ReplyTo, Serve, KeysOf, EntryKeys;
    if |states| > 0 {
      var reply := ReplyTo(b, states[0], ask, now);
      ReplyIs(b, states[0], ask, now);
      if reply.Served? && reply.next.Some? {
        NextIsWellFormed(b, states[0], ask, now);
        BrowseIsFollow(b, states[1..], NextAsk(ask, reply), now);
        JoinedKeys();
      }
    }
  }

  lemma JoinedKeys()
    ensures forall x: seq<Entry>, y: seq<Entry> {:trigger x + y} :: EntryKeys(x + y) == EntryKeys(x) + EntryKeys(y)
  {
  }

  lemma FilterIs(ask: Ask, k: Key, r: Row)
    ensures Matches(FilterOf(ask), k, r) <==> AsksFor(ask, k, r)
  {
    if ask.states.Some? {
      assert r.state in FilterOf(ask).states <==> r.state in ask.states.value;
    }
  }

  lemma RowlistHolds(rows: Rows, f: Filter)
    ensures Ascending(EntryKeys(Rowlist(rows, f)))
    ensures forall k :: k in EntryKeys(Rowlist(rows, f)) <==> k in rows && Matches(f, k, rows[k])
  {
    var sorted := Sorted(Filtered(rows, f).Keys);
    assert EntryKeys(Rowlist(rows, f)) == sorted;
    hide Matches;
  }

  /** Reading is exact.  Whatever happens to the journal between the pages, a reader that puts the key
      and the revision of each reply into its next request, and is never refused, has seen exactly the
      keys of the rows that it asked for in the journal of the first page, each once and in key order;
      and while those rows do not change it is never refused and comes to an end. */
  lemma BrowsingIsExact(b: Binding, states: seq<Rows>, ask: Ask, now: int)
    requires Malformed(ask).None? && |states| > 0 && forall i | 0 <= i < |states| :: KeysValid(states[i])
    requires ask.afterCaller.None? && ask.expected.None?
    ensures var read := Browse(b, states, ask, now);
      read.Some? ==>
        && Ascending(read.value)
        && forall k :: k in read.value <==> k in states[0] && AsksFor(ask, k, states[0][k])
    ensures (forall i | 0 <= i < |states| :: Filtered(states[i], FilterOf(ask)) == Filtered(states[0], FilterOf(ask)))
            && |states| > |states[0]| ==>
              Browse(b, states, ask, now).Some?
  {
    var f := FilterOf(ask);
    assert CursorOf(ask).None? && ask.limit > 0;
    BrowseIsFollow(b, states, ask, now);
    PagingIsExact(b, states, f, ask.limit);
    RowlistHolds(states[0], f);
    RowlistIsNoLonger(states[0], f);
    hide Browse, Follow, Malformed, CursorOf, FilterOf, Filtered, Rowlist, AsksFor, Matches;
    forall k | k in states[0]
      ensures Matches(f, k, states[0][k]) <==> AsksFor(ask, k, states[0][k])
    {
      FilterIs(ask, k, states[0][k]);
    }
  }

  lemma RowlistIsNoLonger(rows: Rows, f: Filter)
    ensures |Rowlist(rows, f)| <= |rows|
  {
    var sorted := Sorted(Filtered(rows, f).Keys);
    AscendingCount(sorted);
    SetSize(Filtered(rows, f).Keys, rows.Keys);
    assert |rows| == |rows.Keys|;
    assert (set k | k in sorted) == Filtered(rows, f).Keys;
    assert |Rowlist(rows, f)| == |sorted|;
  }

  lemma {:induction false} AscendingCount(keys: seq<Key>)
    requires Ascending(keys)
    ensures |set k | k in keys| == |keys|
  {
    if keys != [] {
      var rest := keys[1..];
      AscendingCount(rest);
      assert (set k | k in keys) == {keys[0]} + set k | k in rest;
      forall k | k in rest
        ensures k != keys[0]
      {
        LessIsStrict(keys[0], keys[0]);
      }
    }
  }

  // ----- reviews -----

  datatype Target = Target(k: Key, operation: string, epoch: string, revision: Revision, originalState: string)

  datatype Reviewed = Reviewed(k: Key, operation: string, originalState: State, epoch: string, revision: Revision,
                               binding: Binding)

  datatype Review = Passed(reviewed: Reviewed) | NotPassed(code: Code)

  datatype Reviews = AllPassed(reviewed: seq<Reviewed>) | SomeFailed(code: Code)

  function StateName(state: State): string {
    match state
    case Accepted => "accepted"
    case Completed => "completed"
    case Failed => "failed"
    case Ambiguous => "ambiguous"
  }

  predicate ValidTarget(t: Target) {
    && ValidIdentifier(t.k.caller) && ValidIdentifier(t.k.requestId) && ValidIdentifier(t.operation)
    && ValidIdentifier(t.epoch) && ValidIdentifier(t.originalState)
  }

  function ReviewedRow(b: Binding, k: Key, r: Row): Reviewed {
    Reviewed(k, r.operation, r.state, r.epoch, EntryRevision(b, Entry(k, r)), b)
  }

  /** An accepted row may only be reviewed when it is a stranded prune with no outcome. */
  predicate StrandedPrune(r: Row) {
    r.operation == "prune_memory" && r.resultKind.None? && r.safeError.None? && r.finishedAt.None?
  }

  predicate RowFits(b: Binding, k: Key, r: Row, t: Target) {
    && r.operation == t.operation && r.epoch == t.epoch && StateName(r.state) == t.originalState
    && (t.originalState == "accepted" ==> StrandedPrune(r))
    && EntryRevision(b, Entry(k, r)) == t.revision
  }

  /** `review_reconciliation_target`. */
  function ReviewTarget(b: Binding, rows: Rows, t: Target, expectedJournal: string): Review {
    if !ValidTarget(t) || !ValidIdentifier(expectedJournal) then NotPassed(Unavailable)
    else if t.originalState != "ambiguous" && t.originalState != "accepted" then NotPassed(InvalidRequest)
    else if b.journalId != expectedJournal || t.k !in rows then NotPassed(RequestConflict)
    else if RowFits(b, t.k, rows[t.k], t) && rows[t.k].operation !in RECONCILIATION_OPERATIONS then
      Passed(ReviewedRow(b, t.k, rows[t.k]))
    else NotPassed(RequestConflict)
  }

  /** A reply counts the rows that were asked for, shows no more than the limit of them, and as many as
      that when more follow; its guard is the snapshot of everything unresolved. */
  lemma ReplyCounts(b: Binding, rows: Rows, ask: Ask, now: int)
    requires ReplyTo(b, rows, ask, now).Served?
    ensures var reply := ReplyTo(b, rows, ask, now);
      && reply.total == |set k | k in rows && AsksFor(ask, k, rows[k])|
      && |reply.items| <= ask.limit && (reply.next.Some? ==> |reply.items| == ask.limit)
      && reply.snapshot == SnapshotOf(b, rows, FilterOf(ask))
      && reply.guard == SnapshotOf(b, rows, Filter({Accepted, Ambiguous}, None, None))
  {
    var f := FilterOf(ask);
    var keys := EntryKeys(Rowlist(rows, f));
    RowlistHolds(rows, f);
    AscendingCount(keys);
    hide Rowlist, FilterOf, AsksFor, Matches, Eligible, ItemOf, SnapshotOf;
    forall k | k in rows
      ensures k in keys <==> AsksFor(ask, k, rows[k])
    {
      FilterIs(ask, k, rows[k]);
    }
    assert (set k | k in keys) == set k | k in rows && AsksFor(ask, k, rows[k]);
  }

  /** A target passes its review exactly when this is the expected journal and the named row has the
      operation, epoch and content that the target names, and is either ambiguous, as the target says,
      or an accepted prune that is stranded without an outcome.  The review then says what was seen. */
  lemma ReviewPassesIff(b: Binding, rows: Rows, t: Target, expectedJournal: string)
    ensures ReviewTarget(b, rows, t, expectedJournal).Passed? <==>
              && ValidTarget(t) && ValidIdentifier(expectedJournal) && b.journalId == expectedJournal && t.k in rows
              && var r := rows[t.k];
                && r.operation == t.operation && r.epoch == t.epoch && t.revision == EntryRevision(b, Entry(t.k, r))
                && r.operation != "reconcile_request_journal" && r.operation != "reconcile_stranded_accepted_prune"
                && ((t.originalState == "ambiguous" && r.state == Ambiguous)
                    || (t.originalState == "accepted" && r.state == Accepted && r.operation == "prune_memory"
                        && r.resultKind == None && r.safeError == None && r.finishedAt == None))
    ensures ReviewTarget(b, rows, t, expectedJournal).Passed? ==>
              ReviewTarget(b, rows, t, expectedJournal).reviewed
              == Reviewed(t.k, t.operation, rows[t.k].state, t.epoch, t.revision, b)
  {
    hide ValidTarget, ValidIdentifier;
    if t.k in rows {
      NamesDiffer(rows[t.k].state);
    }
  }

  lemma NamesDiffer(state: State)
    ensures StateName(state) == "accepted" <==> state == Accepted
    ensures StateName(state) == "ambiguous" <==> state == Ambiguous
  {
    assert "accepted"[1] == 'c' && "ambiguous"[1] == 'm' && "completed"[1] == 'o' && "failed"[1] == 'a';
  }

  predicate DistinctKeys(targets: seq<Target>) {
    forall i, j | 0 <= i < j < |targets| :: targets[i].k != targets[j].k
  }

  /** Every target would pass on its own. */
  predicate EachPasses(b: Binding, rows: Rows, targets: seq<Target>, expectedJournal: string) {
    forall i | 0 <= i < |targets| :: ReviewTarget(b, rows, targets[i], expectedJournal).Passed?
  }

  class CoreRequestJournal {
    const config: Config
    const binding: Binding
    var rows: Rows
    var lastPrune: int

    constructor (durable: Rows, config: Config, binding: Binding, prunes: bool, now: int)
      requires ValidConfig(config)
      ensures this.config == config && this.binding == binding
      ensures rows == AfterCall(durable, Event(OpenCall(prunes), config, now))
    {
      this.config, this.binding := config, binding;
      rows, lastPrune := durable, 0;
      new;
      if prunes {
        var removed := Prune(now);
      }
    }

    method Prune(now: int) returns (removed: nat)
      modifies this
      ensures rows == AfterCall(old(rows), Event(PruneCall, config, now))
      ensures removed == |old(rows)| - |rows| && lastPrune == now
    {
      PruneBounds(rows, now, config);
      var kept := Pruned(rows, now, config);
      removed := |rows| - |kept|;
      rows, lastPrune := kept, now;
    }

    method Accept(k: Key, operation: string, fingerprint: string, now: int) returns (d: Decision)
      modifies this
      ensures rows == AfterCall(old(rows), Event(AcceptCall(k, operation, fingerprint), config, now))
      ensures d == Fresh <==> Accepts(old(rows), Event(AcceptCall(k, operation, fingerprint), config, now), k)
      ensures d == if !ValidRequest(k, operation, fingerprint) then Refused(Invalid)
                   else Decide(Pruned(old(rows), now, config), k, operation, fingerprint, config)
    {
      if !ValidRequest(k, operation, fingerprint) {
        return Refused(Invalid);
      }
      var removed := Prune(now);
      if k in rows {
        if rows[k].operation != operation || rows[k].fingerprint != fingerprint {
          return Conflict(rows[k].state);
        }
        return Existing(rows[k].state);
      }
      var unresolved := |set k | k in rows && (rows[k].state == Accepted || rows[k].state == Ambiguous)|;
      assert (set k | k in rows && (rows[k].state == Accepted || rows[k].state == Ambiguous)) == Unprunable(rows);
      if unresolved >= config.maxAcceptedRows {
        return Refused(AtCapacity);
      }
      if |rows| >= config.maxRows {
        return Refused(AtCapacity);
      }
      rows := rows[k := Row(operation, fingerprint, config.epoch, Accepted, None, None, now, None)];
      d := Fresh;
    }

    method Finish(k: Key, operation: string, fingerprint: string, kind: string, safeError: Option<string>, now: int)
      returns (recorded: bool)
      modifies this
      ensures rows == AfterCall(old(rows), Event(FinishCall(k, operation, fingerprint, kind, safeError), config, now))
      ensures recorded <==> ValidRequest(k, operation, fingerprint)
                            && (safeError.Some? ==> safeError.value in SAFE_ERROR_CODES)
                            && MayFinish(old(rows), k, operation, fingerprint)
    {
      if !ValidRequest(k, operation, fingerprint) || (safeError.Some? && safeError.value !in SAFE_ERROR_CODES) {
        return false;
      }
      var state := if safeError.None? then Completed else if safeError.value == "outcome_unknown" then Ambiguous
                   else Failed;
      if k !in rows || rows[k].operation != operation || rows[k].fingerprint != fingerprint
         || rows[k].state != Accepted
      {
        return false;
      }
      var at := if now >= rows[k].acceptedAt then now else rows[k].acceptedAt;
      rows := rows[k := rows[k].(state := state, resultKind := if safeError.None? then Some(kind) else None,
                                 safeError := safeError, finishedAt := Some(at))];
      var removed := Prune(now);
      recorded := true;
    }

    method PickLeast(keys: set<Key>) returns (k: Key)
      requires keys != {}
      ensures k in keys && forall other | other in keys && other != k :: Less(k, other)
    {
      ghost var least := LeastExists(keys);
      k :| k in keys && Least(keys, k);
      assert Least(keys, k);
    }

    /** The rows that a filter selects, in key order. */
    method SelectRows(f: Filter) returns (list: seq<Entry>)
      ensures list == Rowlist(rows, f)
    {
      hide Less, Matches, Least;
      var all := Filtered(rows, f).Keys;
      var rest := all;
      var keys: seq<Key> := [];
      while rest != {}
        invariant Ascending(keys)
        invariant forall k :: k in keys || k in rest <==> k in all
        invariant forall i, k | 0 <= i < |keys| && k in rest :: Less(keys[i], k)
        decreases |rest|
      {
        var k := PickLeast(rest);
        keys := keys + [k];
        rest := rest - {k};
      }
      OnlyOneOrder(keys, Sorted(all));
      forall i | 0 <= i < |keys|
        ensures keys[i] in Filtered(rows, f)
      {
        assert keys[i] in keys;
      }
      list := Entries(Filtered(rows, f), keys);
    }

    method Items(page: seq<Entry>, now: int) returns (items: seq<Item>)
      ensures items == seq(|page|, j requires 0 <= j < |page| => ItemOf(binding, page[j], now))
    {
      hide ItemOf;
      items := [];
      for i := 0 to |page|
        invariant items == seq(i, j requires 0 <= j < i => ItemOf(binding, page[j], now))
      {
        items := items + [ItemOf(binding, page[i], now)];
      }
    }

    /** One page of the journal. */
    method Inventory(ask: Ask, now: int) returns (reply: Reply)
      ensures reply == ReplyTo(binding, rows, ask, now)
    {
      hide Rowlist, Repeats, ValidIdentifier, Filtered, Less, ItemOf, BadIdentifier;
      if ask.states.Some? && (ask.states.value == [] || Repeats(ask.states.value)) {
        return NotServed(InvalidRequest);
      }
      if BadIdentifier(ask.caller) || BadIdentifier(ask.operation) {
        return NotServed(Unavailable);
      }
      if !(1 <= ask.limit <= 100) || ask.afterCaller.Some? != ask.afterRequestId.Some?
         || (ask.afterCaller.Some? && ask.expected.None?)
      {
        return NotServed(InvalidRequest);
      }
      if BadIdentifier(ask.afterCaller) || BadIdentifier(ask.afterRequestId) {
        return NotServed(Unavailable);
      }
      var f, cursor := FilterOf(ask), CursorOf(ask);
      var list := SelectRows(f);
      var snapshot := SnapshotRevision(binding, f, list);
      var unresolved := SelectRows(Filter(UNRESOLVED, None, None));
      var guard := SnapshotRevision(binding, Filter(UNRESOLVED, None, None), unresolved);
      if ask.expected.Some? && ask.expected.value != snapshot {
        return NotServed(RequestConflict);
      }
      var eligible: seq<Entry> := [];
      for i := 0 to |list|
        invariant eligible == Eligible(list[..i], cursor)
      {
        assert list[..i + 1][..i] == list[..i];
        if After(cursor, list[i].k) {
          eligible := eligible + [list[i]];
        }
      }
      assert list[..|list|] == list;
      var page := if |eligible| > ask.limit then eligible[..ask.limit] else eligible;
      var items := Items(page, now);
      var next := if |eligible| > ask.limit then Some(page[|page| - 1].k) else None;
      reply := Served(items, next, |list|, snapshot, guard);
    }

    /** `review_reconciliation_targets`: passes exactly when every target would pass on its own, no
        key is named twice and there are not too many, and then gives the same reviews. */
    method ReviewTargets(targets: seq<Target>, expectedJournal: string) returns (reply: Reviews)
      ensures reply.AllPassed? <==>
                && ValidIdentifier(expectedJournal) && binding.journalId == expectedJournal
                && |targets| <= config.maxAcceptedRows && DistinctKeys(targets)
                && EachPasses(binding, rows, targets, expectedJournal)
      ensures reply.AllPassed? ==>
                && |reply.reviewed| == |targets|
                && forall i | 0 <= i < |targets| ::
                     ReviewTarget(binding, rows, targets[i], expectedJournal) == Passed(reply.reviewed[i])
    {
      hide ValidIdentifier;
      if !ValidIdentifier(expectedJournal) {
        return SomeFailed(Unavailable);
      }
      if binding.journalId != expectedJournal || |targets| > config.maxAcceptedRows {
        return SomeFailed(RequestConflict);
      }
      var seen: set<Key> := {};
      for i := 0 to |targets|
        invariant forall k :: k in seen <==> exists j :: 0 <= j < i && targets[j].k == k
        invariant forall j | 0 <= j < i :: ValidTarget(targets[j])
        invariant forall j, l | 0 <= j < l < i :: targets[j].k != targets[l].k
      {
        var t := targets[i];
        if !ValidIdentifier(t.k.caller) || !ValidIdentifier(t.k.requestId) {
          return SomeFailed(Unavailable);
        }
        if t.k in seen {
          return SomeFailed(RequestConflict);
        }
        seen := seen + {t.k};
        if !ValidTarget(t) {
          return SomeFailed(Unavailable);
        }
      }
      var indexed := Filtered(rows, Filter(UNRESOLVED, None, None));
      var reviewed: seq<Reviewed> := [];
      for i := 0 to |targets|
        invariant |reviewed| == i
        invariant forall j | 0 <= j < i ::
                    ReviewTarget(binding, rows, targets[j], expectedJournal) == Passed(reviewed[j])
      {
        var t := targets[i];
        OnlyUnresolvedPass(binding, rows, t, expectedJournal);
        if t.k !in indexed || !RowFits(binding, t.k, indexed[t.k], t) {
          return SomeFailed(RequestConflict);
        }
        reviewed := reviewed + [ReviewedRow(binding, t.k, indexed[t.k])];
      }
      reply := AllPassed(reviewed);
    }
  }

  /** Looking a target up among the unresolved rows gives the answer of the single review. */
  lemma OnlyUnresolvedPass(b: Binding, rows: Rows, t: Target, expectedJournal: string)
    requires ValidTarget(t) && ValidIdentifier(expectedJournal) && b.journalId == expectedJournal
    ensures var indexed := Filtered(rows, Filter(UNRESOLVED, None, None));
      && (ReviewTarget(b, rows, t, expectedJournal).Passed? <==> t.k in indexed && RowFits(b, t.k, indexed[t.k], t))
      && (t.k in indexed && RowFits(b, t.k, indexed[t.k], t) ==>
            ReviewTarget(b, rows, t, expectedJournal) == Passed(ReviewedRow(b, t.k, indexed[t.k])))
  {
    hide ValidTarget, ValidIdentifier, StrandedPrune;
    if t.k in rows {
      var r := rows[t.k];
      assert StateName(r.state) == "completed" ==> "completed" != "accepted" && "completed" != "ambiguous";
    }
  }
}
