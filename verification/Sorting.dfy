/** Stable sorting by an integer key, as the audit sorts the receipts of a proposal. */
module Sorting {

  /** Puts `e` behind the elements whose key is not larger. */
  function Inserted<T>(key: T -> int, sorted: seq<T>, e: T): seq<T> {
    if |sorted| == 0 || key(sorted[|sorted| - 1]) <= key(e) then sorted + [e]
    else Inserted(key, sorted[..|sorted| - 1], e) + [sorted[|sorted| - 1]]
  }

  function StableSort<T>(key: T -> int, events: seq<T>): seq<T> {
    if |events| == 0 then []
    else Inserted(key, StableSort(key, events[..|events| - 1]), events[|events| - 1])
  }

  predicate Ascending<T>(key: T -> int, events: seq<T>) {
    forall i, j | 0 <= i < j < |events| :: key(events[i]) <= key(events[j])
  }

  lemma Split<T>(events: seq<T>)
    requires |events| > 0
    ensures events == events[..|events| - 1] + [events[|events| - 1]]
    ensures multiset(events) == multiset(events[..|events| - 1]) + multiset{events[|events| - 1]}
  {
    assert events == events[..|events| - 1] + [events[|events| - 1]];
  }

  lemma {:induction false} InsertedMembers<T>(key: T -> int, sorted: seq<T>, e: T)
    ensures multiset(Inserted(key, sorted, e)) == multiset(sorted) + multiset{e}
  {
    if |sorted| > 0 {
      Split(sorted);
      if key(sorted[|sorted| - 1]) > key(e) {
        InsertedMembers(key, sorted[..|sorted| - 1], e);
      }
    }
  }

  lemma {:induction false} InsertedAscending<T>(key: T -> int, sorted: seq<T>, e: T)
    requires Ascending(key, sorted)
    ensures Ascending(key, Inserted(key, sorted, e))
  {
    if |sorted| > 0 && key(sorted[|sorted| - 1]) > key(e) {
      var prefix := sorted[..|sorted| - 1];
      var result := Inserted(key, prefix, e);
      InsertedAscending(key, prefix, e);
      InsertedMembers(key, prefix, e);
      forall i | 0 <= i < |result|
        ensures key(result[i]) <= key(sorted[|sorted| - 1])
      {
        assert result[i] in multiset(result);
        assert result[i] in prefix || result[i] == e;
      }
    }
  }

  lemma {:induction false} StableSortSorts<T>(key: T -> int, events: seq<T>)
    ensures multiset(StableSort(key, events)) == multiset(events)
    ensures Ascending(key, StableSort(key, events))
  {
    if |events| > 0 {
      var sorted := StableSort(key, events[..|events| - 1]);
      StableSortSorts(key, events[..|events| - 1]);
      Split(events);
      InsertedMembers(key, sorted, events[|events| - 1]);
      InsertedAscending(key, sorted, events[|events| - 1]);
    }
  }

  predicate Distinct<T(==)>(events: seq<T>) {
    forall i, j | 0 <= i < j < |events| :: events[i] != events[j]
  }

  predicate Numbered<T>(key: T -> int, chain: seq<T>) {
    forall k | 0 <= k < |chain| :: key(chain[k]) == k + 1
  }

  lemma LastAgrees<T>(key: T -> int, t: seq<T>, chain: seq<T>)
    requires multiset(t) == multiset(chain) && |t| == |chain| > 0
    requires Numbered(key, chain) && Ascending(key, t)
    ensures t[|t| - 1] == chain[|chain| - 1]
  {
    var n := |t| - 1;
    assert chain[n] in multiset(t) && t[n] in multiset(chain);
    var i :| 0 <= i < |t| && t[i] == chain[n];
    var j :| 0 <= j < |chain| && chain[j] == t[n];
    assert i < n ==> key(t[i]) <= key(t[n]);
    assert key(t[n]) == j + 1 && key(t[i]) == n + 1;
  }

  /** A numbered sequence is the only ascending arrangement of its elements. */
  lemma {:induction false} OnlyArrangement<T>(key: T -> int, t: seq<T>, chain: seq<T>)
    requires multiset(t) == multiset(chain)
    requires Numbered(key, chain) && Ascending(key, t)
    ensures t == chain
  {
    assert |t| == |multiset(t)| == |multiset(chain)| == |chain|;
    if |t| > 0 {
      var n := |t| - 1;
      LastAgrees(key, t, chain);
      Split(t);
      Split(chain);
      assert multiset(t[..n]) == multiset(t) - multiset{t[n]};
      assert multiset(chain[..n]) == multiset(chain) - multiset{chain[n]};
      assert Ascending(key, t[..n]) && Numbered(key, chain[..n]);
      hide Ascending, Numbered;
      OnlyArrangement(key, t[..n], chain[..n]);
    }
  }

  lemma {:induction false} OnceEach<T>(events: seq<T>, e: T)
    requires Distinct(events)
    ensures multiset(events)[e] == if e in events then 1 else 0
  {
    if |events| > 0 {
      OnceEach(events[..|events| - 1], e);
      Split(events);
      assert e in events <==> e in events[..|events| - 1] || e == events[|events| - 1];
    }
  }

  lemma SameMembers<T>(a: seq<T>, b: seq<T>)
    requires Distinct(a)
    requires Distinct(b)
    requires forall e :: e in a <==> e in b
    ensures multiset(a) == multiset(b)
  {
    forall e | e in multiset(a) + multiset(b)
      ensures multiset(a)[e] == multiset(b)[e]
    {
      OnceEach(a, e);
      OnceEach(b, e);
    }
  }
}
