/** Code-point order on text. */
module TextOrder {

  predicate Precedes(a: string, b: string) {
    if |b| == 0 then false
    else if |a| == 0 then true
    else if a[0] != b[0] then a[0] < b[0]
    else Precedes(a[1..], b[1..])
  }

  /** The texts agree up to here, and then the first has the smaller code or has ended. */
  predicate SmallerAt(a: string, b: string, i: nat) {
    && i <= |a| && i < |b| && a[..i] == b[..i]
    && (i == |a| || a[i] as int < b[i] as int)
  }

  lemma SameFirst(a: string, b: string, i: nat)
    requires 0 < i <= |a| && i <= |b| && a[..i] == b[..i]
    ensures a[0] == b[0]
  {
    assert a[0] == a[..i][0] && b[0] == b[..i][0];
  }

  /** One text comes before another exactly when it is a proper prefix of it, or has the smaller code
      at the first position where they differ. */
  lemma {:induction false} PrecedesIff(a: string, b: string)
    ensures Precedes(a, b) <==> exists i: nat :: SmallerAt(a, b, i)
  {
    if |b| == 0 {
    } else if |a| == 0 {
      assert SmallerAt(a, b, 0);
    } else if a[0] != b[0] {
      if a[0] < b[0] {
        assert SmallerAt(a, b, 0);
      }
      forall i: nat | SmallerAt(a, b, i)
        ensures i == 0
      {
        if i > 0 {
          SameFirst(a, b, i);
        }
      }
    } else {
      PrecedesIff(a[1..], b[1..]);
      if i: nat :| SmallerAt(a[1..], b[1..], i) {
        assert a[..i + 1] == [a[0]] + a[1..][..i] && b[..i + 1] == [b[0]] + b[1..][..i];
        assert SmallerAt(a, b, i + 1);
      }
      if i: nat :| SmallerAt(a, b, i) {
        assert a[1..][..i - 1] == a[..i][1..] && b[1..][..i - 1] == b[..i][1..];
        assert SmallerAt(a[1..], b[1..], i - 1);
      }
    }
  }

  lemma {:induction false} PrecedesIsAsymmetric(a: string, b: string)
    requires Precedes(a, b)
    ensures !Precedes(b, a)
  {
    if |a| > 0 && a[0] == b[0] {
      PrecedesIsAsymmetric(a[1..], b[1..]);
    }
  }

  lemma {:induction false} PrecedesIsTotal(a: string, b: string)
    ensures a == b || Precedes(a, b) || Precedes(b, a)
  {
    if |a| > 0 && |b| > 0 && a[0] == b[0] {
      PrecedesIsTotal(a[1..], b[1..]);
      assert a == [a[0]] + a[1..] && b == [b[0]] + b[1..];
    }
  }

  lemma {:induction false} PrecedesIsTransitive(a: string, b: string, c: string)
    requires Precedes(a, b) && Precedes(b, c)
    ensures Precedes(a, c)
  {
    if |a| > 0 && a[0] == b[0] && b[0] == c[0] {
      PrecedesIsTransitive(a[1..], b[1..], c[1..]);
    }
  }
}
