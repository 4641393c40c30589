// Sequence operations that the linked lists of the kernel implement.
module Queues {

  ghost predicate Distinct<T>(q: seq<T>) {
    forall i, j :: 0 <= i < j < |q| ==> q[i] != q[j]
  }

  ghost function Elements<T>(q: seq<T>): set<T> {
    set x | x in q
  }

  // q without its entry k
  function Cut<T>(q: seq<T>, k: nat): seq<T>
    requires k < |q|
  {
    q[..k] + q[k + 1..]
  }

  // q without its first occurrence of x; q itself when x is not there.
  function Without<T(==)>(q: seq<T>, x: T): seq<T> {
    if q == [] then [] else if q[0] == x then q[1..] else [q[0]] + Without(q[1..], x)
  }

  // The subsequence of q that avoids gone, in the order of q.
  function Avoiding<T(==)>(q: seq<T>, gone: set<T>): seq<T> {
    if q == [] then []
    else if q[0] in gone then Avoiding(q[1..], gone)
    else [q[0]] + Avoiding(q[1..], gone)
  }

  function Reversed<T>(q: seq<T>): seq<T> {
    if q == [] then [] else Reversed(q[1..]) + [q[0]]
  }

  lemma TailDistinct<T>(q: seq<T>)
    requires q != [] && Distinct(q)
    ensures Distinct(q[1..]) && q[0] !in q[1..]
    ensures forall x :: x in q <==> x == q[0] || x in q[1..]
  {
    assert q == [q[0]] + q[1..];
  }

  lemma {:induction false} DistinctSize<T>(q: seq<T>)
    requires Distinct(q)
    ensures |Elements(q)| == |q|
  {
    if q == [] {
      assert Elements(q) == {};
    } else {
      TailDistinct(q);
      DistinctSize(q[1..]);
      assert Elements(q) == Elements(q[1..]) + {q[0]};
    }
  }

  lemma {:induction false} WithoutAbsent<T>(q: seq<T>, x: T)
    requires x !in q
    ensures Without(q, x) == q
  {
    if q != [] {
      WithoutAbsent(q[1..], x);
      assert q == [q[0]] + q[1..];
    }
  }

  lemma {:induction false} WithoutAt<T>(q: seq<T>, k: nat)
    requires k < |q| && Distinct(q)
    ensures Without(q, q[k]) == Cut(q, k)
  {
    if k == 0 {
      assert q[..0] + q[1..] == q[1..];
    } else {
      assert q[0] != q[k];
      WithoutAt(q[1..], k - 1);
      assert q[1..][k - 1] == q[k];
      assert [q[0]] + (q[1..][..k - 1] + q[1..][k..]) == q[..k] + q[k + 1..];
    }
  }

  lemma {:induction false} WithoutElements<T>(q: seq<T>, x: T)
    requires Distinct(q)
    ensures Distinct(Without(q, x))
    ensures forall y :: y in Without(q, x) <==> y in q && y != x
    ensures |Without(q, x)| == if x in q then |q| - 1 else |q|
  {
    if q != [] {
      assert q == [q[0]] + q[1..];
      if q[0] != x {
        WithoutElements(q[1..], x);
        assert q[0] !in q[1..];
      } else {
        assert x !in q[1..];
      }
    }
  }

  lemma WithoutIndices<T>(q: seq<T>, x: T)
    requires Distinct(q)
    ensures forall i :: 0 <= i < |Without(q, x)| ==>
      Without(q, x)[i] != x && exists j :: 0 <= j < |q| && q[j] == Without(q, x)[i]
  {
    WithoutElements(q, x);
    forall i | 0 <= i < |Without(q, x)|
      ensures Without(q, x)[i] != x && exists j :: 0 <= j < |q| && q[j] == Without(q, x)[i]
    {
      assert Without(q, x)[i] in Without(q, x);
    }
  }

  lemma {:induction false} AvoidingElements<T>(q: seq<T>, gone: set<T>)
    ensures forall y :: y in Avoiding(q, gone) <==> y in q && y !in gone
    ensures Distinct(q) ==> Distinct(Avoiding(q, gone))
    ensures |Avoiding(q, gone)| <= |q|
  {
    if q != [] {
      assert q == [q[0]] + q[1..];
      AvoidingElements(q[1..], gone);
      if Distinct(q) {
        assert q[0] !in q[1..];
      }
    }
  }

  lemma {:induction false} AvoidingNone<T>(q: seq<T>, gone: set<T>)
    requires forall x :: x in q ==> x !in gone
    ensures Avoiding(q, gone) == q
  {
    if q != [] {
      AvoidingNone(q[1..], gone);
      assert q == [q[0]] + q[1..];
    }
  }

  lemma {:induction false} AvoidingWithout<T>(q: seq<T>, gone: set<T>, x: T)
    requires Distinct(q)
    ensures Avoiding(Without(q, x), gone) == Avoiding(q, gone + {x})
  {
    if q != [] {
      TailDistinct(q);
      AvoidingWithout(q[1..], gone, x);
      if q[0] == x {
        assert forall y :: y in q[1..] ==> y != x;
        AvoidingAbsent(q[1..], gone, x);
      } else {
        assert Without(q, x)[0] == q[0] && Without(q, x)[1..] == Without(q[1..], x);
      }
    }
  }

  lemma {:induction false} AvoidingAbsent<T>(q: seq<T>, gone: set<T>, x: T)
    requires x !in q
    ensures Avoiding(q, gone) == Avoiding(q, gone + {x})
  {
    if q != [] {
      AvoidingAbsent(q[1..], gone, x);
      assert q[0] in q;
    }
  }

  lemma {:induction false} ReversedConcat<T>(q: seq<T>, r: seq<T>)
    ensures Reversed(q + r) == Reversed(r) + Reversed(q)
  {
    if q == [] {
      assert q + r == r;
    } else {
      assert (q + r)[0] == q[0] && (q + r)[1..] == q[1..] + r;
      ReversedConcat(q[1..], r);
    }
  }

  lemma {:induction false} ReversedElements<T>(q: seq<T>)
    ensures forall x :: x in Reversed(q) <==> x in q
    ensures |Reversed(q)| == |q|
  {
    if q != [] {
      ReversedElements(q[1..]);
      assert q == [q[0]] + q[1..];
    }
  }

  ghost function Below(n: nat): (b: set<int>)
    ensures |b| == n
    ensures forall i :: i in b <==> 0 <= i < n
  {
    if n == 0 then {} else Below(n - 1) + {n - 1}
  }

  // A duplicate-free sequence of numbers below n is as long as n exactly when it has them all.
  lemma CoversWhenFull(q: seq<int>, n: nat)
    requires Distinct(q) && forall i :: 0 <= i < |q| ==> 0 <= q[i] < n
    ensures |q| <= n
    ensures |q| == n <==> forall i :: 0 <= i < n ==> i in q
  {
    DistinctSize(q);
    SubsetSize(Elements(q), Below(n));
    if |q| == n {
      forall i | 0 <= i < n
        ensures i in q
      {
        assert i in Below(n) && i in Elements(q);
      }
    }
    if forall i :: 0 <= i < n ==> i in q {
      assert forall i :: i in Below(n) ==> i in Elements(q);
      assert Elements(q) == Below(n);
    }
  }

  // An element that stays does not move away from the head.
  lemma {:induction false} AvoidingIndex<T>(q: seq<T>, gone: set<T>, k: nat) returns (j: nat)
    requires k < |q| && q[k] !in gone
    ensures j <= k && j < |Avoiding(q, gone)| && Avoiding(q, gone)[j] == q[k]
  {
    if k == 0 {
      j := 0;
    } else {
      j := AvoidingIndex(q[1..], gone, k - 1);
      if q[0] !in gone {
        j := j + 1;
      }
    }
  }

  lemma {:induction false} AvoidingAll<T>(q: seq<T>, gone: set<T>)
    requires forall x :: x in q ==> x in gone
    ensures Avoiding(q, gone) == []
  {
    if q != [] {
      AvoidingAll(q[1..], gone);
    }
  }

  lemma SubsetSize<T>(a: set<T>, b: set<T>)
    requires a <= b
    ensures |a| <= |b|
    ensures |a| == |b| ==> a == b
  {
    assert b == a + (b - a);
    assert |b| == |a| + |b - a|;
  }

  // x comes before y
  ghost predicate Precedes<T>(order: seq<T>, x: T, y: T) {
    exists i, j :: 0 <= i < j < |order| && order[i] == x && order[j] == y
  }

  lemma PrecedesWithin<T>(u: seq<T>, order: seq<T>, v: seq<T>, x: T, y: T)
    requires Precedes(order, x, y)
    ensures Precedes(u + order + v, x, y)
  {
    var i, j :| 0 <= i < j < |order| && order[i] == x && order[j] == y;
    var all := u + order + v;
    assert all[|u| + i] == x && all[|u| + j] == y;
  }

  lemma PrecedesAcross<T>(a: seq<T>, b: seq<T>, x: T, y: T)
    requires x in a && y in b
    ensures Precedes(a + b, x, y)
  {
    var i :| 0 <= i < |a| && a[i] == x;
    var j :| 0 <= j < |b| && b[j] == y;
    assert (a + b)[i] == x && (a + b)[|a| + j] == y;
  }
}
