// The process tree below a process, and the order in which killDescendants visits it
// (phase2/exceptions.c:433-448).
module ProcessTree {
  import opened Constants
  import opened Queues
  import opened Pcbs
  import opened ActiveSemaphores
  import opened NucleusState
  import opened NucleusInvariant

  predicate AllLive(s: State, list: seq<Ptr>) {
    forall i :: 0 <= i < |list| ==> Live(s, list[i])
  }

  ghost predicate Younger(s: State, list: seq<Ptr>, b: int)
    requires AllLive(s, list)
  {
    forall i :: 0 <= i < |list| ==> s.birth[list[i]] > b
  }

  // killDescendants applied to the first of list, whose right siblings are the others: the
  // descendants of the first, then the other siblings with theirs, then the first itself.
  ghost function KillOrder(s: State, list: seq<Ptr>, b: int): (order: seq<Ptr>)
    requires Rooted(s) && AllLive(s, list) && Younger(s, list, b)
    ensures AllLive(s, order)
    decreases s.clock - b, |list|
  {
    if list == [] then []
    else
      assert Live(s, list[0]);
      KidsLive(s, list[0]);
      KillOrder(s, s.kids[list[0]], s.birth[list[0]]) + KillOrder(s, list[1..], b) + [list[0]]
  }

  lemma KidsLive(s: State, q: Ptr)
    requires Rooted(s) && Live(s, q)
    ensures AllLive(s, s.kids[q]) && Younger(s, s.kids[q], s.birth[q]) && s.birth[q] < s.clock
    ensures forall c :: c in s.kids[q] ==> Live(s, c) && c != 0 && s.parent[c] == q && s.birth[c] > s.birth[q]
    ensures Distinct(s.kids[q]) && q !in s.kids[q]
  {
    forall c | c in s.kids[q]
      ensures Live(s, c) && c != 0 && s.parent[c] == q && s.birth[c] > s.birth[q]
    {
      assert Live(s, c) && s.parent[c] == q;
    }
  }

  lemma FatherLives(s: State, p: Ptr)
    requires Rooted(s) && Live(s, p) && p != 0
    ensures IsFather(s, s.parent[p], p)
  {
  }

  // a is p or one of its ancestors
  ghost predicate Descends(s: State, a: Ptr, p: Ptr)
    requires Rooted(s) && Live(s, p)
    decreases s.birth[p]
  {
    p == a || (p != 0 && (FatherLives(s, p); Descends(s, a, s.parent[p])))
  }

  ghost function Subtree(s: State, a: Ptr): set<Ptr>
    requires Rooted(s)
  {
    set p | 0 <= p < MAXPROC && Live(s, p) && Descends(s, a, p)
  }

  lemma {:induction false} DescendsIsOlder(s: State, a: Ptr, p: Ptr)
    requires Rooted(s) && Live(s, p) && Descends(s, a, p)
    ensures Live(s, a) && s.birth[a] <= s.birth[p]
    decreases s.birth[p]
  {
    hide Rooted;
    if p != a {
      FatherLives(s, p);
      DescendsIsOlder(s, a, s.parent[p]);
    }
  }

  lemma {:induction false} DescendsFromFather(s: State, q: Ptr, c: Ptr, p: Ptr)
    requires Rooted(s) && Live(s, p) && Live(s, c) && c != 0 && s.parent[c] == q && Descends(s, c, p)
    ensures Descends(s, q, p)
    decreases s.birth[p]
  {
    hide Rooted;
    FatherLives(s, c);
    if p != c {
      FatherLives(s, p);
      DescendsFromFather(s, q, c, s.parent[p]);
    }
  }

  lemma {:induction false} DescendsThroughChild(s: State, q: Ptr, p: Ptr) returns (c: Ptr)
    requires Rooted(s) && Live(s, p) && Descends(s, q, p) && p != q
    ensures Live(s, q) && c in s.kids[q] && Descends(s, c, p)
    decreases s.birth[p]
  {
    hide Rooted;
    FatherLives(s, p);
    if s.parent[p] == q {
      c := p;
    } else {
      c := DescendsThroughChild(s, q, s.parent[p]);
    }
  }

  lemma {:induction false} SiblingsApart(s: State, c: Ptr, d: Ptr, p: Ptr)
    requires Rooted(s) && Live(s, p) && Live(s, c) && Live(s, d) && c != d && c != 0 && d != 0 &&
        s.parent[c] == s.parent[d]
    ensures !(Descends(s, c, p) && Descends(s, d, p))
    decreases s.birth[p]
  {
    hide Rooted;
    FatherLives(s, c);
    FatherLives(s, d);
    if Descends(s, c, p) && Descends(s, d, p) {
      if p == c {
        DescendsIsOlder(s, d, s.parent[c]);
      } else if p == d {
        DescendsIsOlder(s, c, s.parent[d]);
      } else {
        FatherLives(s, p);
        SiblingsApart(s, c, d, s.parent[p]);
      }
    }
  }

  lemma OrderParts(s: State, list: seq<Ptr>, b: int) returns (c: Ptr)
    requires Rooted(s) && AllLive(s, list) && Younger(s, list, b) && (list != [] || KillOrder(s, list, b) != [])
    ensures list != [] && c == list[0] && Live(s, c) && s.birth[c] < s.clock && s.birth[c] > b
    ensures AllLive(s, s.kids[c]) && Younger(s, s.kids[c], s.birth[c])
    ensures AllLive(s, list[1..]) && Younger(s, list[1..], b)
    ensures KillOrder(s, list, b) == KillOrder(s, s.kids[c], s.birth[c]) + KillOrder(s, list[1..], b) + [c]
  {
    c := list[0];
    assert Live(s, c);
    KidsLive(s, c);
    hide Rooted;
  }

  lemma {:induction false} OrderMembers(s: State, list: seq<Ptr>, b: int, p: Ptr)
    requires Rooted(s) && AllLive(s, list) && Younger(s, list, b)
    ensures p in KillOrder(s, list, b) <==> Live(s, p) && exists c :: c in list && Descends(s, c, p)
    decreases s.clock - b, |list|
  {
    hide Rooted, Descends;
    if list != [] {
      var c := OrderParts(s, list, b);
      OrderMembers(s, s.kids[c], s.birth[c], p);
      OrderMembers(s, list[1..], b, p);
      assert list == [c] + list[1..];
      assert forall d :: d in list <==> d == c || d in list[1..];
      if Live(s, p) {
        BelowOrItself(s, c, p);
      }
    }
  }

  // Who descends from c is c or descends from one of its children.
  lemma BelowOrItself(s: State, c: Ptr, p: Ptr)
    requires Rooted(s) && Live(s, c) && Live(s, p)
    ensures Descends(s, c, p) <==> p == c || exists d :: d in s.kids[c] && Descends(s, d, p)
  {
    hide Rooted;
    KidsLive(s, c);
    if Descends(s, c, p) && p != c {
      var d := DescendsThroughChild(s, c, p);
    }
    if d :| d in s.kids[c] && Descends(s, d, p) {
      DescendsFromFather(s, c, d, p);
    }
  }

  lemma DistinctConcat(a: seq<Ptr>, b: seq<Ptr>)
    requires Distinct(a) && Distinct(b) && forall x :: x in a ==> x !in b
    ensures Distinct(a + b)
  {
    forall i, j | 0 <= i < j < |a + b|
      ensures (a + b)[i] != (a + b)[j]
    {
      if i < |a| <= j {
        assert (a + b)[i] in a && (a + b)[j] in b;
      }
    }
  }

  // list consists of children of q
  predicate Siblings(s: State, q: Ptr, list: seq<Ptr>) {
    forall i :: 0 <= i < |list| ==> IsPcb(list[i]) && list[i] != 0 && s.parent[list[i]] == q
  }

  // No process is visited twice.
  lemma {:induction false} OrderDistinct(s: State, q: Ptr, list: seq<Ptr>, b: int)
    requires Rooted(s) && AllLive(s, list) && Younger(s, list, b) && Distinct(list) && Siblings(s, q, list)
    ensures Distinct(KillOrder(s, list, b))
    decreases s.clock - b, |list|
  {
    hide Rooted;
    if list != [] {
      var c := list[0];
      assert Live(s, c);
      KidsLive(s, c);
      TailDistinct(list);
      var below, beside := KillOrder(s, s.kids[c], s.birth[c]), KillOrder(s, list[1..], b);
      OrderDistinct(s, c, s.kids[c], s.birth[c]);
      OrderDistinct(s, q, list[1..], b);
      forall p | p in below
        ensures Live(s, p) && Descends(s, c, p) && p != c
      {
        BelowDescends(s, c, p);
      }
      forall p | p in beside && Live(s, p)
        ensures !Descends(s, c, p)
      {
        OrderMembers(s, list[1..], b, p);
        var d :| d in list[1..] && Descends(s, d, p);
        SiblingsApart(s, c, d, p);
      }
      DistinctConcat(below, beside);
      DistinctConcat(below + beside, [c]);
    }
  }

  lemma BelowDescends(s: State, c: Ptr, p: Ptr)
    requires Rooted(s) && Live(s, c)
    ensures AllLive(s, s.kids[c]) && Younger(s, s.kids[c], s.birth[c])
    ensures p in KillOrder(s, s.kids[c], s.birth[c]) <==> Live(s, p) && Descends(s, c, p) && p != c
  {
    hide Rooted;
    KidsLive(s, c);
    OrderMembers(s, s.kids[c], s.birth[c], p);
    if Live(s, p) && Descends(s, c, p) && p != c {
      var d := DescendsThroughChild(s, c, p);
    }
    if p in KillOrder(s, s.kids[c], s.birth[c]) {
      var d :| d in s.kids[c] && Descends(s, d, p);
      DescendsFromFather(s, c, d, p);
      DescendsIsOlder(s, d, p);
    }
  }

  // The processes that SYS2 of p kills, in the order in which they die.
  ghost function Victims(s: State, p: Ptr): (victims: seq<Ptr>)
    requires Rooted(s) && Live(s, p)
    ensures AllLive(s, victims)
  {
    KidsLive(s, p);
    KillOrder(s, s.kids[p], s.birth[p]) + [p]
  }

  // They are the subtree of p, each once, p last.
  lemma VictimsAreSubtree(s: State, p: Ptr)
    requires Rooted(s) && Live(s, p)
    ensures Distinct(Victims(s, p)) && Elements(Victims(s, p)) == Subtree(s, p)
    ensures |Victims(s, p)| == |Subtree(s, p)| && Victims(s, p)[|Victims(s, p)| - 1] == p
  {
    hide Rooted;
    KidsLive(s, p);
    var below := KillOrder(s, s.kids[p], s.birth[p]);
    OrderDistinct(s, p, s.kids[p], s.birth[p]);
    forall x
      ensures x in below <==> Live(s, x) && Descends(s, p, x) && x != p
    {
      BelowDescends(s, p, x);
    }
    DistinctConcat(below, [p]);
    assert Elements(Victims(s, p)) == Subtree(s, p);
    DistinctSize(Victims(s, p));
  }

  // ------------------------------------------------------------------- who dies before whom

  // Of two siblings, list[i] and list[j], what is below the first dies before anybody of the second
  // one's subtree, who dies before the first itself.
  lemma {:induction false} SiblingOrder(s: State, list: seq<Ptr>, b: int, i: nat, j: nat, x: Ptr, y: Ptr)
    requires Rooted(s) && AllLive(s, list) && Younger(s, list, b) && i < j < |list|
    requires Live(s, y) && Descends(s, list[j], y)
    ensures Precedes(KillOrder(s, list, b), y, list[i])
    ensures Live(s, x) && Descends(s, list[i], x) && x != list[i] ==> Precedes(KillOrder(s, list, b), x, y)
    decreases |list|
  {
    hide Rooted, Precedes;
    var c := list[0];
    assert Live(s, c);
    KidsLive(s, c);
    var below, beside := KillOrder(s, s.kids[c], s.birth[c]), KillOrder(s, list[1..], b);
    assert KillOrder(s, list, b) == below + beside + [c];
    if i == 0 {
      OrderMembers(s, list[1..], b, y);
      assert list[1..][j - 1] == list[j];
      PrecedesAcross(below + beside, [c], y, c);
      BelowDescends(s, c, x);
      if x in below {
        PrecedesAcross(below, beside + [c], x, y);
        assert below + (beside + [c]) == below + beside + [c];
      }
    } else {
      assert list[1..][i - 1] == list[i] && list[1..][j - 1] == list[j];
      SiblingOrder(s, list[1..], b, i - 1, j - 1, x, y);
      PrecedesWithin(below, beside, [c], y, list[i]);
      if Live(s, x) && Descends(s, list[i], x) && x != list[i] {
        PrecedesWithin(below, beside, [c], x, y);
      }
    }
  }

  // The processes below q die one after the other, and then, at some time, q.
  lemma {:induction false} BelowTogether(s: State, list: seq<Ptr>, b: int, q: Ptr) returns (u: seq<Ptr>, v: seq<Ptr>)
    requires Rooted(s) && AllLive(s, list) && Younger(s, list, b) && q in KillOrder(s, list, b)
    ensures Live(s, q) && AllLive(s, s.kids[q]) && Younger(s, s.kids[q], s.birth[q]) && q in v
    ensures KillOrder(s, list, b) == u + KillOrder(s, s.kids[q], s.birth[q]) + v
    decreases s.clock - b, |list|
  {
    hide Rooted, KillOrder;
    var c := OrderParts(s, list, b);
    var below, beside := KillOrder(s, s.kids[c], s.birth[c]), KillOrder(s, list[1..], b);
    if q in below {
      u, v := BelowTogether(s, s.kids[c], s.birth[c], q);
      Regrouped([], u, KillOrder(s, s.kids[q], s.birth[q]), v, beside + [c]);
      assert [] + below + (beside + [c]) == below + beside + [c];
      u, v := [] + u, v + (beside + [c]);
    } else if q in beside {
      u, v := BelowTogether(s, list[1..], b, q);
      Regrouped(below, u, KillOrder(s, s.kids[q], s.birth[q]), v, [c]);
      u, v := below + u, v + [c];
    } else {
      Regrouped([], [], below, beside, [c]);
      u, v := [], beside + [c];
    }
  }

  lemma Regrouped(a: seq<Ptr>, u: seq<Ptr>, m: seq<Ptr>, v: seq<Ptr>, w: seq<Ptr>)
    ensures a + (u + m + v) + w == (a + u) + m + (v + w)
  {
  }

  // SYS2 by p kills everybody after all its descendants.
  lemma DescendantsFirst(s: State, p: Ptr, q: Ptr, x: Ptr)
    requires Rooted(s) && Live(s, p) && q in Subtree(s, p)
    requires Live(s, x) && Descends(s, q, x) && x != q
    ensures Precedes(Victims(s, p), x, q)
  {
    hide Rooted, Precedes, KillOrder, Descends;
    var u, v := VictimsBelow(s, p, q);
    BelowDescends(s, q, x);
    PrecedesAcross(u + KillOrder(s, s.kids[q], s.birth[q]), v, x, q);
  }

  lemma VictimsBelow(s: State, p: Ptr, q: Ptr) returns (u: seq<Ptr>, v: seq<Ptr>)
    requires Rooted(s) && Live(s, p) && q in Subtree(s, p)
    ensures Live(s, q) && AllLive(s, s.kids[q]) && Younger(s, s.kids[q], s.birth[q]) && q in v
    ensures Victims(s, p) == u + KillOrder(s, s.kids[q], s.birth[q]) + v
  {
    hide Rooted, KillOrder, Descends;
    KidsLive(s, p);
    var below := KillOrder(s, s.kids[p], s.birth[p]);
    if q == p {
      u, v := [], [p];
    } else {
      BelowDescends(s, p, q);
      u, v := BelowTogether(s, s.kids[p], s.birth[p], q);
      v := v + [p];
    }
  }

  // Of two children of the same process, the younger and what is below it: those below die before anybody
  // of the older one's subtree, and the younger child itself after all of them. With DescendantsFirst,
  // this fixes the order of any two.
  lemma YoungerLast(s: State, p: Ptr, q: Ptr, i: nat, j: nat, x: Ptr, y: Ptr)
    requires Rooted(s) && Live(s, p) && q in Subtree(s, p) && i < j < |s.kids[q]|
    requires Live(s, y) && Descends(s, s.kids[q][j], y)
    ensures Precedes(Victims(s, p), y, s.kids[q][i])
    ensures Live(s, x) && Descends(s, s.kids[q][i], x) && x != s.kids[q][i] ==> Precedes(Victims(s, p), x, y)
  {
    hide Rooted, Precedes, KillOrder, Descends;
    var u, v := VictimsBelow(s, p, q);
    SiblingOrder(s, s.kids[q], s.birth[q], i, j, x, y);
    PrecedesWithin(u, KillOrder(s, s.kids[q], s.birth[q]), v, y, s.kids[q][i]);
    if Live(s, x) && Descends(s, s.kids[q][i], x) && x != s.kids[q][i] {
      PrecedesWithin(u, KillOrder(s, s.kids[q], s.birth[q]), v, x, y);
    }
  }

  // Everybody descends from the first process.
  lemma {:induction false} AllDescendFromRoot(s: State, p: Ptr)
    requires Rooted(s) && Live(s, p)
    ensures Descends(s, 0, p)
    decreases s.birth[p]
  {
    hide Rooted;
    if p != 0 {
      FatherLives(s, p);
      AllDescendFromRoot(s, s.parent[p]);
    }
  }

  // The order depends only on the children of the processes visited.
  lemma {:induction false} OrderSame(s: State, s': State, list: seq<Ptr>, b: int)
    requires Rooted(s) && AllLive(s, list) && Younger(s, list, b)
    requires Rooted(s') && s'.birth == s.birth && s'.clock == s.clock
    requires forall p :: p in KillOrder(s, list, b) ==> Live(s', p) && s'.kids[p] == s.kids[p]
    ensures AllLive(s', list) && Younger(s', list, b) && KillOrder(s', list, b) == KillOrder(s, list, b)
    decreases s.clock - b, |list|
  {
    hide Rooted;
    if list != [] {
      var c := list[0];
      assert Live(s, c);
      KidsLive(s, c);
      var order, below, beside := KillOrder(s, list, b), KillOrder(s, s.kids[c], s.birth[c]), KillOrder(s, list[1..], b);
      assert order == below + beside + [c];
      assert forall p :: p in below || p in beside || p == c ==> p in order;
      OrderSame(s, s', s.kids[c], s.birth[c]);
      OrderSame(s, s', list[1..], b);
      assert list == [c] + list[1..];
      assert Live(s', c) && s'.kids[c] == s.kids[c];
      KidsLive(s', c);
    }
  }
}
