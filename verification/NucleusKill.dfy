// SYS2: killing the running process and its descendants (phase2/exceptions.c:223-232, 388-448).
module NucleusKill {
  import opened Constants
  import opened Queues
  import opened Pcbs
  import opened ActiveSemaphores
  import opened NucleusState
  import opened NucleusInvariant
  import opened ProcessTree

  // Kill, with a killed running process no longer counted as running.
  function KillAs(s: State, p: Ptr): State
    requires IsPcb(p)
  {
    Kill(s, p).(curr := if p == s.curr then NIL else s.curr)
  }

  predicate DeviceBlocked(s: State, p: Ptr)
    requires IsPcb(p)
  {
    IsDeviceSem(s.semAdd[p]) && Blocked(s, p)
  }

  // --------------------------------------------------------------- killing one process

  // p leaves the ready queue and every queue that no device owns; the order of the others stays.
  lemma KillQueues(s: State, p: Ptr)
    requires Filed(s) && Live(s, p)
    ensures Kill(s, p).ready == Without(s.ready, p)
    ensures forall b: Address ::
      Waiting(Kill(s, p), b) == if IsDeviceSem(b) then Waiting(s, b) else Without(Waiting(s, b), p)
    ensures forall b: Address :: b in Kill(s, p).queues ==> b in s.queues
    ensures |Kill(s, p).queues| <= |s.queues|
  {
    WithoutOther(s.ready, p);
    forall b: Address
      ensures Waiting(Kill(s, p), b) == if IsDeviceSem(b) then Waiting(s, b) else Without(Waiting(s, b), p)
    {
      KillQueue(s, p, b);
    }
    DropSize(s.queues, s.semAdd[p]);
  }

  lemma KillQueue(s: State, p: Ptr, b: Address)
    requires Filed(s) && Live(s, p)
    ensures Waiting(Kill(s, p), b) == if IsDeviceSem(b) then Waiting(s, b) else Without(Waiting(s, b), p)
  {
    hide Without;
    WithoutOther(Waiting(s, b), p);
  }

  lemma DropSize(queues: WaitMap, a: Address)
    ensures |Drop(queues, a)| <= |queues|
  {
    assert Drop(queues, a).Keys == queues.Keys - {a};
    assert |Drop(queues, a).Keys| == |Drop(queues, a)| && |queues.Keys| == |queues|;
  }

  lemma WithoutOther(q: seq<Ptr>, p: Ptr)
    ensures p !in q ==> Without(q, p) == q
    ensures Without([], p) == []
  {
    if p !in q {
      WithoutAbsent(q, p);
    }
  }

  lemma KillMarks(s: State, p: Ptr)
    requires Filed(s) && Live(s, p)
    ensures forall x :: IsPcb(x) && x != p ==> Kill(s, p).semAdd[x] == s.semAdd[x]
    ensures Kill(s, p).semAdd[p] == if s.semAdd[p] == NULL || IsDeviceSem(s.semAdd[p]) then s.semAdd[p] else NULL
    ensures Kill(s, p).free == [p] + s.free && Kill(s, p).processCnt == s.processCnt - 1
    ensures Kill(s, p).curr == s.curr && Kill(s, p).softblockCnt == s.softblockCnt
  {
  }

  lemma WithoutPcbs(q: seq<Ptr>, p: Ptr)
    requires ArePcbs(q) && Distinct(q)
    ensures ArePcbs(Without(q, p)) && Distinct(Without(q, p))
    ensures forall x :: x in Without(q, p) <==> x in q && x != p
    ensures |Without(q, p)| == if p in q then |q| - 1 else |q|
  {
    WithoutElements(q, p);
    WithoutIndices(q, p);
  }

  lemma KillWaiting(s: State, p: Ptr, b: Address)
    requires Filed(s) && Live(s, p)
    ensures
      var q := Waiting(KillAs(s, p), b);
      && Distinct(q) && ArePcbs(q)
      && (forall x :: x in q <==> x in Waiting(s, b) && (IsDeviceSem(b) || x != p))
      && (b in KillAs(s, p).queues ==> b in s.queues)
  {
    hide Kill, Without;
    KillQueues(s, p);
    assert Waiting(KillAs(s, p), b) == Waiting(Kill(s, p), b);
    assert Distinct(Waiting(s, b)) && ArePcbs(Waiting(s, b));
    WithoutPcbs(Waiting(s, b), p);
  }

  lemma KillCovers(s: State, p: Ptr, x: Ptr)
    requires Filed(s) && Live(s, p) && Live(KillAs(s, p), x)
    ensures var s' := KillAs(s, p); x in s'.ready || x == s'.curr || Blocked(s', x)
  {
    hide Kill, Without;
    KillQueues(s, p);
    KillMarks(s, p);
    assert Live(s, x) && x != p;
    WithoutPcbs(s.ready, p);
    KillWaiting(s, p, s.semAdd[x]);
  }

  lemma KillFiled(s: State, p: Ptr)
    requires Filed(s) && Live(s, p)
    ensures Filed(KillAs(s, p))
  {
    hide Kill, Without, Distinct;
    KillQueues(s, p);
    KillMarks(s, p);
    WithoutPcbs(s.ready, p);
    var s' := KillAs(s, p);
    assert Distinct(s'.free) by {
      FreedOnce(s, p);
    }
    forall b: Address
      ensures Distinct(Waiting(s', b)) && ArePcbs(Waiting(s', b))
      ensures forall x :: x in Waiting(s', b) <==> x in Waiting(s, b) && (IsDeviceSem(b) || x != p)
      ensures b in s'.queues ==> b in s.queues && Waiting(s', b) == s'.queues[b] && Waiting(s, b) == s.queues[b]
    {
      KillWaiting(s, p, b);
    }
    forall x | Live(s', x)
      ensures x in s'.ready || x == s'.curr || Blocked(s', x)
    {
      KillCovers(s, p, x);
    }
  }

  lemma FreedOnce(s: State, p: Ptr)
    requires Distinct(s.free) && p !in s.free
    ensures Distinct([p] + s.free)
  {
  }

  // Only a process that waits on a device stays queued once it is freed.
  lemma KillUnhaunted(s: State, p: Ptr)
    requires Filed(s) && Live(s, p)
    ensures Unhaunted(KillAs(s, p)) <==> Unhaunted(s) && !DeviceBlocked(s, p)
  {
    hide Kill, Without, Filed;
    KillMarks(s, p);
    var s' := KillAs(s, p);
    assert s'.free == [p] + s.free;
    forall b: Address
      ensures forall x :: x in Waiting(s', b) <==> x in Waiting(s, b) && (IsDeviceSem(b) || x != p)
      ensures b in s'.queues ==> b in s.queues && Waiting(s', b) == s'.queues[b] && Waiting(s, b) == s.queues[b]
    {
      KillWaiting(s, p, b);
    }
    QueuedRecords(s);
    if !Unhaunted(s) {
      var b, x :| b in s.queues && x in s.queues[b] && x in s.free;
      assert x in Waiting(s, b);
      KillKeepsQueued(s, p, b, x);
      assert x in s'.free;
    } else if DeviceBlocked(s, p) {
      var b := s.semAdd[p];
      assert p in Waiting(s', b) && p in s'.free;
      assert b in s'.queues && p in s'.queues[b];
    }
    if Unhaunted(s) && !DeviceBlocked(s, p) {
      assert forall b :: IsDeviceSem(b) && p in Waiting(s, b) ==> b in s.queues;
      forall b, x | b in s'.queues && x in s'.queues[b]
        ensures x !in s'.free
      {
        assert x in Waiting(s', b) && x in Waiting(s, b) && x in s.queues[b];
      }
    }
  }

  lemma KillKeepsQueued(s: State, p: Ptr, b: Address, x: Ptr)
    requires Filed(s) && Live(s, p) && x != p && x in Waiting(s, b)
    ensures b in KillAs(s, p).queues && x in KillAs(s, p).queues[b]
  {
    hide Kill, Without;
    KillWaiting(s, p, b);
  }

  lemma QueuedRecords(s: State)
    requires Filed(s)
    ensures forall a, p :: a in s.queues && p in s.queues[a] ==> s.semAdd[p] == a && IsPcb(p)
  {
    forall a, p | a in s.queues && p in s.queues[a]
      ensures IsPcb(p)
    {
      var i :| 0 <= i < |s.queues[a]| && s.queues[a][i] == p;
    }
  }

  lemma KillCounted(s: State, p: Ptr)
    requires Filed(s) && Counted(s) && Live(s, p)
    ensures Counted(KillAs(s, p)) && Softblocked(KillAs(s, p)) == Softblocked(s)
  {
    hide Kill, Without, Filed;
    KillMarks(s, p);
    KillQueues(s, p);
    var s' := KillAs(s, p);
    forall x | IsPcb(x)
      ensures IsDeviceSem(s'.semAdd[x]) && Blocked(s', x) <==> IsDeviceSem(s.semAdd[x]) && Blocked(s, x)
    {
      KillWaiting(s, p, s'.semAdd[x]);
      KillWaiting(s, p, s.semAdd[x]);
    }
    assert Softblocked(s') == Softblocked(s);
  }

  lemma KillCells(s: State, p: Ptr)
    requires Filed(s) && Live(s, p)
    ensures forall b: Address ::
      Sem(Kill(s, p), b) == Sem(s, b) + if p in Waiting(s, b) && !IsDeviceSem(b) then 1 else 0
  {
    QueuedRecords(s);
  }

  lemma KillBalanced(s: State, p: Ptr)
    requires Filed(s) && Balanced(s) && Clocked(s) && Live(s, p)
    ensures Balanced(KillAs(s, p)) && Clocked(KillAs(s, p))
  {
    hide Kill, Without;
    KillQueues(s, p);
    KillCells(s, p);
    var s' := KillAs(s, p);
    forall b: Address
      ensures Waiting(s', b) == Waiting(Kill(s, p), b) && Sem(s', b) == Sem(Kill(s, p), b)
      ensures |Without(Waiting(s, b), p)| == |Waiting(s, b)| - if p in Waiting(s, b) then 1 else 0
      ensures !IsDeviceSem(b) ==> |Waiting(s, b)| == if Sem(s, b) < 0 then -Sem(s, b) else 0
    {
      assert Distinct(Waiting(s, b)) && ArePcbs(Waiting(s, b));
      WithoutPcbs(Waiting(s, b), p);
      assert |Waiting(s, b)| >= 0;
    }
  }

  // A childless process can be taken out of the tree.
  lemma KillRooted(s: State, p: Ptr)
    requires Rooted(s) && Live(s, p) && s.kids[p] == []
    ensures Rooted(KillAs(s, p))
    ensures p != 0 ==> IsPcb(s.parent[p]) && Kill(s, p).kids == s.kids[s.parent[p] := Without(s.kids[s.parent[p]], p)]
    ensures p == 0 ==> Kill(s, p).kids == s.kids
  {
    hide Kill, Without, Distinct;
    KillTree(s, p);
    KillKids(s, p);
    FreedOnce(s, p);
  }

  lemma KillKids(s: State, p: Ptr)
    requires Rooted(s) && Live(s, p)
    ensures forall q {:trigger s.kids[q]} :: Live(s, q) ==>
      Distinct(KillAs(s, p).kids[q]) && forall x :: x in KillAs(s, p).kids[q] <==> x in s.kids[q] && x != p
  {
    hide Kill, Without, Rooted;
    KillTree(s, p);
    forall q | Live(s, q)
      ensures Distinct(KillAs(s, p).kids[q]) && forall x :: x in KillAs(s, p).kids[q] <==> x in s.kids[q] && x != p
    {
      KidsLive(s, q);
      WithoutElements(s.kids[q], p);
      if p == 0 || q != s.parent[p] {
        NotAKid(s, q, p);
      }
    }
  }

  lemma NotAKid(s: State, q: Ptr, p: Ptr)
    requires Rooted(s) && Live(s, q) && Live(s, p) && (p == 0 || q != s.parent[p])
    ensures p !in s.kids[q]
  {
    hide Rooted;
    KidsLive(s, q);
  }

  lemma KillTree(s: State, p: Ptr)
    requires Rooted(s) && Live(s, p)
    ensures p != 0 ==> IsFather(s, s.parent[p], p)
    ensures
      var s' := Kill(s, p);
      && s'.free == [p] + s.free && s'.parent == s.parent && s'.birth == s.birth && s'.clock == s.clock
      && s'.kids == if p == 0 then s.kids else s.kids[s.parent[p] := Without(s.kids[s.parent[p]], p)]
  {
  }

  // ------------------------------------------------------------- killing a whole subtree

  lemma {:induction false} KillAllConcat(s: State, v: seq<Ptr>, w: seq<Ptr>)
    requires ArePcbs(v) && ArePcbs(w)
    ensures ArePcbs(v + w) && KillAll(s, v + w) == KillAll(KillAll(s, v), w)
    decreases |v|
  {
    hide Kill;
    if v == [] {
      assert v + w == w;
    } else {
      assert (v + w)[0] == v[0] && (v + w)[1..] == v[1..] + w;
      KillAllConcat(Kill(s, v[0]), v[1..], w);
    }
  }

  // What killing some childless processes one by one does to the tree.
  ghost predicate Pruned(s: State, s': State, victims: seq<Ptr>) {
    && Rooted(s')
    && s'.free == Reversed(victims) + s.free
    && s'.parent == s.parent && s'.birth == s.birth && s'.clock == s.clock
  }

  // The part of the forest kids[q][i..] that is killed before the process kids[q][i] itself: what is
  // below it and what is beside it. Nobody is killed twice.
  lemma ForestParts(s: State, q: Ptr, i: nat)
    requires Rooted(s) && Live(s, q) && i < |s.kids[q]|
    ensures
      var c := s.kids[q][i];
      && Live(s, c) && AllLive(s, s.kids[c]) && Younger(s, s.kids[c], s.birth[c]) && c != 0 && s.parent[c] == q && c != q
      && AllLive(s, s.kids[q][i..]) && Younger(s, s.kids[q][i..], s.birth[q])
      && AllLive(s, s.kids[q][i + 1..]) && Younger(s, s.kids[q][i + 1..], s.birth[q])
      && s.birth[c] > s.birth[q] && s.birth[c] < s.clock
    ensures
      var c := s.kids[q][i];
      var below := KillOrder(s, s.kids[c], s.birth[c]);
      var beside := KillOrder(s, s.kids[q][i + 1..], s.birth[q]);
      && KillOrder(s, s.kids[q][i..], s.birth[q]) == below + beside + [c]
      && (forall x :: x in below ==> x !in beside) && c !in below && c !in beside
      && q !in below && q !in beside
  {
    hide Rooted;
    KidsLive(s, q);
    var c, list := s.kids[q][i], s.kids[q][i..];
    KidsLive(s, c);
    assert list[0] == c && list[1..] == s.kids[q][i + 1..];
    var order := KillOrder(s, list, s.birth[q]);
    var below := KillOrder(s, s.kids[c], s.birth[c]);
    var beside := KillOrder(s, list[1..], s.birth[q]);
    assert order == below + beside + [c];
    assert forall j :: 0 <= j < |list| ==> list[j] in s.kids[q];
    OrderDistinct(s, q, list, s.birth[q]);
    DistinctParts(below, beside, c);
    forall x | x in order
      ensures x != q
    {
      OrderMembers(s, list, s.birth[q], x);
      var d :| d in list && Descends(s, d, x);
      var j :| 0 <= j < |list| && list[j] == d;
      assert s.kids[q][i + j] == d;
      DescendsIsOlder(s, d, x);
    }
    assert forall x :: x in below || x in beside ==> x in order;
  }

  lemma DistinctParts(a: seq<Ptr>, b: seq<Ptr>, c: Ptr)
    requires Distinct(a + b + [c])
    ensures (forall x :: x in a ==> x !in b) && c !in a && c !in b
  {
    var all := a + b + [c];
    forall x | x in a
      ensures x !in b && x != c
    {
      var i :| 0 <= i < |a| && a[i] == x;
      assert all[i] == x && all[|a| + |b|] == c;
      forall j | 0 <= j < |b|
        ensures b[j] != x
      {
        assert all[|a| + j] == b[j];
      }
    }
    forall j | 0 <= j < |b|
      ensures b[j] != c
    {
      assert all[|a| + j] == b[j] && all[|a| + |b|] == c;
    }
  }

  lemma PrunedLive(s: State, s': State, victims: seq<Ptr>)
    requires Pruned(s, s', victims)
    ensures forall x :: Live(s', x) <==> Live(s, x) && x !in victims
  {
    hide Rooted;
    ReversedElements(victims);
  }

  lemma KillNobody(s: State, b: int)
    requires Rooted(s)
    ensures KillOrder(s, [], b) == [] && KillAll(s, []) == s && Pruned(s, s, [])
  {
    assert Reversed<Ptr>([]) + s.free == s.free;
  }

  // Killing the children kids[q][i..] of q, with all their descendants, leaves kids[q][..i] and
  // the children of every survivor but q untouched.
  lemma {:induction false} KillForest(s: State, q: Ptr, i: nat)
    requires Rooted(s) && Live(s, q) && i <= |s.kids[q]|
    ensures AllLive(s, s.kids[q][i..]) && Younger(s, s.kids[q][i..], s.birth[q])
    ensures
      var victims := KillOrder(s, s.kids[q][i..], s.birth[q]);
      var s' := KillAll(s, victims);
      && Pruned(s, s', victims)
      && s'.kids[q] == s.kids[q][..i]
      && (forall x :: Live(s', x) && x != q ==> s'.kids[x] == s.kids[x])
      && q !in victims
    decreases s.clock - s.birth[q], |s.kids[q]| - i
  {
    hide Rooted, Kill, KillAll, KillOrder, Reversed;
    KidsLive(s, q);
    if i == |s.kids[q]| {
      assert s.kids[q][i..] == [] && s.kids[q][..i] == s.kids[q];
      KillNobody(s, s.birth[q]);
    } else {
      ForestParts(s, q, i);
      var c := s.kids[q][i];
      KillForest(s, c, 0);
      assert s.kids[c][0..] == s.kids[c];
      var below := KillOrder(s, s.kids[c], s.birth[c]);
      var beside := KillOrder(s, s.kids[q][i + 1..], s.birth[q]);
      var s1 := KillAll(s, below);
      PrunedLive(s, s1, below);
      assert s1.kids[c] == [];
      OrderSame(s, s1, s.kids[q][i + 1..], s.birth[q]);
      KillForest(s1, q, i + 1);
      var s2 := KillAll(s1, beside);
      PrunedLive(s1, s2, beside);
      KillFirst(s2, q, c, s.kids[q], i);
      JoinForest(s, below, beside, c);
    }
  }

  lemma KillFirst(s: State, q: Ptr, c: Ptr, kids: seq<Ptr>, i: nat)
    requires Rooted(s) && Live(s, q) && Live(s, c) && c != 0 && c != q && s.parent[c] == q && s.kids[c] == []
    requires i < |kids| && Distinct(kids) && kids[i] == c && s.kids[q] == kids[..i + 1]
    ensures
      var s' := Kill(s, c);
      && Pruned(s, s', [c]) && s'.free == [c] + s.free
      && s'.kids[q] == kids[..i] && forall x :: IsPcb(x) && x != q ==> s'.kids[x] == s.kids[x]
  {
    hide Rooted, Kill;
    KillRooted(s, c);
    KillTree(s, c);
    RootedSame(KillAs(s, c), Kill(s, c));
    WithoutAt(s.kids[q], i);
    assert Cut(s.kids[q], i) == kids[..i];
    assert Reversed([c]) == [c];
  }

  lemma JoinForest(s: State, below: seq<Ptr>, beside: seq<Ptr>, c: Ptr)
    requires ArePcbs(below) && ArePcbs(beside) && IsPcb(c)
    ensures ArePcbs(below + beside + [c])
    ensures KillAll(s, below + beside + [c]) == Kill(KillAll(KillAll(s, below), beside), c)
    ensures [c] + (Reversed(beside) + (Reversed(below) + s.free)) == Reversed(below + beside + [c]) + s.free
  {
    hide Kill, KillAll, Reversed;
    KillAllConcat(s, below, beside);
    KillAllConcat(s, below + beside, [c]);
    KillSingle(KillAll(s, below + beside), c);
    JoinReversed(below, beside, c, s.free);
  }

  lemma KillSingle(s: State, c: Ptr)
    requires IsPcb(c)
    ensures KillAll(s, [c]) == Kill(s, c)
  {
    hide Kill;
    assert KillAll(s, [c]) == KillAll(Kill(s, c), []);
  }

  lemma JoinReversed(a: seq<Ptr>, b: seq<Ptr>, c: Ptr, r: seq<Ptr>)
    ensures [c] + (Reversed(b) + (Reversed(a) + r)) == Reversed(a + b + [c]) + r
  {
    assert Reversed([c]) == [c];
    hide Reversed;
    ReversedConcat(a, b);
    ReversedConcat(a + b, [c]);
  }

  // ------------------------------------------------------ the queues after a series of kills

  function KillAllAs(s: State, victims: seq<Ptr>): State
    requires ArePcbs(victims)
    decreases |victims|
  {
    if victims == [] then s else KillAllAs(KillAs(s, victims[0]), victims[1..])
  }

  lemma {:induction false} KillAllIsAs(s: State, victims: seq<Ptr>)
    requires ArePcbs(victims)
    ensures KillAllAs(s, victims) == KillAll(s, victims).(curr := if s.curr in victims then NIL else s.curr)
    decreases |victims|
  {
    if victims != [] {
      var p := victims[0];
      assert victims == [p] + victims[1..];
      KillCurrIrrelevant(s, p, KillAs(s, p).curr);
      KillAllIsAs(KillAs(s, p), victims[1..]);
      KillAllCurrIrrelevant(Kill(s, p), victims[1..], KillAs(s, p).curr);
      hide Kill;
    }
  }

  lemma KillCurrIrrelevant(s: State, p: Ptr, c: Ptr)
    requires IsPcb(p)
    ensures Kill(s.(curr := c), p) == Kill(s, p).(curr := c)
  {
    hide Without, Left;
    assert Withdraw(s.(curr := c), p) == Withdraw(s, p).(curr := c);
    OrphanCurrIrrelevant(Withdraw(s, p), p, c);
  }

  lemma OrphanCurrIrrelevant(s: State, p: Ptr, c: Ptr)
    requires IsPcb(p)
    ensures Orphan(s.(curr := c), p) == Orphan(s, p).(curr := c)
  {
  }

  lemma {:induction false} KillAllCurrIrrelevant(s: State, victims: seq<Ptr>, c: Ptr)
    requires ArePcbs(victims)
    ensures KillAll(s.(curr := c), victims) == KillAll(s, victims).(curr := c)
    decreases |victims|
  {
    hide Kill;
    if victims != [] {
      KillCurrIrrelevant(s, victims[0], c);
      KillAllCurrIrrelevant(Kill(s, victims[0]), victims[1..], c);
    }
  }

  // The queues are those before, in the same order, without the victims; only the victims that
  // waited on a device stay behind. A queue that loses its last process that way loses its descriptor.
  ghost predicate Purged(s: State, s': State, gone: set<Ptr>) {
    && s'.ready == Avoiding(s.ready, gone)
    && (forall b: Address {:trigger Waiting(s', b)} ::
          Waiting(s', b) == if IsDeviceSem(b) then Waiting(s, b) else Avoiding(Waiting(s, b), gone))
    && (forall p {:trigger s'.semAdd[p]} :: IsPcb(p) && p !in gone ==> s'.semAdd[p] == s.semAdd[p])
    && s'.softblockCnt == s.softblockCnt && s'.processCnt == s.processCnt - |gone|
    && (forall b: Address {:trigger b in s'.queues} :: b in s'.queues <==>
          b in s.queues && (IsDeviceSem(b) || Waiting(s, b) == [] || Waiting(s', b) != []))
    && (forall b: Address {:trigger Sem(s', b)} :: Sem(s', b) + |Waiting(s', b)| == Sem(s, b) + |Waiting(s, b)|)
  }

  lemma {:induction false} KillAllQueues(s: State, v: seq<Ptr>)
    requires Filed(s) && Counted(s) && Balanced(s) && Clocked(s)
    requires AllLive(s, v) && Distinct(v)
    ensures ArePcbs(v)
    ensures
      var s' := KillAllAs(s, v);
      && Filed(s') && Counted(s') && Balanced(s') && Clocked(s') && Purged(s, s', Elements(v))
      && (Unhaunted(s') <==> Unhaunted(s) && forall p :: p in v ==> IsPcb(p) && !DeviceBlocked(s, p))
    decreases |v|
  {
    hide Filed, Counted, Balanced, Clocked, Kill, Without, Avoiding, Unhaunted, KillAs;
    if v == [] {
      PurgedNobody(s);
    } else {
      var p := v[0];
      TailDistinct(v);
      assert Live(s, p);
      var s1 := KillAs(s, p);
      KillFiled(s, p);
      KillCounted(s, p);
      KillBalanced(s, p);
      KillUnhaunted(s, p);
      KillLive(s, p);
      KillAllQueues(s1, v[1..]);
      PurgedOne(s, p, KillAllAs(s1, v[1..]), Elements(v[1..]));
      assert Elements(v) == Elements(v[1..]) + {p};
      forall x | x in v[1..]
        ensures IsPcb(x) && (DeviceBlocked(s1, x) <==> DeviceBlocked(s, x))
      {
        KillDeviceBlocked(s, p, x);
      }
    }
  }

  lemma KillLive(s: State, p: Ptr)
    requires IsPcb(p)
    ensures forall x :: Live(KillAs(s, p), x) <==> Live(s, x) && x != p
  {
  }

  lemma KillDeviceBlocked(s: State, p: Ptr, x: Ptr)
    requires Filed(s) && Live(s, p) && IsPcb(x) && x != p
    ensures DeviceBlocked(KillAs(s, p), x) <==> DeviceBlocked(s, x)
  {
    hide Kill, Without;
    KillMarks(s, p);
    KillWaiting(s, p, s.semAdd[x]);
  }

  lemma PurgedNobody(s: State)
    ensures Purged(s, s, Elements<Ptr>([]))
  {
    assert Elements<Ptr>([]) == {};
    AvoidingNone(s.ready, {});
    forall b: Address
      ensures Avoiding(Waiting(s, b), {}) == Waiting(s, b)
    {
      AvoidingNone(Waiting(s, b), {});
    }
  }

  lemma PurgedCells(s: State, p: Ptr)
    requires Filed(s) && Live(s, p)
    ensures
      var s' := KillAs(s, p);
      forall b: Address {:trigger Sem(s', b)} :: Sem(s', b) + |Waiting(s', b)| == Sem(s, b) + |Waiting(s, b)|
  {
    hide Kill, Without;
    KillCells(s, p);
    KillQueues(s, p);
    var s' := KillAs(s, p);
    forall b: Address
      ensures Sem(s', b) + |Waiting(s', b)| == Sem(s, b) + |Waiting(s, b)|
    {
      assert Waiting(s', b) == Waiting(Kill(s, p), b) && Sem(s', b) == Sem(Kill(s, p), b);
      assert Distinct(Waiting(s, b)) && ArePcbs(Waiting(s, b));
      WithoutPcbs(Waiting(s, b), p);
    }
  }

  // One kill frees the descriptor of the queue that it empties, if no device owns it.
  lemma KillKeys(s: State, p: Ptr, b: Address)
    requires Filed(s) && Live(s, p)
    ensures
      var s' := KillAs(s, p);
      b in s'.queues <==> b in s.queues && (IsDeviceSem(b) || Waiting(s, b) == [] || Waiting(s', b) != [])
  {
    hide Without;
    WithoutOther(Waiting(s, b), p);
    assert p in Waiting(s, b) ==> s.semAdd[p] == b;
  }

  lemma PurgedKeys(s: State, p: Ptr, s': State, gone: set<Ptr>)
    requires Filed(s) && Live(s, p) && Purged(KillAs(s, p), s', gone)
    ensures forall b: Address {:trigger b in s'.queues} :: b in s'.queues <==>
      b in s.queues && (IsDeviceSem(b) || Waiting(s, b) == [] || Waiting(s', b) != [])
  {
    hide Kill, Without, Filed;
    KillQueues(s, p);
    forall b: Address
      ensures b in s'.queues <==> b in s.queues && (IsDeviceSem(b) || Waiting(s, b) == [] || Waiting(s', b) != [])
    {
      KillKeys(s, p, b);
      WithoutOther(Waiting(s, b), p);
      assert Waiting(KillAs(s, p), b) == Waiting(Kill(s, p), b);
      assert Waiting(KillAs(s, p), b) == [] ==> Waiting(s', b) == [];
    }
  }

  lemma PurgedOne(s: State, p: Ptr, s': State, gone: set<Ptr>)
    requires Filed(s) && Live(s, p) && p !in gone && Purged(KillAs(s, p), s', gone)
    ensures Purged(s, s', gone + {p})
  {
    hide Kill, Without, Avoiding;
    var s1 := KillAs(s, p);
    KillMarks(s, p);
    KillQueues(s, p);
    AvoidingWithout(s.ready, gone, p);
    PurgedCells(s, p);
    PurgedKeys(s, p, s', gone);
    forall b: Address
      ensures Waiting(s', b) == if IsDeviceSem(b) then Waiting(s, b) else Avoiding(Waiting(s, b), gone + {p})
    {
      assert Waiting(s1, b) == Waiting(Kill(s, p), b);
      assert Distinct(Waiting(s, b));
      AvoidingWithout(Waiting(s, b), gone, p);
    }
  }

  // ------------------------------------------------------------------------------ SYS2

  ghost function Killed(s: State): State
    requires Rooted(s) && Live(s, s.curr)
  {
    KillAll(s, Victims(s, s.curr))
  }

  ghost function Terminate(s: State): State
    requires Rooted(s) && Live(s, s.curr)
  {
    Schedule(Killed(s))
  }

  // Exactly the subtree is freed, each pcb once. The tree above and beside it stays as it was, but
  // for the parent of the killed process, which loses that child.
  lemma KilledTree(s: State)
    requires Rooted(s) && Live(s, s.curr)
    ensures
      var s', p := Killed(s), s.curr;
      && Rooted(s')
      && s'.free == Reversed(Victims(s, p)) + s.free
      && s'.parent == s.parent && s'.birth == s.birth && s'.clock == s.clock
      && (forall x :: Live(s', x) <==> Live(s, x) && x !in Subtree(s, p))
      && (forall x :: Live(s', x) ==> s'.kids[x] == if x == s.parent[p] then Without(s.kids[x], p) else s.kids[x])
  {
    hide Rooted, Kill, KillAll, Reversed, Without, KillOrder, Descends;
    var p := s.curr;
    KidsLive(s, p);
    KillForest(s, p, 0);
    assert s.kids[p][0..] == s.kids[p];
    var below := KillOrder(s, s.kids[p], s.birth[p]);
    var s1 := KillAll(s, below);
    PrunedLive(s, s1, below);
    KillRooted(s1, p);
    KillTree(s1, p);
    RootedSame(KillAs(s1, p), Kill(s1, p));
    KillAllConcat(s, below, [p]);
    KillSingle(s1, p);
    JoinReversed(below, [], p, s.free);
    KilledFree(s, below, p);
    VictimsAreSubtree(s, p);
    assert Elements(Victims(s, p)) == Subtree(s, p);
    assert forall x :: x in Victims(s, p) <==> x in Subtree(s, p);
    PrunedLive(s, Killed(s), Victims(s, p));
    if p != 0 {
      FatherLives(s, p);
    } else {
      RootIsOrphan(s);
    }
  }

  lemma RootIsOrphan(s: State)
    requires Rooted(s) && Live(s, 0)
    ensures s.parent[0] == NIL
  {
  }

  lemma KilledFree(s: State, below: seq<Ptr>, p: Ptr)
    ensures [p] + (Reversed(below) + s.free) == Reversed(below + [p]) + s.free
  {
    assert Reversed([p]) == [p];
    hide Reversed;
    ReversedConcat(below, [p]);
  }

  lemma KilledQueues(s: State)
    requires Inv(s) && s.curr != NIL
    ensures Live(s, s.curr)
    ensures
      var s' := Killed(s).(curr := NIL);
      && Purged(s, s', Subtree(s, s.curr))
      && Filed(s') && Counted(s') && Balanced(s') && Clocked(s')
      && (Unhaunted(s') <==> forall p :: p in Subtree(s, s.curr) ==> IsPcb(p) && !DeviceBlocked(s, p))
  {
    hide Placed, Filed, Counted, Balanced, Clocked, Rooted, Unhaunted, Descends, KillAll, KillAllAs, KillOrder;
    CurrentLives(s);
    PlacedIsFiled(s);
    var v := Victims(s, s.curr);
    VictimsAreSubtree(s, s.curr);
    assert forall x :: x in v <==> x in Elements(v);
    KillAllQueues(s, v);
    KillAllIsAs(s, v);
  }

  lemma CurrentLives(s: State)
    requires Placed(s) && s.curr != NIL
    ensures Live(s, s.curr)
  {
  }

  // SYS2 keeps the invariant exactly when nobody it kills waits on a device or on the clock.
  lemma TerminateKeeps(s: State)
    requires Inv(s) && s.curr != NIL
    ensures Live(s, s.curr)
    ensures Inv(Terminate(s)) <==> forall p :: p in Subtree(s, s.curr) ==> IsPcb(p) && !DeviceBlocked(s, p)
  {
    hide Placed, Filed, Counted, Balanced, Clocked, Rooted, Unhaunted, Subtree, Victims, KillAll, Purged;
    CurrentLives(s);
    KilledTree(s);
    KilledQueues(s);
    var s' := Killed(s).(curr := NIL);
    RootedSame(Killed(s), s');
    PlacedIsFiled(s');
    assert Terminate(s) == Schedule(s');
    if Unhaunted(s') {
      ScheduleKeeps(s');
    } else {
      ScheduleHaunted(s');
      PlacedIsFiled(Schedule(s'));
    }
  }

  lemma ScheduleHaunted(s: State)
    ensures Unhaunted(s) <==> Unhaunted(Schedule(s))
  {
  }
}
