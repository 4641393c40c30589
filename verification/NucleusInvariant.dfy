// What holds between any two handlers of the nucleus, and that every handler but the kill of
// a process waiting on a device keeps it.
module NucleusInvariant {
  import opened Constants
  import opened Queues
  import opened Pcbs
  import opened ActiveSemaphores
  import opened NucleusState

  // Every pcb is in exactly one place: the free list, the ready queue, the running slot or the
  // queue of the semaphore that it records.
  ghost predicate Placed(s: State) {
    && ArePcbs(s.free) && Distinct(s.free)
    && ArePcbs(s.ready) && Distinct(s.ready)
    && (forall a :: a in s.queues ==> ArePcbs(s.queues[a]) && Distinct(s.queues[a]) && a < MAXINT)
    && (s.curr != NIL ==> IsPcb(s.curr) && s.curr !in s.free && s.curr !in s.ready && s.semAdd[s.curr] == NULL)
    && (forall p :: p in s.ready ==> p !in s.free && s.semAdd[p] == NULL)
    && (forall a, p :: a in s.queues && p in s.queues[a] ==> s.semAdd[p] == a && p !in s.free)
    && (forall p :: Live(s, p) ==> p in s.ready || p == s.curr || Blocked(s, p))
  }

  // The same, but for freed pcbs that may linger in the queue of a semaphore.
  ghost predicate Filed(s: State) {
    && ArePcbs(s.free) && Distinct(s.free)
    && ArePcbs(s.ready) && Distinct(s.ready)
    && (forall a :: a in s.queues ==> ArePcbs(s.queues[a]) && Distinct(s.queues[a]) && a < MAXINT)
    && (s.curr != NIL ==> IsPcb(s.curr) && s.curr !in s.free && s.curr !in s.ready && s.semAdd[s.curr] == NULL)
    && (forall p :: p in s.ready ==> p !in s.free && s.semAdd[p] == NULL)
    && (forall a, p :: a in s.queues && p in s.queues[a] ==> s.semAdd[p] == a)
    && (forall p :: Live(s, p) ==> p in s.ready || p == s.curr || Blocked(s, p))
  }

  ghost predicate Unhaunted(s: State) {
    forall a, p :: a in s.queues && p in s.queues[a] ==> p !in s.free
  }

  lemma PlacedIsFiled(s: State)
    ensures Placed(s) <==> Filed(s) && Unhaunted(s)
  {
  }

  ghost function Softblocked(s: State): set<Ptr> {
    set p | 0 <= p < MAXPROC && IsDeviceSem(s.semAdd[p]) && Blocked(s, p)
  }

  ghost predicate Counted(s: State) {
    && s.processCnt == MAXPROC - |s.free|
    && s.softblockCnt == |Softblocked(s)|
    && |s.queues| <= MAXPROC
  }

  // A semaphore that no device owns is negative exactly when processes wait on it, by as many.
  ghost predicate Balanced(s: State) {
    forall a: Address {:trigger Waiting(s, a)} ::
      !IsDeviceSem(a) ==> |Waiting(s, a)| == if Sem(s, a) < 0 then -Sem(s, a) else 0
  }

  // The pseudo-clock counts its waiters.
  ghost predicate Clocked(s: State) {
    |Waiting(s, CLOCK)| == -Sem(s, CLOCK)
  }

  ghost predicate IsFather(s: State, q: Ptr, p: Ptr) {
    IsPcb(p) && Live(s, q) && p in s.kids[q] && s.birth[q] < s.birth[p]
  }

  // The live processes form a tree under the first one, pcb 0; parents are older than children.
  ghost predicate Rooted(s: State) {
    && ArePcbs(s.free) && Distinct(s.free)
    && (forall q, p {:trigger p in s.kids[q]} :: Live(s, q) && p in s.kids[q] ==> Live(s, p) && s.parent[p] == q)
    && (forall q {:trigger s.kids[q]} {:trigger s.birth[q]} :: Live(s, q) ==> Distinct(s.kids[q]) && s.birth[q] < s.clock)
    && (forall p {:trigger s.parent[p]} :: Live(s, p) ==>
        if p == 0 then s.parent[p] == NIL else IsFather(s, s.parent[p], p))
  }

  ghost predicate Inv(s: State) {
    Placed(s) && Counted(s) && Balanced(s) && Clocked(s) && Rooted(s)
  }

  lemma Together(s: State)
    requires Placed(s) && Counted(s) && Balanced(s) && Clocked(s) && Rooted(s)
    ensures Inv(s)
  {
  }

  lemma BootedInv()
    ensures Inv(Booted())
  {
    hide Inv;
    BootedPlaced();
    BootedRest();
    Together(Booted());
  }

  lemma BootedPlaced()
    ensures Placed(Booted())
  {
    BootedLive();
  }

  lemma BootedLive()
    ensures forall p :: Live(Booted(), p) ==> p == 0
  {
    forall p | IsPcb(p) && p != 0
      ensures p in Booted().free
    {
      assert Booted().free[p - 1] == p;
    }
  }

  lemma BootedRest()
    ensures Counted(Booted()) && Balanced(Booted()) && Clocked(Booted()) && Rooted(Booted())
  {
    BootedLive();
    assert Softblocked(Booted()) == {};
  }

  // The tree invariant reads the free list and the tree only.
  lemma RootedSame(s: State, s': State)
    requires Rooted(s)
    requires s'.free == s.free && s'.parent == s.parent && s'.kids == s.kids && s'.birth == s.birth && s'.clock == s.clock
    ensures Rooted(s')
  {
    assert forall p :: Live(s', p) <==> Live(s, p);
  }

  lemma BalancedSame(s: State, s': State)
    requires Balanced(s)
    requires s'.queues == s.queues && s'.mem == s.mem
    ensures Balanced(s')
  {
    assert forall a :: Waiting(s', a) == Waiting(s, a) && Sem(s', a) == Sem(s, a);
  }

  // ------------------------------------------------------------------- scheduling

  lemma ScheduleKeeps(s: State)
    requires Inv(s) && s.curr == NIL
    ensures Inv(Schedule(s))
  {
    hide Placed, Counted, Balanced, Rooted;
    var s' := Schedule(s);
    SchedulePlaced(s);
    ScheduleCounted(s);
    BalancedSame(s, s');
    RootedSame(s, s');
  }

  lemma ScheduleCounted(s: State)
    requires Counted(s)
    ensures Counted(Schedule(s))
  {
    assert Softblocked(Schedule(s)) == Softblocked(s);
  }

  lemma SchedulePlaced(s: State)
    requires Placed(s) && s.curr == NIL
    ensures Placed(Schedule(s))
  {
    var s' := Schedule(s);
    if s.ready != [] {
      assert s.ready == [s.ready[0]] + s.ready[1..];
      assert forall p :: p in s.ready <==> p == s.ready[0] || p in s'.ready;
    }
    forall p | Live(s', p)
      ensures p in s'.ready || p == s'.curr || Blocked(s', p)
    {
      assert Live(s, p);
      assert Blocked(s', p) <==> Blocked(s, p);
    }
  }

  function Yielded(s: State): State {
    s.(ready := s.ready + [s.curr], curr := NIL)
  }

  lemma PreemptKeeps(s: State)
    requires Inv(s) && s.curr != NIL
    ensures Inv(Preempt(s))
  {
    hide Placed, Counted, Balanced, Rooted;
    var s' := Yielded(s);
    YieldedPlaced(s);
    BalancedSame(s, s');
    RootedSame(s, s');
    ScheduleKeeps(s');
    assert Preempt(s) == Schedule(s');
  }

  lemma YieldedPlaced(s: State)
    requires Placed(s) && Counted(s) && s.curr != NIL
    ensures Placed(Yielded(s)) && Counted(Yielded(s))
  {
    var s' := Yielded(s);
    assert Softblocked(s') == Softblocked(s);
    forall p | Live(s', p)
      ensures p in s'.ready || Blocked(s', p)
    {
      assert Live(s, p);
      assert Blocked(s', p) <==> Blocked(s, p);
    }
  }

  // --------------------------------------------------------------------- creation

  lemma CreateKeeps(s: State)
    requires Inv(s) && s.curr != NIL
    ensures IsPcb(s.curr) && (s.free == [] || IsPcb(s.free[0]))
    ensures Inv(Create(s))
  {
    CreatePlaced(s);
    CreateCounted(s);
    CreateRooted(s);
    CreateBalanced(s);
    hide Placed, Counted, Balanced, Rooted;
  }

  lemma CreatePlaced(s: State)
    requires Placed(s) && s.curr != NIL
    ensures (s.free == [] || IsPcb(s.free[0])) && Placed(Create(s))
  {
    if s.free != [] {
      var s', c := Create(s), s.free[0];
      TailDistinct(s.free);
      forall p | Live(s', p)
        ensures p in s'.ready || p == s'.curr || Blocked(s', p)
      {
        if p != c {
          assert Live(s, p);
          assert Blocked(s', p) <==> Blocked(s, p);
        }
      }
    }
  }

  lemma CreateCounted(s: State)
    requires Placed(s) && Counted(s) && s.curr != NIL && (s.free == [] || IsPcb(s.free[0]))
    ensures Counted(Create(s))
  {
    if s.free != [] {
      assert Softblocked(Create(s)) == Softblocked(s);
    }
  }

  lemma CreateBalanced(s: State)
    requires Balanced(s) && Clocked(s) && IsPcb(s.curr) && (s.free == [] || IsPcb(s.free[0]))
    ensures Balanced(Create(s)) && Clocked(Create(s))
  {
    BalancedSame(s, Create(s));
  }

  // Nobody outlives the first process.
  lemma {:induction false} RootLives(s: State, p: Ptr)
    requires Rooted(s) && Live(s, p)
    ensures Live(s, 0)
    decreases s.birth[p]
  {
    if p != 0 {
      assert IsFather(s, s.parent[p], p);
      RootLives(s, s.parent[p]);
    }
  }

  lemma CreateRooted(s: State)
    requires Rooted(s) && Live(s, s.curr) && (s.free == [] || IsPcb(s.free[0]))
    ensures Rooted(Create(s))
  {
    hide IsFather;
    if s.free != [] {
      NewbornLive(s);
      NewbornKids(s);
      NewbornFathers(s);
    }
  }

  // The new process is the only new one,
  lemma NewbornLive(s: State)
    requires Rooted(s) && Live(s, s.curr) && s.free != [] && IsPcb(s.free[0])
    ensures
      var s', c := Create(s), s.free[0];
      && ArePcbs(s'.free) && Distinct(s'.free) && s'.clock == s.clock + 1 && c != 0 && c != s.curr
      && (forall p :: Live(s', p) <==> Live(s, p) || p == c) && !Live(s, c)
  {
    TailDistinct(s.free);
    RootLives(s, s.curr);
  }

  // the youngest child of the caller and of nobody else,
  lemma NewbornKids(s: State)
    requires Rooted(s) && Live(s, s.curr) && s.free != [] && IsPcb(s.free[0])
    ensures
      var s', c := Create(s), s.free[0];
      && (forall q, p {:trigger p in s'.kids[q]} :: Live(s', q) && p in s'.kids[q] ==> Live(s', p) && s'.parent[p] == q)
      && (forall q {:trigger s'.kids[q]} {:trigger s'.birth[q]} ::
            Live(s', q) ==> Distinct(s'.kids[q]) && s'.birth[q] < s'.clock)
  {
    NewbornLive(s);
    hide IsFather;
    var s', c := Create(s), s.free[0];
    assert forall q :: Live(s, q) ==> c !in s.kids[q];
    forall q | Live(s', q)
      ensures s'.kids[q] == if q == c then [] else if q == s.curr then [c] + s.kids[q] else s.kids[q]
    {
    }
  }

  // and its father, like everybody's, is older.
  lemma NewbornFathers(s: State)
    requires Rooted(s) && Live(s, s.curr) && s.free != [] && IsPcb(s.free[0])
    ensures
      var s' := Create(s);
      forall p {:trigger s'.parent[p]} :: Live(s', p) ==>
        if p == 0 then s'.parent[p] == NIL else IsFather(s', s'.parent[p], p)
  {
    NewbornLive(s);
    var s', c := Create(s), s.free[0];
    forall p | Live(s', p)
      ensures if p == 0 then s'.parent[p] == NIL else IsFather(s', s'.parent[p], p)
    {
      if p != c {
        assert Live(s, p) && s'.parent[p] == s.parent[p];
      }
    }
  }
}
