// The Active Semaphore List: an unsorted linked list of semaphore descriptors between
// two sentinels, each descriptor owning a process queue (phase1/asl.c).
module ActiveSemaphores {
  import opened Constants
  import opened Queues
  import opened Pcbs

  const SEMDS: nat := MAXPROC + 2

  // What the list represents: the queue of every semaphore that has a descriptor on it.
  // A descriptor can outlive its last waiter, so a queue may be empty.
  type WaitMap = map<Address, seq<Ptr>>

  function QueueAt(queues: WaitMap, a: Address): seq<Ptr> {
    if a in queues then queues[a] else []
  }

  function Drop<V>(m: map<Address, V>, a: Address): map<Address, V> {
    map b | b in m && b != a :: m[b]
  }

  function Head(q: seq<Ptr>): Ptr {
    if q == [] then NIL else q[0]
  }

  function Tail(q: seq<Ptr>): seq<Ptr> {
    if q == [] then [] else q[1..]
  }

  // Appending p to the queue of a; impossible when a has no descriptor and none is free.
  predicate Full(queues: WaitMap, a: Address) {
    a !in queues && |queues| == MAXPROC
  }

  function Inserted(queues: WaitMap, a: Address, p: Ptr): WaitMap {
    if Full(queues, a) then queues else queues[a := QueueAt(queues, a) + [p]]
  }

  // Taking the head off the queue of a. A descriptor whose queue is already empty is freed;
  // one that becomes empty is not.
  function Removed(queues: WaitMap, a: Address): WaitMap {
    if QueueAt(queues, a) == [] then Drop(queues, a) else queues[a := QueueAt(queues, a)[1..]]
  }

  // Taking p out of the queue of a, whose descriptor is freed at once when p was its last process.
  function Left(queues: WaitMap, a: Address, p: Ptr): WaitMap {
    var rest := Without(QueueAt(queues, a), p);
    if p !in QueueAt(queues, a) then queues
    else if rest == [] then Drop(queues, a)
    else queues[a := rest]
  }

  // What the three do to the queue of any address b, and to the descriptors. An insertion uses a descriptor
  // only where there is none, a removal frees one only in finding it empty, and a deletion frees exactly
  // the one that it empties.
  lemma InsertedExactly(queues: WaitMap, a: Address, p: Ptr, b: Address)
    ensures QueueAt(Inserted(queues, a, p), b) == QueueAt(queues, b) + if b == a && !Full(queues, a) then [p] else []
    ensures b in Inserted(queues, a, p) <==> b in queues || (b == a && |queues| != MAXPROC)
  {
  }

  lemma RemovedExactly(queues: WaitMap, a: Address, b: Address)
    ensures QueueAt(queues, a) != [] ==>
      QueueAt(queues, b) == (if b == a then [Head(QueueAt(queues, a))] else []) + QueueAt(Removed(queues, a), b)
    ensures QueueAt(queues, a) == [] ==> QueueAt(Removed(queues, a), b) == QueueAt(queues, b)
    ensures b in Removed(queues, a) <==> b in queues && (b != a || QueueAt(queues, a) != [])
  {
  }

  lemma LeftExactly(queues: WaitMap, a: Address, p: Ptr, b: Address)
    requires Distinct(QueueAt(queues, a))
    ensures QueueAt(Left(queues, a, p), b) == Avoiding(QueueAt(queues, b), if b == a then {p} else {})
    ensures b in Left(queues, a, p) <==> b in queues && (b != a || QueueAt(queues, a) != [p])
  {
    var q := QueueAt(queues, a);
    AvoidingNone(QueueAt(queues, b), {});
    assert Without(q, p) == Avoiding(q, {p}) by {
      AvoidingWithout(q, {}, p);
      AvoidingNone(Without(q, p), {});
      assert {} + {p} == {p};
    }
    if p in q {
      WithoutElements(q, p);
      OnlyElement(q, p);
    } else {
      WithoutAbsent(q, p);
    }
  }

  lemma OnlyElement(q: seq<Ptr>, p: Ptr)
    requires p in q
    ensures q == [p] <==> |q| == 1
  {
  }

  type SemdColumn = c: seq<Ptr> | |c| == SEMDS witness seq(SEMDS, i => NIL)

  predicate IsSemd(d: Ptr) {
    0 <= d < SEMDS
  }

  ghost predicate AreSemds(q: seq<Ptr>) {
    forall i :: 0 <= i < |q| ==> IsSemd(q[i])
  }

  // nodes is the list with its two sentinels, unused the free list; together they are all descriptors.
  ghost predicate IsList(next: SemdColumn, head: Ptr, free: Ptr, nodes: seq<Ptr>, unused: seq<Ptr>) {
    && |nodes| >= 2 && |nodes| + |unused| == SEMDS
    && Distinct(nodes) && Distinct(unused) && Apart(nodes, unused)
    && AreSemds(nodes) && AreSemds(unused)
    && head == nodes[0]
    && (forall i {:trigger next[nodes[i]]} :: 0 <= i < |nodes| ==>
          next[nodes[i]] == if i + 1 < |nodes| then nodes[i + 1] else NIL)
    && free == (if unused == [] then NIL else unused[0])
    && (forall i {:trigger next[unused[i]]} :: 0 <= i < |unused| ==>
          next[unused[i]] == if i + 1 < |unused| then unused[i + 1] else NIL)
  }

  // desc finds the descriptor of each address on the list.
  ghost predicate IsIndex(semAdd: seq<Address>, nodes: seq<Ptr>, desc: map<Address, Ptr>)
    requires |semAdd| == SEMDS && |nodes| >= 2 && AreSemds(nodes)
  {
    && semAdd[nodes[0]] == 0 && semAdd[nodes[|nodes| - 1]] == MAXINT
    && (forall i {:trigger semAdd[nodes[i]]} :: 0 < i < |nodes| - 1 ==>
          semAdd[nodes[i]] in desc && desc[semAdd[nodes[i]]] == nodes[i])
    && (forall a {:trigger desc[a]} :: a in desc ==>
          a < MAXINT && IsSemd(desc[a]) && semAdd[desc[a]] == a && desc[a] in nodes && desc[a] != nodes[0])
    && |desc| == |nodes| - 2
  }

  // The descriptors' tail pointers hold the queues, but for those of broken, whose links are anybody's.
  ghost predicate HoldsQueues(pnext: Column, pprev: Column, procQ: SemdColumn, desc: map<Address, Ptr>, queues: WaitMap,
                              broken: set<Address>) {
    && desc.Keys == queues.Keys
    && (forall a :: a in desc ==> IsSemd(desc[a]) && (a in broken || IsProcQ(pnext, pprev, procQ[desc[a]], queues[a])))
    && (forall a, b :: a in desc && b in desc && a != b ==> desc[a] != desc[b])
  }

  // Every queued pcb records the semaphore it waits on.
  ghost predicate RecordsSemaphores(semAdd: seq<Address>, queues: WaitMap) {
    && |semAdd| == MAXPROC
    && forall a, i :: a in queues && 0 <= i < |queues[a]| ==> IsPcb(queues[a][i]) && semAdd[queues[a][i]] == a
  }

  // Taking the first unused descriptor d and linking it in before the tail sentinel.
  lemma DescriptorLinkedIn(next: SemdColumn, head: Ptr, free: Ptr, nodes: seq<Ptr>, unused: seq<Ptr>)
    requires IsList(next, head, free, nodes, unused) && unused != []
    ensures
      var d, last, prev := unused[0], nodes[|nodes| - 1], nodes[|nodes| - 2];
      IsSemd(prev) && prev != d &&
      IsList(next[d := last][prev := d], head, next[d], nodes[..|nodes| - 1] + [d, last], unused[1..])
  {
  }

  // Linking the predecessor of nodes[k] past it and pushing it onto the free list.
  lemma DescriptorLinkedOut(next: SemdColumn, head: Ptr, free: Ptr, nodes: seq<Ptr>, unused: seq<Ptr>, k: nat)
    requires IsList(next, head, free, nodes, unused) && 0 < k < |nodes| - 1
    ensures
      var d := nodes[k];
      IsList(next[nodes[k - 1] := next[d]][d := free], head, d, Cut(nodes, k), [d] + unused)
  {
    assert next[nodes[k]] == nodes[k + 1];
  }

  // nodes with d in front of the tail sentinel
  function WithLast(nodes: seq<Ptr>, d: Ptr): (nodes': seq<Ptr>)
    requires |nodes| >= 2
    ensures |nodes'| == |nodes| + 1 && nodes'[0] == nodes[0] && nodes'[|nodes'| - 1] == nodes[|nodes| - 1]
  {
    nodes[..|nodes| - 1] + [d, nodes[|nodes| - 1]]
  }

  lemma ExtendedFinds(nodes: seq<Ptr>, d: Ptr, x: Ptr)
    requires |nodes| >= 2 && x in nodes
    ensures x in WithLast(nodes, d) && d in WithLast(nodes, d)
  {
    var i :| 0 <= i < |nodes| && nodes[i] == x;
    assert WithLast(nodes, d)[if i < |nodes| - 1 then i else i + 1] == x;
    assert WithLast(nodes, d)[|nodes| - 1] == d;
  }

  ghost predicate Fresh(nodes: seq<Ptr>, d: Ptr) {
    forall i :: 0 <= i < |nodes| ==> nodes[i] != d
  }

  lemma ExtendedEntry(semAdd: seq<Address>, nodes: seq<Ptr>, d: Ptr, desc: map<Address, Ptr>, a: Address, i: nat)
    requires |nodes| >= 2 && |semAdd| == SEMDS && AreSemds(nodes) && IsIndex(semAdd, nodes, desc)
    requires IsSemd(d) && Fresh(nodes, d) && a !in desc && 0 < i < |nodes|
    ensures
      var x := WithLast(nodes, d)[i];
      && IsSemd(x) && semAdd[d := a][x] in desc[a := d] && desc[a := d][semAdd[d := a][x]] == x
  {
    if i < |nodes| - 1 {
      assert WithLast(nodes, d)[i] == nodes[i];
    } else {
      assert WithLast(nodes, d)[i] == d;
    }
  }

  lemma ExtendedIndex(semAdd: seq<Address>, nodes: seq<Ptr>, d: Ptr, desc: map<Address, Ptr>, a: Address, b: Address)
    requires |nodes| >= 2 && |semAdd| == SEMDS && AreSemds(nodes) && IsIndex(semAdd, nodes, desc)
    requires IsSemd(d) && Fresh(nodes, d) && a !in desc && a < MAXINT && b in desc[a := d]
    ensures
      var x, nodes' := desc[a := d][b], WithLast(nodes, d);
      b < MAXINT && IsSemd(x) && semAdd[d := a][x] == b && x in nodes' && x != nodes[0]
  {
    if b == a {
      ExtendedFinds(nodes, d, nodes[0]);
    } else {
      ExtendedFinds(nodes, d, desc[b]);
      var i :| 0 <= i < |nodes| && nodes[i] == desc[b];
      assert desc[b] != d;
    }
  }

  lemma ExtendedSize(nodes: seq<Ptr>, desc: map<Address, Ptr>, a: Address, d: Ptr)
    requires |nodes| >= 2 && a !in desc && AreSemds(nodes) && IsSemd(d)
    ensures AreSemds(WithLast(nodes, d))
    ensures |WithLast(nodes, d)| == |nodes| + 1 && |desc[a := d]| == |desc| + 1
    ensures WithLast(nodes, d)[0] == nodes[0] && WithLast(nodes, d)[|nodes|] == nodes[|nodes| - 1]
  {
  }

  lemma IndexExtended(semAdd: seq<Address>, nodes: seq<Ptr>, unused: seq<Ptr>, desc: map<Address, Ptr>, a: Address)
    requires |nodes| >= 2 && |semAdd| == SEMDS && AreSemds(nodes)
    requires Apart(nodes, unused)
    requires IsIndex(semAdd, nodes, desc) && unused != [] && IsSemd(unused[0]) && a !in desc && a < MAXINT
    ensures
      var d := unused[0];
      AreSemds(WithLast(nodes, d)) && IsIndex(semAdd[d := a], WithLast(nodes, d), desc[a := d])
  {
    hide WithLast;
    var d, nodes' := unused[0], WithLast(nodes, unused[0]);
    var semAdd', desc' := semAdd[d := a], desc[a := d];
    assert Fresh(nodes, d);
    ExtendedSize(nodes, desc, a, d);
    forall i {:trigger semAdd'[nodes'[i]]} | 0 < i < |nodes|
      ensures semAdd'[nodes'[i]] in desc' && desc'[semAdd'[nodes'[i]]] == nodes'[i]
    {
      ExtendedEntry(semAdd, nodes, d, desc, a, i);
    }
    forall b | b in desc'
      ensures b < MAXINT && IsSemd(desc'[b]) && semAdd'[desc'[b]] == b && desc'[b] in nodes' && desc'[b] != nodes[0]
    {
      ExtendedIndex(semAdd, nodes, d, desc, a, b);
    }
  }

  lemma ReducedFinds(semAdd: seq<Address>, nodes: seq<Ptr>, desc: map<Address, Ptr>, k: nat, b: Address)
    requires |nodes| >= 2 && |semAdd| == SEMDS && AreSemds(nodes)
    requires IsIndex(semAdd, nodes, desc) && 0 < k < |nodes| - 1 && b in desc && b != semAdd[nodes[k]]
    ensures desc[b] in Cut(nodes, k)
  {
    var nodes' := Cut(nodes, k);
    var i :| 0 <= i < |nodes| && nodes[i] == desc[b];
    assert nodes'[if i < k then i else i - 1] == desc[b];
  }

  lemma ReducedEntry(semAdd: seq<Address>, nodes: seq<Ptr>, desc: map<Address, Ptr>, k: nat, i: nat)
    requires |nodes| >= 2 && |semAdd| == SEMDS && AreSemds(nodes)
    requires Distinct(nodes) && IsIndex(semAdd, nodes, desc) && 0 < k < |nodes| - 1 && 0 < i < |nodes| - 2
    ensures
      var d := Cut(nodes, k)[i];
      IsSemd(d) && semAdd[d] in desc && desc[semAdd[d]] == d && semAdd[d] != semAdd[nodes[k]]
  {
    var j := if i < k then i else i + 1;
    assert Cut(nodes, k)[i] == nodes[j];
    assert nodes[j] != nodes[k] && desc[semAdd[nodes[j]]] == nodes[j];
  }

  lemma DomainReduced(desc: map<Address, Ptr>, a: Address)
    requires a in desc
    ensures |Drop(desc, a)| == |desc| - 1
  {
    var desc' := Drop(desc, a);
    assert desc'.Keys == desc.Keys - {a};
    assert |desc'.Keys| == |desc'| && |desc.Keys| == |desc|;
  }

  lemma IndexReduced(semAdd: seq<Address>, nodes: seq<Ptr>, desc: map<Address, Ptr>, k: nat)
    requires |nodes| >= 2 && |semAdd| == SEMDS && AreSemds(nodes)
    requires Distinct(nodes) && IsIndex(semAdd, nodes, desc) && 0 < k < |nodes| - 1
    ensures
      var nodes' := Cut(nodes, k);
      AreSemds(nodes') && IsIndex(semAdd, nodes', Drop(desc, semAdd[nodes[k]]))
  {
    hide Distinct;
    var a := semAdd[nodes[k]];
    var desc' := Drop(desc, a);
    DomainReduced(desc, a);
    forall b | b in desc'
      ensures desc'[b] in Cut(nodes, k)
    {
      ReducedFinds(semAdd, nodes, desc, k, b);
    }
    forall i: nat | 0 < i < |nodes| - 2
      ensures var d := Cut(nodes, k)[i]; IsSemd(d) && semAdd[d] in desc' && desc'[semAdd[d]] == d
    {
      ReducedEntry(semAdd, nodes, desc, k, i);
    }
    assert Cut(nodes, k)[0] == nodes[0] && Cut(nodes, k)[|nodes| - 2] == nodes[|nodes| - 1];
  }

  lemma QueueIsDistinct(next: Column, prev: Column, tail: Ptr, q: seq<Ptr>)
    requires IsProcQ(next, prev, tail, q)
    ensures Distinct(q) && ArePcbs(q) && (tail == NIL <==> q == [])
  {
  }

  // Changing the queue of a, and only links of pcbs in changed, keeps every other queue.
  lemma QueuesKept(next: Column, prev: Column, next': Column, prev': Column, procQ: SemdColumn, procQ': SemdColumn,
                   desc: map<Address, Ptr>, queues: WaitMap, broken: set<Address>, a: Address, q: seq<Ptr>,
                   changed: seq<Ptr>)
    requires HoldsQueues(next, prev, procQ, desc, queues, broken) && a in desc
    requires LinksKept(next, prev, next', prev', changed)
    requires procQ' == procQ[desc[a] := procQ'[desc[a]]] && IsProcQ(next', prev', procQ'[desc[a]], q)
    requires forall b, i :: b in queues && b != a && 0 <= i < |queues[b]| ==> queues[b][i] !in changed
    ensures HoldsQueues(next', prev', procQ', desc, queues[a := q], broken)
  {
    forall b | b in desc && b != a && b !in broken
      ensures IsProcQ(next', prev', procQ'[desc[b]], queues[b])
    {
      QueueKept(next, prev, next', prev', procQ[desc[b]], queues[b], changed);
    }
  }

  lemma QueueDropped(next: Column, prev: Column, procQ: SemdColumn, desc: map<Address, Ptr>, queues: WaitMap,
                     broken: set<Address>, a: Address)
    requires HoldsQueues(next, prev, procQ, desc, queues, broken)
    ensures HoldsQueues(next, prev, procQ, Drop(desc, a), Drop(queues, a), broken)
  {
    hide IsProcQ;
  }

  lemma EmptyQueue(next: Column, prev: Column)
    ensures IsProcQ(next, prev, NIL, [])
  {
  }

  lemma EmptyQueueAdded(next: Column, prev: Column, procQ: SemdColumn, desc: map<Address, Ptr>, queues: WaitMap,
                        broken: set<Address>, a: Address, d: Ptr)
    requires HoldsQueues(next, prev, procQ, desc, queues, broken) && a !in desc && IsSemd(d)
    requires forall b :: b in desc ==> desc[b] != d
    ensures HoldsQueues(next, prev, procQ[d := NIL], desc[a := d], queues[a := []], broken)
  {
    hide IsProcQ;
    EmptyQueue(next, prev);
  }

  lemma QueuesKeptElsewhere(next: Column, prev: Column, next': Column, prev': Column, procQ: SemdColumn,
                            desc: map<Address, Ptr>, queues: WaitMap, broken: set<Address>, changed: seq<Ptr>)
    requires HoldsQueues(next, prev, procQ, desc, queues, broken)
    requires LinksKept(next, prev, next', prev', changed)
    requires forall b, i :: b in queues && b !in broken && 0 <= i < |queues[b]| ==> queues[b][i] !in changed
    ensures HoldsQueues(next', prev', procQ, desc, queues, broken)
  {
    forall b | b in desc && b !in broken
      ensures IsProcQ(next', prev', procQ[desc[b]], queues[b])
    {
      QueueKept(next, prev, next', prev', procQ[desc[b]], queues[b], changed);
    }
  }

  lemma FewerQueuesHeld(next: Column, prev: Column, procQ: SemdColumn, desc: map<Address, Ptr>, queues: WaitMap,
                        broken: set<Address>, broken': set<Address>)
    requires HoldsQueues(next, prev, procQ, desc, queues, broken) && broken <= broken'
    ensures HoldsQueues(next, prev, procQ, desc, queues, broken')
  {
    hide IsProcQ;
  }

  // all descriptors but the two sentinels
  function Spare(): seq<Ptr> {
    seq(SEMDS - 2, i => i + 2)
  }

  // Linked one behind the other, with the first two cut off.
  lemma TwoLists(next: SemdColumn)
    requires forall j :: 0 <= j < SEMDS ==> next[j] == if j != SEMDS - 1 then j + 1 else NIL
    ensures IsList(next[0 := 1][1 := NIL], 0, 2, [0, 1], Spare())
  {
    SpareApart();
    hide Distinct, Apart;
  }

  lemma SpareApart()
    ensures Distinct([0, 1]) && Distinct(Spare()) && Apart([0, 1], Spare())
  {
  }

  lemma TwoSentinels(semAdd: seq<Address>)
    requires |semAdd| == SEMDS
    ensures IsIndex(semAdd[0 := 0][1 := MAXINT], [0, 1], map[])
  {
  }

  lemma NothingQueued(next: Column, prev: Column, procQ: SemdColumn, semAdd: seq<Address>)
    requires |semAdd| == MAXPROC
    ensures HoldsQueues(next, prev, procQ, map[], map[], {}) && RecordsSemaphores(semAdd, map[])
  {
  }

  class Asl {
    const pcbs: PcbTable
    // the columns of the descriptor table
    var next: SemdColumn
    var semAdd: seq<Address>
    var procQ: SemdColumn
    var head: Ptr
    var free: Ptr

    ghost var Nodes: seq<Ptr>
    ghost var Unused: seq<Ptr>
    ghost var Desc: map<Address, Ptr>
    ghost var Queues: WaitMap
    // the semaphores whose queues the list no longer holds in order
    ghost var Broken: set<Address>

    ghost predicate Valid()
      reads this, pcbs`next, pcbs`prev, pcbs`semAdd
    {
      Listed() && Queued()
    }

    ghost predicate Listed()
      reads this`next, this`semAdd, this`head, this`free, this`Nodes, this`Unused, this`Desc
    {
      && IsList(next, head, free, Nodes, Unused)
      && |semAdd| == SEMDS && IsIndex(semAdd, Nodes, Desc)
    }

    ghost predicate Queued()
      reads this`procQ, this`Desc, this`Queues, this`Broken, pcbs`next, pcbs`prev, pcbs`semAdd
    {
      && HoldsQueues(pcbs.next, pcbs.prev, procQ, Desc, Queues, Broken)
      && RecordsSemaphores(pcbs.semAdd, Queues)
    }

    constructor (pcbs: PcbTable)
      requires |pcbs.semAdd| == MAXPROC
      ensures Valid() && Queues == map[] && Broken == {} && this.pcbs == pcbs
    {
      hide IsList, IsIndex, IsProcQ, HoldsQueues, RecordsSemaphores, Spare;
      this.pcbs := pcbs;
      next := seq(SEMDS, i => 0);
      semAdd := seq(SEMDS, i => 0);
      procQ := seq(SEMDS, i => 0);
      Nodes, Unused, Desc, Queues, Broken := [0, 1], Spare(), map[], map[], {};
      new;
      for i := 0 to SEMDS
        invariant forall j :: 0 <= j < i ==> next[j] == if j != SEMDS - 1 then j + 1 else NIL
        invariant |semAdd| == SEMDS
        invariant Nodes == [0, 1] && Unused == Spare()
        invariant Desc == map[] && Queues == map[] && Broken == {}
      {
        next := next[i := if i != SEMDS - 1 then i + 1 else NIL];
      }
      TwoLists(next);
      TwoSentinels(semAdd);
      NothingQueued(pcbs.next, pcbs.prev, procQ, pcbs.semAdd);
      free := 0;
      head := free;
      free := next[free];
      var dummyTail := free;
      free := next[free];
      next := next[head := dummyTail];
      next := next[dummyTail := NIL];
      semAdd := semAdd[head := 0];
      semAdd := semAdd[dummyTail := MAXINT];
    }

    method TraverseToAddress(a: Address) returns (prev: Ptr, curr: Ptr, ghost k: nat)
      requires Listed()
      ensures k + 1 < |Nodes| && prev == Nodes[k] && curr == Nodes[k + 1] && IsSemd(prev) && IsSemd(curr)
      ensures a in Desc ==> curr == Desc[a] && semAdd[curr] == a && a != MAXINT && k + 1 < |Nodes| - 1
      ensures a !in Desc ==> k + 1 == |Nodes| - 1 && semAdd[curr] == MAXINT
    {
      curr := next[head];
      prev := head;
      k := 0;
      while semAdd[curr] < MAXINT && semAdd[curr] != a
        invariant 0 <= k < |Nodes| - 1 && prev == Nodes[k] && curr == Nodes[k + 1]
        invariant forall i :: 0 < i <= k ==> semAdd[Nodes[i]] != a
        decreases |Nodes| - k
      {
        prev := curr;
        curr := next[curr];
        k := k + 1;
      }
      if a in Desc {
        var j :| 0 <= j < |Nodes| && Nodes[j] == Desc[a];
        assert 0 < j < |Nodes| - 1 && semAdd[Nodes[j]] == a;
      }
    }

    method HeadBlocked(a: Address) returns (p: Ptr)
      requires Valid() && a !in Broken
      ensures p == if QueueAt(Queues, a) == [] then NIL else QueueAt(Queues, a)[0]
    {
      var _, curr, _ := TraverseToAddress(a);
      if semAdd[curr] == MAXINT {
        return NIL;
      }
      p := pcbs.HeadProcQ(procQ[curr], Queues[a]);
    }

    // Appends p to the queue of the listed descriptor d of a.
    method Enqueue(d: Ptr, a: Address, p: Ptr)
      requires Queued() && IsPcb(p) && a in Desc && Desc[a] == d && a !in Broken
      requires forall b, i :: b in Queues && 0 <= i < |Queues[b]| ==> Queues[b][i] != p
      modifies this`procQ, this`Queues, pcbs`next, pcbs`prev, pcbs`semAdd
      ensures Queued() && Queues == old(Queues)[a := QueueAt(old(Queues), a) + [p]]
      ensures pcbs.semAdd == old(pcbs.semAdd)[p := a]
      ensures LinksKept(old(pcbs.next), old(pcbs.prev), pcbs.next, pcbs.prev, QueueAt(Queues, a))
    {
      hide IsProcQ, LinksKept;
      ghost var q, procQ0 := Queues[a], procQ;
      var tail := pcbs.InsertProcQ(procQ[d], p, q);
      procQ := procQ[d := tail];
      pcbs.semAdd := pcbs.semAdd[p := a];
      QueuesKept(old(pcbs.next), old(pcbs.prev), pcbs.next, pcbs.prev, procQ0, procQ, Desc, Queues, Broken, a,
                 q + [p], q + [p]);
      Queues := Queues[a := q + [p]];
    }

    // Removes the head of the queue of the listed descriptor d of a.
    method Dequeue(d: Ptr, a: Address) returns (p: Ptr)
      requires Queued() && a in Desc && Desc[a] == d && a !in Broken
      modifies this`procQ, this`Queues, pcbs`next, pcbs`prev, pcbs`semAdd
      ensures Queued() && Queues == old(Queues)[a := Tail(QueueAt(old(Queues), a))]
      ensures p == Head(QueueAt(old(Queues), a)) && (p == NIL <==> QueueAt(old(Queues), a) == [])
      ensures pcbs.semAdd == Marked(old(pcbs.semAdd), p, NULL)
      ensures LinksKept(old(pcbs.next), old(pcbs.prev), pcbs.next, pcbs.prev, QueueAt(old(Queues), a))
    {
      hide IsProcQ, LinksKept;
      ghost var q, procQ0 := Queues[a], procQ;
      QueueIsDistinct(pcbs.next, pcbs.prev, procQ[d], q);
      var tail;
      tail, p := pcbs.RemoveProcQ(procQ[d], q);
      procQ := procQ[d := tail];
      if p != NIL {
        pcbs.semAdd := pcbs.semAdd[p := NULL];
      }
      QueuesKept(old(pcbs.next), old(pcbs.prev), pcbs.next, pcbs.prev, procQ0, procQ, Desc, Queues, Broken, a,
                 Tail(q), q);
      Queues := Queues[a := Tail(q)];
    }

    lemma QueueHeld(d: Ptr, a: Address)
      requires Queued() && a in Desc && Desc[a] == d && a !in Broken
      ensures IsSemd(d) && a in Queues && IsProcQ(pcbs.next, pcbs.prev, procQ[d], Queues[a])
    {
      hide IsProcQ;
    }

    // Takes p, at any position, out of the queue of the listed descriptor d of a.
    method Detach(d: Ptr, a: Address, p: Ptr) returns (removed: Ptr)
      requires Queued() && IsPcb(p) && a in Desc && Desc[a] == d && a !in Broken
      modifies this`procQ, this`Queues, pcbs`next, pcbs`prev, pcbs`semAdd
      ensures Queued() && Queues == old(Queues)[a := Without(QueueAt(old(Queues), a), p)]
      ensures removed == if p in QueueAt(old(Queues), a) then p else NIL
      ensures pcbs.semAdd == Marked(old(pcbs.semAdd), removed, NULL)
      ensures LinksKept(old(pcbs.next), old(pcbs.prev), pcbs.next, pcbs.prev, QueueAt(old(Queues), a))
      ensures IsSemd(d) && (procQ[d] == NIL <==> QueueAt(Queues, a) == [])
    {
      hide IsProcQ, LinksKept, Without, HoldsQueues;
      QueueHeld(d, a);
      ghost var q, procQ0 := Queues[a], procQ;
      QueueIsDistinct(pcbs.next, pcbs.prev, procQ[d], q);
      WithoutElements(q, p);
      var tail;
      tail, removed := pcbs.OutProcQ(procQ[d], p, q);
      QueueIsDistinct(pcbs.next, pcbs.prev, tail, Without(q, p));
      WithoutIndices(q, p);
      procQ := procQ[d := tail];
      if removed != NIL {
        pcbs.semAdd := pcbs.semAdd[p := NULL];
      }
      QueuesKept(old(pcbs.next), old(pcbs.prev), pcbs.next, pcbs.prev, procQ0, procQ, Desc, Queues, Broken, a,
                 Without(q, p), q);
      Queues := Queues[a := Without(q, p)];
    }

    // No more is said about the queues of these semaphores.
    ghost method Abandon(semaphores: set<Address>)
      requires Valid() && Broken <= semaphores
      modifies this`Broken
      ensures Valid() && Broken == semaphores
    {
      hide IsProcQ, HoldsQueues;
      FewerQueuesHeld(pcbs.next, pcbs.prev, procQ, Desc, Queues, Broken, semaphores);
      Broken := semaphores;
    }

    // Moves the first free descriptor to the end of the list, for a, with no process queued.
    method NewDescriptor(prev: Ptr, curr: Ptr, a: Address) returns (d: Ptr)
      requires Valid() && free != NIL && a !in Desc && a < MAXINT
      requires prev == Nodes[|Nodes| - 2] && curr == Nodes[|Nodes| - 1]
      modifies this
      ensures Valid() && Queues == old(Queues)[a := []] && Broken == old(Broken) && a in Desc && Desc[a] == d
    {
      hide IsList, IsIndex, HoldsQueues, RecordsSemaphores, AreSemds;
      DescriptorListed(prev, curr, a);
      EmptyQueueListed(a);
      d := free;
      free := next[free];
      semAdd := semAdd[d := a];
      procQ := procQ[d := NIL];
      next := next[d := curr];
      next := next[prev := d];
      Nodes, Unused := Nodes[..|Nodes| - 1] + [d, curr], Unused[1..];
      Desc := Desc[a := d];
      Queues := Queues[a := []];
    }

    lemma DescriptorListed(prev: Ptr, curr: Ptr, a: Address)
      requires Listed() && free != NIL && a !in Desc && a < MAXINT
      requires prev == Nodes[|Nodes| - 2] && curr == Nodes[|Nodes| - 1]
      ensures IsSemd(prev) && IsSemd(curr) && IsSemd(free) && Unused != [] && |Nodes| >= 2
      ensures
        var nodes' := Nodes[..|Nodes| - 1] + [free, curr];
        && |nodes'| >= 2 && AreSemds(nodes')
        && IsList(next[free := curr][prev := free], head, next[free], nodes', Unused[1..])
        && IsIndex(semAdd[free := a], nodes', Desc[a := free])
    {
      DescriptorLinkedIn(next, head, free, Nodes, Unused);
      IndexExtended(semAdd, Nodes, Unused, Desc, a);
    }

    lemma EmptyQueueListed(a: Address)
      requires Valid() && free != NIL && a !in Desc && a < MAXINT
      ensures IsSemd(free) && HoldsQueues(pcbs.next, pcbs.prev, procQ[free := NIL], Desc[a := free],
                                               Queues[a := []], Broken)
      ensures RecordsSemaphores(pcbs.semAdd, Queues[a := []])
    {
      hide IsProcQ;
      EmptyQueueAdded(pcbs.next, pcbs.prev, procQ, Desc, Queues, Broken, a, free);
    }

    lemma FreeDescriptors()
      requires Valid()
      ensures free == NIL <==> |Queues| == MAXPROC
      ensures Desc.Keys == Queues.Keys && |semAdd| == SEMDS && |pcbs.semAdd| == MAXPROC
    {
      assert |Queues| == |Queues.Keys| && |Desc| == |Desc.Keys|;
    }

    // Returns true, changing nothing, when a has no descriptor and none is free.
    method InsertBlocked(a: Address, p: Ptr) returns (failed: bool)
      requires Valid() && a < MAXINT && IsPcb(p) && a !in Broken
      requires forall b, i :: b in Queues && 0 <= i < |Queues[b]| ==> Queues[b][i] != p
      modifies this, pcbs`next, pcbs`prev, pcbs`semAdd
      ensures Valid() && Queues == Inserted(old(Queues), a, p) && Broken == old(Broken)
      ensures failed <==> Full(old(Queues), a)
      ensures pcbs.semAdd == Marked(old(pcbs.semAdd), if failed then NIL else p, a)
      ensures LinksKept(old(pcbs.next), old(pcbs.prev), pcbs.next, pcbs.prev, if failed then [] else QueueAt(Queues, a))
    {
      hide Listed, Queued, LinksKept;
      FreeDescriptors();
      LinksSame(pcbs.next, pcbs.prev);
      var prev, curr, k := TraverseToAddress(a);
      if semAdd[curr] == MAXINT {
        if free == NIL {
          return true;
        }
        curr := NewDescriptor(prev, curr, a);
      }
      Enqueue(curr, a, p);
      failed := false;
    }

    lemma DescriptorUnlisted(prev: Ptr, curr: Ptr, k: nat)
      requires Listed() && k + 1 < |Nodes| - 1 && prev == Nodes[k] && curr == Nodes[k + 1]
      ensures IsSemd(prev) && IsSemd(curr)
      ensures
        IsList(next[prev := next[curr]][curr := free], head, curr, Cut(Nodes, k + 1), [curr] + Unused)
    {
      hide IsIndex;
      DescriptorLinkedOut(next, head, free, Nodes, Unused, k + 1);
    }

    lemma DescriptorUnindexed(curr: Ptr, k: nat)
      requires Listed() && k + 1 < |Nodes| - 1 && curr == Nodes[k + 1] && IsSemd(curr)
      ensures
        var nodes' := Cut(Nodes, k + 1);
        |nodes'| >= 2 && AreSemds(nodes') && IsIndex(semAdd, nodes', Drop(Desc, semAdd[curr]))
    {
      hide IsIndex, Distinct;
      IndexReduced(semAdd, Nodes, Desc, k + 1);
    }

    lemma QueueUnlisted(a: Address)
      requires Queued()
      ensures HoldsQueues(pcbs.next, pcbs.prev, procQ, Drop(Desc, a), Drop(Queues, a), Broken)
      ensures RecordsSemaphores(pcbs.semAdd, Drop(Queues, a))
    {
      hide IsProcQ;
      QueueDropped(pcbs.next, pcbs.prev, procQ, Desc, Queues, Broken, a);
    }

    // Takes the descriptor Nodes[k + 1] off the list and frees it.
    method FreeDescriptor(prev: Ptr, curr: Ptr, ghost k: nat)
      requires Valid() && k + 1 < |Nodes| - 1 && prev == Nodes[k] && curr == Nodes[k + 1] && IsSemd(curr)
      modifies this`next, this`free, this`Nodes, this`Unused, this`Desc, this`Queues
      ensures Valid() && Queues == Drop(old(Queues), semAdd[curr])
    {
      hide IsList, IsIndex, HoldsQueues, RecordsSemaphores, AreSemds, Drop, Cut;
      ghost var nodes', desc' := Cut(Nodes, k + 1), Drop(Desc, semAdd[curr]);
      DescriptorUnlisted(prev, curr, k);
      DescriptorUnindexed(curr, k);
      QueueUnlisted(semAdd[curr]);
      next := next[prev := next[curr]];
      next := next[curr := free];
      free := curr;
      Unused := [curr] + Unused;
      Nodes := nodes';
      Desc := desc';
      Queues := Drop(Queues, semAdd[curr]);
    }

    method RemoveBlocked(a: Address) returns (p: Ptr)
      requires Valid() && a !in Broken
      modifies this, pcbs`next, pcbs`prev, pcbs`semAdd
      ensures Valid() && Queues == Removed(old(Queues), a) && Broken == old(Broken)
      ensures p == Head(QueueAt(old(Queues), a)) && (p == NIL <==> QueueAt(old(Queues), a) == [])
      ensures pcbs.semAdd == Marked(old(pcbs.semAdd), p, NULL)
      ensures LinksKept(old(pcbs.next), old(pcbs.prev), pcbs.next, pcbs.prev, QueueAt(old(Queues), a))
    {
      hide Listed, Queued, LinksKept;
      FreeDescriptors();
      LinksSame(pcbs.next, pcbs.prev);
      var prev, curr, k := TraverseToAddress(a);
      if semAdd[curr] == MAXINT {
        assert Drop(Queues, a) == Queues;
        return NIL;
      }
      p := Dequeue(curr, a);
      if p == NIL {
        FreeDescriptor(prev, curr, k);
        assert Queues == Drop(old(Queues), a);
      }
    }

    method OutBlocked(p: Ptr) returns (removed: Ptr)
      requires Valid() && IsPcb(p) && pcbs.semAdd[p] !in Broken
      modifies this, pcbs`next, pcbs`prev, pcbs`semAdd
      ensures Valid() && Queues == Left(old(Queues), old(pcbs.semAdd[p]), p) && Broken == old(Broken)
      ensures old(QueueAt(Queues, pcbs.semAdd[p])) == [p] ==> old(pcbs.semAdd[p]) !in Queues
      ensures removed == if p in old(QueueAt(Queues, pcbs.semAdd[p])) then p else NIL
      ensures pcbs.semAdd == Marked(old(pcbs.semAdd), removed, NULL)
      ensures LinksKept(old(pcbs.next), old(pcbs.prev), pcbs.next, pcbs.prev, old(QueueAt(Queues, pcbs.semAdd[p])))
    {
      hide Listed, Queued, LinksKept, Without;
      FreeDescriptors();
      LinksSame(pcbs.next, pcbs.prev);
      var a := pcbs.semAdd[p];
      var prev, curr, k := TraverseToAddress(a);
      if semAdd[curr] == MAXINT {
        return NIL;
      }
      WithoutOther(Queues[a], p);
      removed := Detach(curr, a, p);
      if removed != NIL && procQ[curr] == NIL {
        FreeDescriptor(prev, curr, k);
        assert Queues == Drop(old(Queues), a);
      }
    }

    lemma WithoutOther(q: seq<Ptr>, p: Ptr)
      ensures p !in q ==> Without(q, p) == q
      ensures q == [p] ==> Without(q, p) == []
    {
      if p !in q {
        WithoutAbsent(q, p);
      }
    }
  }
}
