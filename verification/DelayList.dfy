// The Active Delay List: delay descriptors linked between two sentinels, and the list of free
// descriptors (phase5/delayDaemon.c:41-106, 208-299).
module DelayLists {
  import opened Constants
  import opened Queues
  import opened Pcbs

  const DELAYDS: nat := UPROCMAX + 2
  const DUMMYHEADVAL: int := -1
  const DUMMYTAILVAL: int := MAXINT
  const MILLION: int := 1000000

  // A process, by its asid, that is to be woken at a time of day.
  datatype Entry = Entry(wake: int, asid: int)

  predicate IsDelayd(d: Ptr) {
    0 <= d < DELAYDS
  }

  type DelaydColumn = c: seq<int> | |c| == DELAYDS witness seq(DELAYDS, i => 0)

  // What (tod + wakeTime * MILLION) leaves in a signed 32-bit integer.
  function WakeTime(tod: int, secs: int): int {
    (tod + secs * MILLION + 0x8000_0000) % 0x1_0000_0000 - 0x8000_0000
  }

  // Where insertADL puts a descriptor: behind the first node, the head sentinel included, whose wake
  // time is not later. The head sentinel's is -1, so this is the front for every time of day.
  function Position(entries: seq<Entry>, wake: int): nat
  {
    if DUMMYHEADVAL <= wake then 0 else Later(entries, wake)
  }

  function Later(entries: seq<Entry>, wake: int): (k: nat)
    ensures k <= |entries| + 1
  {
    if entries == [] then 1 else if entries[0].wake <= wake then 1 else 1 + Later(entries[1..], wake)
  }

  lemma {:induction false} LaterDue(entries: seq<Entry>, wake: int)
    ensures Later(entries, wake) > 0
    ensures Later(entries, wake) <= |entries| ==> entries[Later(entries, wake) - 1].wake <= wake
    ensures forall m :: 0 <= m < Later(entries, wake) - 1 && m < |entries| ==> entries[m].wake > wake
  {
    if entries != [] && entries[0].wake > wake {
      LaterDue(entries[1..], wake);
    }
  }

  // The node in front of the position is the first one that is not later.
  lemma PositionDue(entries: seq<Entry>, wake: int)
    ensures
      var k := Position(entries, wake);
      && (k == 0 <==> DUMMYHEADVAL <= wake)
      && (0 < k <= |entries| ==> entries[k - 1].wake <= wake)
      && (forall m :: 0 <= m < k - 1 && m < |entries| ==> entries[m].wake > wake)
  {
    LaterDue(entries, wake);
  }

  // The search ends on the list exactly if the wake time is not before the head sentinel's, or some listed
  // time is not later. Otherwise it passes the tail sentinel.
  lemma SearchEndsExactly(entries: seq<Entry>, wake: int)
    ensures Position(entries, wake) <= |entries| <==>
      DUMMYHEADVAL <= wake || exists i :: 0 <= i < |entries| && entries[i].wake <= wake
  {
    PositionDue(entries, wake);
  }

  // An overflowed wake time on an empty list: 2148 seconds, asked for when the clock starts, do not fit.
  lemma SearchRunsOff()
    ensures WakeTime(0, 2148) == 2148 * MILLION - 0x1_0000_0000 < DUMMYHEADVAL
    ensures Position([], WakeTime(0, 2148)) > 0
  {
  }

  // next links q, from its first element to a null pointer.
  ghost predicate IsChain(next: DelaydColumn, q: seq<Ptr>) {
    && (forall i :: 0 <= i < |q| ==> IsDelayd(q[i]))
    && Distinct(q)
    && (forall i {:trigger next[q[i]]} :: 0 <= i < |q| ==> next[q[i]] == if i + 1 < |q| then q[i + 1] else NIL)
  }

  lemma ChainLinkedIn(next: DelaydColumn, q: seq<Ptr>, k: nat, d: Ptr)
    requires IsChain(next, q) && k < |q| && IsDelayd(d) && d !in q
    ensures IsChain(next[q[k] := d][d := next[q[k]]], q[..k + 1] + [d] + q[k + 1..])
  {
  }

  lemma ChainLinkedOut(next: DelaydColumn, q: seq<Ptr>, k: nat)
    requires IsChain(next, q) && k + 1 < |q|
    ensures IsDelayd(next[q[k]]) && IsChain(next[q[k] := next[next[q[k]]]], Cut(q, k + 1))
  {
    assert next[q[k]] == q[k + 1];
  }

  lemma ChainKept(next: DelaydColumn, next': DelaydColumn, q: seq<Ptr>)
    requires IsChain(next, q) && forall i :: 0 <= i < |q| ==> next'[q[i]] == next[q[i]]
    ensures IsChain(next', q)
  {
  }

  // Both lists, which share the table between them.
  ghost predicate AreLists(next: DelaydColumn, head: Ptr, free: Ptr, nodes: seq<Ptr>, unused: seq<Ptr>) {
    && IsChain(next, nodes) && |nodes| >= 2 && head == nodes[0]
    && IsChain(next, unused) && free == (if unused == [] then NIL else unused[0])
    && Apart(nodes, unused)
    && |nodes| + |unused| == DELAYDS
  }

  // The fields of the listed descriptors.
  ghost predicate Holds(wakeTime: DelaydColumn, supStruct: DelaydColumn, nodes: seq<Ptr>, entries: seq<Entry>) {
    && |nodes| == |entries| + 2 && (forall i :: 0 <= i < |nodes| ==> IsDelayd(nodes[i]))
    && wakeTime[nodes[0]] == DUMMYHEADVAL && wakeTime[nodes[|nodes| - 1]] == DUMMYTAILVAL
    && (forall i {:trigger entries[i]} :: 0 <= i < |entries| ==>
          wakeTime[nodes[i + 1]] == entries[i].wake && supStruct[nodes[i + 1]] == entries[i].asid)
  }

  // all descriptors but the two sentinels
  function Spare(): (q: seq<Ptr>)
    ensures |q| == UPROCMAX
  {
    seq(UPROCMAX, i => i + 2)
  }

  // Linked one behind the other, with the first two cut off.
  lemma TwoLists(next: DelaydColumn)
    requires forall j :: 0 <= j < DELAYDS ==> next[j] == if j != UPROCMAX + 1 then j + 1 else NIL
    ensures AreLists(next[0 := 1][1 := NIL], 0, 2, [0, 1], Spare())
  {
  }

  lemma TwoSentinels(wakeTime: DelaydColumn, supStruct: DelaydColumn)
    ensures Holds(wakeTime[0 := DUMMYHEADVAL][1 := DUMMYTAILVAL], supStruct, [0, 1], [])
  {
  }

  // ------------------------------------------------------------------- one daemon pass

  // What a pass leaves on the list; clock(k) is the time of day read at the inspection number k.
  function Survivors(entries: seq<Entry>, clock: nat -> int, k: nat): seq<Entry>
    decreases |entries|
  {
    if entries == [] || entries[0].wake == DUMMYTAILVAL then entries
    else if clock(k) >= entries[0].wake then Survivors(entries[1..], clock, k + 1)
    else [entries[0]] + Survivors(entries[1..], clock, k + 1)
  }

  // The processes that it wakes, in order.
  function Woken(entries: seq<Entry>, clock: nat -> int, k: nat): seq<int>
    decreases |entries|
  {
    if entries == [] || entries[0].wake == DUMMYTAILVAL then []
    else if clock(k) >= entries[0].wake then [entries[0].asid] + Woken(entries[1..], clock, k + 1)
    else Woken(entries[1..], clock, k + 1)
  }

  // what comes of the critical section of SYS18; RunsOff is the exception of a load through a null pointer
  datatype Enrolment = Enrolled | NoDescriptor | RunsOff

  class DelayList {
    // the columns of the descriptor table
    var next: DelaydColumn
    var wakeTime: DelaydColumn
    var supStruct: DelaydColumn
    var head: Ptr
    var free: Ptr

    ghost var Nodes: seq<Ptr>
    ghost var Unused: seq<Ptr>
    ghost var Entries: seq<Entry>

    ghost predicate Valid()
      reads this
    {
      AreLists(next, head, free, Nodes, Unused) && Holds(wakeTime, supStruct, Nodes, Entries)
    }

    constructor ()
      ensures Valid() && Entries == [] && |Unused| == UPROCMAX
    {
      hide AreLists, Holds, Spare;
      next, wakeTime, supStruct := seq(DELAYDS, i => 0), seq(DELAYDS, i => 0), seq(DELAYDS, i => 0);
      Nodes, Unused, Entries := [0, 1], Spare(), [];
      new;
      for i := 0 to DELAYDS
        invariant forall j :: 0 <= j < i ==> next[j] == if j != UPROCMAX + 1 then j + 1 else NIL
        invariant Nodes == [0, 1] && Unused == Spare() && Entries == []
      {
        next := next[i := if i != UPROCMAX + 1 then i + 1 else NIL];
      }
      TwoLists(next);
      TwoSentinels(wakeTime, supStruct);
      free := 0;
      head := free;
      free := next[free];
      var dummyTail := free;
      free := next[free];
      next := next[head := dummyTail];
      next := next[dummyTail := NIL];
      wakeTime := wakeTime[head := DUMMYHEADVAL];
      wakeTime := wakeTime[dummyTail := DUMMYTAILVAL];
    }

    method Empty() returns (empty: bool)
      requires Valid()
      ensures empty <==> |Entries| == UPROCMAX
    {
      empty := free == NIL;
    }

    // Takes the first free descriptor, for process asid, to be woken secs seconds after tod.
    method AllocateDelayd(asid: int, secs: int, tod: int) returns (d: Ptr)
      requires Valid() && |Entries| < UPROCMAX
      modifies this`wakeTime, this`supStruct, this`free, this`Unused
      ensures old(Unused) != [] && d == old(Unused)[0] && Unused == old(Unused)[1..]
      ensures IsDelayd(d) && d !in Nodes && d !in Unused && wakeTime[d] == WakeTime(tod, secs) && supStruct[d] == asid
      ensures free == (if Unused == [] then NIL else Unused[0]) && IsChain(next, Unused)
      ensures Holds(wakeTime, supStruct, Nodes, Entries)
    {
      d := free;
      TailDistinct(Unused);
      free := next[free];
      wakeTime := wakeTime[d := WakeTime(tod, secs)];
      supStruct := supStruct[d := asid];
      Unused := Unused[1..];
    }

    // The descriptor d is on neither list.
    ghost predicate Loose(d: Ptr)
      reads this
    {
      && IsDelayd(d) && d !in Nodes && d !in Unused
      && IsChain(next, Nodes) && |Nodes| >= 2 && head == Nodes[0]
      && IsChain(next, Unused) && free == (if Unused == [] then NIL else Unused[0])
      && Apart(Nodes, Unused)
      && |Nodes| + |Unused| + 1 == DELAYDS
      && Holds(wakeTime, supStruct, Nodes, Entries)
    }

    // Returns false, with the lists as they were, when the search runs off the list.
    method InsertADL(d: Ptr) returns (inserted: bool)
      requires Loose(d)
      modifies this`next, this`Nodes, this`Entries
      ensures inserted <==> Position(old(Entries), wakeTime[d]) <= |old(Entries)|
      ensures !inserted ==> Loose(d) && next == old(next) && Nodes == old(Nodes) && Entries == old(Entries)
      ensures Unused == old(Unused)
      ensures
        inserted ==>
        var k := Position(old(Entries), wakeTime[d]);
        Valid() && Entries == old(Entries)[..k] + [Entry(wakeTime[d], supStruct[d])] + old(Entries)[k..]
    {
      hide Position, Apart;
      var prev := head;
      var curr := next[head];
      ghost var k := 0;
      PositionDue(Entries, wakeTime[d]);
      while !(wakeTime[prev] <= wakeTime[d])
        invariant 0 <= k <= Position(Entries, wakeTime[d]) && k < |Nodes| && prev == Nodes[k]
        invariant curr == if k + 1 < |Nodes| then Nodes[k + 1] else NIL
        invariant forall m :: 0 <= m < k ==> wakeTime[Nodes[m]] > wakeTime[d]
        decreases |Nodes| - k
      {
        if curr == NIL {
          return false;
        }
        prev := next[prev];
        curr := next[curr];
        k := k + 1;
      }
      assert 0 < k <= |Entries| ==> Entries[k - 1].wake <= wakeTime[d];
      LinkIn(prev, d, curr, k);
      return true;
    }

    // Links d in between two neighbours.
    method LinkIn(prev: Ptr, d: Ptr, curr: Ptr, ghost k: nat)
      requires Loose(d) && k <= |Entries| && prev == Nodes[k] && curr == Nodes[k + 1]
      modifies this`next, this`Nodes, this`Entries
      ensures Valid() && Unused == old(Unused)
      ensures Entries == old(Entries)[..k] + [Entry(wakeTime[d], supStruct[d])] + old(Entries)[k..]
    {
      hide AreLists, Holds, Apart, IsChain;
      Listed(d, k);
      next := next[prev := d];
      next := next[d := curr];
      Entries := Entries[..k] + [Entry(wakeTime[d], supStruct[d])] + Entries[k..];
      Nodes := Nodes[..k + 1] + [d] + Nodes[k + 1..];
    }

    lemma Listed(d: Ptr, k: nat)
      requires Loose(d) && k <= |Entries|
      ensures IsDelayd(Nodes[k]) && next[Nodes[k]] == Nodes[k + 1]
      ensures
        var nodes := Nodes[..k + 1] + [d] + Nodes[k + 1..];
        && AreLists(next[Nodes[k] := d][d := Nodes[k + 1]], head, free, nodes, Unused)
        && Holds(wakeTime, supStruct, nodes, Entries[..k] + [Entry(wakeTime[d], supStruct[d])] + Entries[k..])
    {
      ChainLinkedIn(next, Nodes, k, d);
      ChainKept(next, next[Nodes[k] := d][d := Nodes[k + 1]], Unused);
    }

    // The critical section of delay. If the search runs off the list, the descriptor is lost.
    method Enroll(asid: int, secs: int, tod: int) returns (r: Enrolment)
      requires Valid()
      modifies this
      ensures r == NoDescriptor <==> |old(Entries)| == UPROCMAX
      ensures r == RunsOff <==>
        |old(Entries)| < UPROCMAX && Position(old(Entries), WakeTime(tod, secs)) > |old(Entries)|
      ensures r != Enrolled ==> Nodes == old(Nodes) && Entries == old(Entries)
      ensures r != RunsOff ==> Valid()
      ensures r == RunsOff ==> old(Unused) != [] && Loose(old(Unused)[0]) && Unused == old(Unused)[1..]
      ensures
        r == Enrolled ==>
        var k := Position(old(Entries), WakeTime(tod, secs));
        Entries == old(Entries)[..k] + [Entry(WakeTime(tod, secs), asid)] + old(Entries)[k..]
    {
      hide Position, WakeTime;
      var empty := Empty();
      if empty {
        return NoDescriptor;
      }
      var d := AllocateDelayd(asid, secs, tod);
      var inserted := InsertADL(d);
      return if inserted then Enrolled else RunsOff;
    }

    // Takes the descriptor Nodes[i + 1] off the list and frees it.
    method Remove(prev: Ptr, curr: Ptr, ghost i: nat)
      requires Valid() && i < |Entries| && prev == Nodes[i] && curr == Nodes[i + 1]
      modifies this`next, this`free, this`Nodes, this`Unused, this`Entries
      ensures Valid() && Entries == Cut(old(Entries), i) && Nodes == Cut(old(Nodes), i + 1)
      ensures Nodes[i] == prev && next[prev] == Nodes[i + 1]
      ensures |Unused| == |old(Unused)| + 1
    {
      Unlisted(i);
      next := next[prev := next[curr]];
      DeallocateDelayd(curr);
      Nodes, Unused, Entries := Cut(Nodes, i + 1), [curr] + Unused, Cut(Entries, i);
    }

    method DeallocateDelayd(d: Ptr)
      requires IsDelayd(d)
      modifies this`next, this`free
      ensures next == old(next)[d := old(free)] && free == d
    {
      var rest := free;
      next := next[d := rest];
      free := d;
    }

    lemma Unlisted(i: nat)
      requires Valid() && i < |Entries|
      ensures IsDelayd(Nodes[i]) && IsDelayd(Nodes[i + 1]) && next[Nodes[i + 1]] == Nodes[i + 2]
      ensures
        var d := Nodes[i + 1];
        && AreLists(next[Nodes[i] := next[d]][d := free], head, d, Cut(Nodes, i + 1), [d] + Unused)
        && Holds(wakeTime, supStruct, Cut(Nodes, i + 1), Cut(Entries, i))
    {
      var d := Nodes[i + 1];
      assert next[Nodes[i]] == d;
      ChainLinkedOut(next, Nodes, i);
      var next': DelaydColumn := next[Nodes[i] := next[d]];
      ChainKept(next', next'[d := free], Cut(Nodes, i + 1));
      ChainKept(next, next'[d := free], Unused);
    }

    // One round of the daemon: the processes whose V it does, in order.
    method Pass(clock: nat -> int) returns (woken: seq<int>)
      requires Valid()
      modifies this
      ensures Valid() && Entries == Survivors(old(Entries), clock, 0) && woken == Woken(old(Entries), clock, 0)
    {
      hide AreLists, Holds, Survivors, Woken, Cut;
      NodeAt(0);
      var prev := head;
      var curr := next[head];
      woken := [];
      var k := 0;
      ghost var i := 0;
      PassBegins(Entries, clock);
      while wakeTime[curr] != DUMMYTAILVAL
        invariant Valid() && 0 <= i <= |Entries| && |Nodes| == |Entries| + 2 && prev == Nodes[i] && curr == Nodes[i + 1]
        invariant IsDelayd(curr) && wakeTime[curr] == (if i < |Entries| then Entries[i].wake else DUMMYTAILVAL)
        invariant Survivors(old(Entries), clock, 0) == Entries[..i] + Survivors(Entries[i..], clock, k)
        invariant Woken(old(Entries), clock, 0) == woken + Woken(Entries[i..], clock, k)
        decreases |Entries| - i
      {
        var tod := clock(k);
        PassInspects(Entries, clock, i, k);
        NodeAt(i);
        if tod >= wakeTime[curr] {
          woken := woken + [supStruct[curr]];
          Remove(prev, curr, i);
          NodeAt(i);
          curr := next[prev];
        } else {
          prev := next[prev];
          curr := next[curr];
          i := i + 1;
        }
        NodeAt(i);
        k := k + 1;
      }
      PassEnds(Entries, clock, i, k);
    }

    lemma NodeAt(i: nat)
      requires Valid() && i <= |Entries|
      ensures |Nodes| == |Entries| + 2 && Nodes[0] == head && IsDelayd(Nodes[i]) && IsDelayd(Nodes[i + 1]) &&
          next[Nodes[i]] == Nodes[i + 1]
      ensures i + 2 < |Nodes| ==> next[Nodes[i + 1]] == Nodes[i + 2]
      ensures wakeTime[Nodes[i + 1]] == if i < |Entries| then Entries[i].wake else DUMMYTAILVAL
      ensures i < |Entries| ==> supStruct[Nodes[i + 1]] == Entries[i].asid
    {
    }
  }

  lemma PassBegins(entries: seq<Entry>, clock: nat -> int)
    ensures entries[..0] + Survivors(entries[0..], clock, 0) == Survivors(entries, clock, 0)
    ensures [] + Woken(entries[0..], clock, 0) == Woken(entries, clock, 0)
  {
    assert entries[0..] == entries;
  }

  lemma PassInspects(entries: seq<Entry>, clock: nat -> int, i: nat, k: nat)
    requires i < |entries| && entries[i].wake != DUMMYTAILVAL
    ensures clock(k) >= entries[i].wake ==>
      && Survivors(entries[i..], clock, k) == Survivors(Cut(entries, i)[i..], clock, k + 1) &&
          |Cut(entries, i)| == |entries| - 1
      && Cut(entries, i)[..i] == entries[..i]
      && Woken(entries[i..], clock, k) == [entries[i].asid] + Woken(Cut(entries, i)[i..], clock, k + 1)
      && forall woken: seq<int> :: woken + ([entries[i].asid] + Woken(Cut(entries, i)[i..], clock, k + 1)) ==
           (woken + [entries[i].asid]) + Woken(Cut(entries, i)[i..], clock, k + 1)
    ensures clock(k) < entries[i].wake ==>
      && entries[..i] + Survivors(entries[i..], clock, k) == entries[..i + 1] + Survivors(entries[i + 1..], clock, k + 1)
      && Woken(entries[i..], clock, k) == Woken(entries[i + 1..], clock, k + 1)
  {
    assert entries[i..][0] == entries[i] && entries[i..][1..] == entries[i + 1..];
    assert Cut(entries, i)[i..] == entries[i + 1..];
    if clock(k) < entries[i].wake {
      assert entries[..i + 1] == entries[..i] + [entries[i]];
    }
  }

  lemma PassEnds(entries: seq<Entry>, clock: nat -> int, i: nat, k: nat)
    requires i <= |entries| && (i < |entries| ==> entries[i].wake == DUMMYTAILVAL)
    ensures entries[..i] + Survivors(entries[i..], clock, k) == entries
    ensures forall woken: seq<int> :: woken + Woken(entries[i..], clock, k) == woken
  {
    assert i < |entries| ==> entries[i..][0] == entries[i];
    assert Survivors(entries[i..], clock, k) == entries[i..];
  }
}
