// Process control blocks: circular process queues reached through a tail pointer, the free
// list, and the left-child / right-sibling process tree (phase1/pcb.c).
//
// The statically allocated pcbs form a table; each field of the record is one column of it.
module Pcbs {
  import opened Constants
  import opened Queues

  predicate IsPcb(p: Ptr) {
    0 <= p < MAXPROC
  }

  ghost predicate ArePcbs(q: seq<Ptr>) {
    forall i :: 0 <= i < |q| ==> IsPcb(q[i])
  }

  // a column of the table
  type Column = c: seq<Ptr> | |c| == MAXPROC witness seq(MAXPROC, i => NIL)

  // Columns that agree except, possibly, at the entries of changed.
  ghost predicate SameOutside(before: Column, after: Column, changed: seq<Ptr>) {
    forall i :: 0 <= i < MAXPROC && i !in changed ==> after[i] == before[i]
  }

  // Both queue links agree except, possibly, at the entries of changed.
  ghost predicate LinksKept(next: Column, prev: Column, next': Column, prev': Column, changed: seq<Ptr>) {
    SameOutside(next, next', changed) && SameOutside(prev, prev', changed)
  }

  lemma LinksSame(next: Column, prev: Column)
    ensures forall q :: LinksKept(next, prev, next, prev, q)
  {
  }

  // The semaphore column with p, unless NIL, recording a.
  function Marked(semAdd: seq<Address>, p: Ptr, a: Address): seq<Address>
    requires p == NIL || 0 <= p < |semAdd|
  {
    if p == NIL then semAdd else semAdd[p := a]
  }

  ghost predicate Apart(q: seq<Ptr>, r: seq<Ptr>) {
    forall i, j :: 0 <= i < |q| && 0 <= j < |r| ==> q[i] != r[j]
  }

  // tail is the tail pointer of a circular doubly linked queue holding exactly q, head first.
  ghost predicate IsProcQ(next: Column, prev: Column, tail: Ptr, q: seq<Ptr>) {
    && ArePcbs(q) && Distinct(q)
    && (q == [] ==> tail == NIL)
    && (q != [] ==> tail == q[|q| - 1] && next[q[|q| - 1]] == q[0] && prev[q[0]] == q[|q| - 1])
    && (forall i {:trigger next[q[i]]} :: 0 <= i < |q| - 1 ==> next[q[i]] == q[i + 1])
    && (forall i {:trigger prev[q[i]]} :: 1 <= i < |q| ==> prev[q[i]] == q[i - 1])
  }

  // head starts the singly linked, null-terminated list q.
  ghost predicate IsFreeList(next: Column, head: Ptr, q: seq<Ptr>) {
    && ArePcbs(q) && Distinct(q)
    && head == (if q == [] then NIL else q[0])
    && (forall i {:trigger next[q[i]]} :: 0 <= i < |q| ==> next[q[i]] == if i + 1 < |q| then q[i + 1] else NIL)
  }

  // kids are the children of p, most recent first, with agreeing left and right links.
  ghost predicate IsFamily(parent: Column, child: Column, sib: Column, sibLeft: Column, p: Ptr, kids: seq<Ptr>) {
    && IsPcb(p) && ArePcbs(kids) && Distinct(kids)
    && child[p] == (if kids == [] then NIL else kids[0])
    && (forall i {:trigger parent[kids[i]]} :: 0 <= i < |kids| ==> parent[kids[i]] == p)
    && (forall i {:trigger sib[kids[i]]} :: 0 <= i < |kids| ==>
        sib[kids[i]] == if i + 1 < |kids| then kids[i + 1] else NIL)
    && (forall i {:trigger sibLeft[kids[i]]} :: 0 <= i < |kids| ==>
        sibLeft[kids[i]] == if i > 0 then kids[i - 1] else NIL)
  }

  lemma QueueKept(next: Column, prev: Column, next': Column, prev': Column, tail: Ptr, q: seq<Ptr>, changed: seq<Ptr>)
    requires IsProcQ(next, prev, tail, q) && Apart(q, changed)
    requires LinksKept(next, prev, next', prev', changed)
    ensures IsProcQ(next', prev', tail, q)
  {
    forall i | 0 <= i < |q|
      ensures next'[q[i]] == next[q[i]] && prev'[q[i]] == prev[q[i]]
    {
      assert q[i] !in changed;
    }
  }

  // Linking the neighbours of q[k] past it takes it out of a queue of at least two.
  lemma QueueUnlinked(next: Column, prev: Column, tail: Ptr, q: seq<Ptr>, k: nat)
    requires IsProcQ(next, prev, tail, q) && |q| >= 2 && k < |q|
    ensures
      var p := q[k];
      IsPcb(prev[p]) && IsPcb(next[p]) && prev[p] != p && next[p] != p && prev[p] in q && next[p] in q &&
      IsProcQ(next[prev[p] := next[p]][p := NIL], prev[next[p] := prev[p]][p := NIL],
              if p == tail then prev[p] else tail, Cut(q, k))
  {
    assert q[0] != q[|q| - 1];
  }

  // Likewise for a child other than the first.
  lemma ChildUnlinked(parent: Column, child: Column, sib: Column, sibLeft: Column, p: Ptr, kids: seq<Ptr>, k: nat)
    requires IsFamily(parent, child, sib, sibLeft, p, kids) && 0 < k < |kids|
    ensures
      var c := kids[k];
      var right := sib[c];
      IsPcb(sibLeft[c]) && sibLeft[c] != c && sibLeft[c] in kids &&
      (right != NIL ==> IsPcb(right) && right != c && right in kids) &&
      IsFamily(parent[c := NIL], child, sib[sibLeft[c] := right][c := NIL],
               (if right == NIL then sibLeft else sibLeft[right := sibLeft[c]])[c := NIL], p, Cut(kids, k))
  {
    var c := kids[k];
    if k + 1 < |kids| {
      assert sib[c] == kids[k + 1];
    }
    assert forall i :: 0 <= i < |kids| && i != k ==> kids[i] != c;
  }

  lemma FreeListKept(next: Column, next': Column, head: Ptr, q: seq<Ptr>, changed: seq<Ptr>)
    requires IsFreeList(next, head, q) && Apart(q, changed) && SameOutside(next, next', changed)
    ensures IsFreeList(next', head, q)
  {
    forall i | 0 <= i < |q|
      ensures next'[q[i]] == next[q[i]]
    {
      assert q[i] !in changed;
    }
  }

  class PcbTable {
    var next: Column
    var prev: Column
    var parent: Column
    var child: Column
    var sib: Column
    var sibLeft: Column
    var semAdd: seq<Address>
    var freeHead: Ptr

    // ------------------------------------------------------------------ free list

    constructor ()
      ensures IsFreeList(next, freeHead, seq(MAXPROC, i => i)) && semAdd == seq(MAXPROC, i => 0)
    {
      // statically allocated memory starts out as zeros
      var zeros := seq(MAXPROC, i => 0);
      next, prev, parent, child, sib, sibLeft := zeros, zeros, zeros, zeros, zeros, zeros;
      semAdd := seq(MAXPROC, i => 0);
      new;
      freeHead := MAXPROC - 1;
      next := next[freeHead := NIL];
      var i := MAXPROC - 1;
      ghost var free := [i];
      while i > 0
        invariant 0 <= i < MAXPROC
        invariant free == seq(MAXPROC - i, j => i + j) && IsFreeList(next, freeHead, free)
        invariant semAdd == seq(MAXPROC, j => 0)
      {
        FreePcb(i - 1, free);
        free := [i - 1] + free;
        i := i - 1;
      }
      assert free == seq(MAXPROC, j => j);
    }

    method FreePcb(p: Ptr, ghost free: seq<Ptr>)
      requires IsPcb(p) && IsFreeList(next, freeHead, free) && p !in free
      modifies this`next, this`freeHead
      ensures IsFreeList(next, freeHead, [p] + free)
      ensures next == old(next)[p := next[p]]
    {
      next := next[p := freeHead];
      freeHead := p;
    }

    // sibLeft is left as it was, and semAdd becomes 0 rather than NULL.
    method AllocPcb(ghost free: seq<Ptr>) returns (p: Ptr)
      requires IsFreeList(next, freeHead, free) && |semAdd| == MAXPROC
      modifies this`next, this`prev, this`parent, this`child, this`sib, this`semAdd, this`freeHead
      ensures p == if free == [] then NIL else free[0]
      ensures p == NIL ==> unchanged(this)
      ensures p != NIL ==>
        && next == old(next)[p := NIL] && prev == old(prev)[p := NIL]
        && parent == old(parent)[p := NIL] && child == old(child)[p := NIL] && sib == old(sib)[p := NIL]
        && semAdd == old(semAdd)[p := 0]
        && IsFreeList(next, freeHead, free[1..])
    {
      if freeHead == NIL {
        return NIL;
      }
      p := freeHead;
      freeHead := next[freeHead];
      next := next[p := NIL];
      prev := prev[p := NIL];
      parent := parent[p := NIL];
      child := child[p := NIL];
      sib := sib[p := NIL];
      semAdd := semAdd[p := 0];
    }

    // -------------------------------------------------------------- process queues

    method InsertProcQ(tail: Ptr, p: Ptr, ghost q: seq<Ptr>) returns (tail': Ptr)
      requires IsProcQ(next, prev, tail, q) && (p == NIL || (IsPcb(p) && p !in q))
      modifies this`next, this`prev
      ensures IsProcQ(next, prev, tail', if p == NIL then q else q + [p])
      ensures LinksKept(old(next), old(prev), next, prev, q + [p])
    {
      if p == NIL {
        return tail;
      }
      if tail == NIL {
        next := next[p := p];
        prev := prev[p := p];
        return p;
      }
      var head := next[tail];
      next := next[tail := p];
      prev := prev[p := tail];
      next := next[p := head];
      prev := prev[head := p];
      return p;
    }

    method RemoveProcQ(tail: Ptr, ghost q: seq<Ptr>) returns (tail': Ptr, removed: Ptr)
      requires IsProcQ(next, prev, tail, q)
      modifies this`next, this`prev
      ensures removed == if q == [] then NIL else q[0]
      ensures IsProcQ(next, prev, tail', if q == [] then [] else q[1..])
      ensures removed != NIL ==> next[removed] == prev[removed] == NIL
      ensures LinksKept(old(next), old(prev), next, prev, q)
    {
      if tail == NIL {
        return NIL, NIL;
      }
      if next[tail] == tail {
        assert |q| == 1;
        tail', removed := NIL, tail;
      } else {
        tail', removed := tail, next[tail];
        next := next[tail := next[removed]];
        prev := prev[next[removed] := tail];
      }
      next := next[removed := NIL];
      prev := prev[removed := NIL];
    }

    method OutProcQ(tail: Ptr, p: Ptr, ghost q: seq<Ptr>) returns (tail': Ptr, removed: Ptr)
      requires IsProcQ(next, prev, tail, q) && IsPcb(p)
      modifies this`next, this`prev
      ensures removed == if p in q then p else NIL
      ensures IsProcQ(next, prev, tail', Without(q, p))
      ensures removed == NIL ==> tail' == tail && next == old(next) && prev == old(prev)
      ensures removed != NIL ==> next[p] == prev[p] == NIL
      ensures LinksKept(old(next), old(prev), next, prev, q)
    {
      if p !in q {
        WithoutAbsent(q, p);
      }
      if tail == NIL {
        return NIL, NIL;
      }
      if next[tail] == tail {
        if tail == p {
          tail', removed := RemoveProcQ(tail, q);
          return;
        }
        return tail, NIL;
      }
      var search := next[tail];
      ghost var k := 0;
      while search != tail && search != p
        invariant 0 <= k < |q| && search == q[k]
        invariant forall i :: 0 <= i < k ==> q[i] != p
        decreases |q| - k
      {
        search := next[search];
        k := k + 1;
      }
      if search != p {
        return tail, NIL;
      }
      WithoutAt(q, k);
      tail' := Unlink(tail, p, q, k);
      removed := p;
    }

    method Unlink(tail: Ptr, p: Ptr, ghost q: seq<Ptr>, ghost k: nat) returns (tail': Ptr)
      requires IsProcQ(next, prev, tail, q) && |q| >= 2 && k < |q| && p == q[k]
      modifies this`next, this`prev
      ensures IsProcQ(next, prev, tail', Cut(q, k))
      ensures next[p] == prev[p] == NIL
      ensures LinksKept(old(next), old(prev), next, prev, q)
    {
      QueueUnlinked(next, prev, tail, q, k);
      next := next[prev[p] := next[p]];
      prev := prev[next[p] := prev[p]];
      tail' := if p == tail then prev[p] else tail;
      next := next[p := NIL];
      prev := prev[p := NIL];
    }

    method HeadProcQ(tail: Ptr, ghost q: seq<Ptr>) returns (head: Ptr)
      requires IsProcQ(next, prev, tail, q)
      ensures head == if q == [] then NIL else q[0]
    {
      if tail == NIL {
        return NIL;
      }
      return next[tail];
    }

    // ---------------------------------------------------------------- process tree

    method InsertChild(par: Ptr, p: Ptr, ghost kids: seq<Ptr>)
      requires IsFamily(parent, child, sib, sibLeft, par, kids) && IsPcb(p) && p !in kids
      modifies this`parent, this`child, this`sib, this`sibLeft
      ensures IsFamily(parent, child, sib, sibLeft, par, [p] + kids)
      ensures parent == old(parent)[p := par] && child == old(child)[par := p]
      ensures SameOutside(old(sib), sib, [p] + kids) && SameOutside(old(sibLeft), sibLeft, [p] + kids)
    {
      sib := sib[p := child[par]];
      sibLeft := sibLeft[p := NIL];
      parent := parent[p := par];
      if child[par] != NIL {
        sibLeft := sibLeft[child[par] := p];
      }
      child := child[par := p];
    }

    // The removed child keeps its parent pointer.
    method RemoveChild(p: Ptr, ghost kids: seq<Ptr>) returns (removed: Ptr)
      requires IsFamily(parent, child, sib, sibLeft, p, kids)
      modifies this`child, this`sib, this`sibLeft
      ensures removed == if kids == [] then NIL else kids[0]
      ensures IsFamily(parent, child, sib, sibLeft, p, if kids == [] then [] else kids[1..])
      ensures removed != NIL ==> sib[removed] == sibLeft[removed] == NIL
      ensures child == old(child)[p := child[p]]
      ensures SameOutside(old(sib), sib, kids) && SameOutside(old(sibLeft), sibLeft, kids)
    {
      if child[p] == NIL {
        return NIL;
      }
      removed := child[p];
      if sib[removed] != NIL {
        sibLeft := sibLeft[sib[removed] := NIL];
      }
      child := child[p := sib[removed]];
      sib := sib[removed := NIL];
      sibLeft := sibLeft[removed := NIL];
    }

    method OutChild(p: Ptr, ghost kids: seq<Ptr>) returns (removed: Ptr)
      requires IsPcb(p)
      requires parent[p] != NIL ==> IsFamily(parent, child, sib, sibLeft, parent[p], kids) && p in kids
      modifies this`parent, this`child, this`sib, this`sibLeft
      ensures old(parent[p]) == NIL ==> removed == NIL && unchanged(this)
      ensures old(parent[p]) != NIL ==>
        && removed == p && sib[p] == sibLeft[p] == NIL
        && IsFamily(parent, child, sib, sibLeft, old(parent[p]), Without(kids, p))
        && parent == old(parent)[p := if kids[0] == p then old(parent[p]) else NIL]
        && child == old(child)[old(parent[p]) := child[old(parent[p])]]
        && SameOutside(old(sib), sib, kids) && SameOutside(old(sibLeft), sibLeft, kids)
    {
      if parent[p] == NIL {
        return NIL;
      }
      ghost var k :| 0 <= k < |kids| && kids[k] == p;
      WithoutAt(kids, k);
      if child[parent[p]] == p {
        removed := RemoveChild(parent[p], kids);
        return;
      }
      ChildUnlinked(parent, child, sib, sibLeft, parent[p], kids, k);
      sib := sib[sibLeft[p] := sib[p]];
      if sib[p] != NIL {
        sibLeft := sibLeft[sib[p] := sibLeft[p]];
      }
      sib := sib[p := NIL];
      sibLeft := sibLeft[p := NIL];
      parent := parent[p := NIL];
      return p;
    }
  }
}
