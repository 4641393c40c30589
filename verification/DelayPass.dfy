// What one round of the delay daemon does to the Active Delay List (phase5/delayDaemon.c:208-236),
// and when a wake time is what the caller asked for (phase5/delayDaemon.c:87).
module DelayPass {
  import opened Constants
  import opened Queues
  import opened DelayLists

  ghost predicate OnePerProcess(entries: seq<Entry>) {
    forall i, j :: 0 <= i < j < |entries| ==> entries[i].asid != entries[j].asid
  }

  // The scan gets to entry i: neither it nor an entry in front has the tail sentinel's time.
  ghost predicate Visible(entries: seq<Entry>, i: nat)
    requires i < |entries|
  {
    forall m :: 0 <= m <= i ==> entries[m].wake != DUMMYTAILVAL
  }

  lemma {:induction false} WokenAreListed(entries: seq<Entry>, clock: nat -> int, k: nat)
    ensures forall a :: a in Woken(entries, clock, k) ==> exists i :: 0 <= i < |entries| && entries[i].asid == a
    ensures forall e :: e in Survivors(entries, clock, k) ==> e in entries
    ensures |Survivors(entries, clock, k)| + |Woken(entries, clock, k)| == |entries|
    decreases |entries|
  {
    if entries != [] && entries[0].wake != DUMMYTAILVAL {
      WokenAreListed(entries[1..], clock, k + 1);
      assert entries == [entries[0]] + entries[1..];
      var later := Woken(entries[1..], clock, k + 1);
      forall a | a in later
        ensures exists i :: 0 <= i < |entries| && entries[i].asid == a
      {
        var i :| 0 <= i < |entries[1..]| && entries[1..][i].asid == a;
        assert entries[i + 1].asid == a;
      }
    }
  }

  // The process of entry i is woken exactly when the scan gets to the entry and the i-th reading of the
  // clock has reached its wake time, and exactly then the entry leaves the list.
  lemma {:induction false} PassExact(entries: seq<Entry>, clock: nat -> int, k: nat, i: nat)
    requires OnePerProcess(entries) && i < |entries|
    ensures Visible(entries, i) && clock(k + i) >= entries[i].wake <==> entries[i].asid in Woken(entries, clock, k)
    ensures Visible(entries, i) && clock(k + i) >= entries[i].wake <==> entries[i] !in Survivors(entries, clock, k)
    decreases |entries|
  {
    if entries[0].wake != DUMMYTAILVAL {
      var rest := entries[1..];
      WokenAreListed(rest, clock, k + 1);
      assert forall j :: 0 <= j < |rest| ==> rest[j] == entries[j + 1];
      if i > 0 {
        PassExact(rest, clock, k + 1, i - 1);
        VisibleBehind(entries, i);
        assert entries[0].asid != entries[i].asid;
      } else {
        assert entries[0].asid !in Woken(rest, clock, k + 1);
        assert forall j :: 0 <= j < |rest| ==> rest[j].asid != entries[0].asid;
      }
    }
  }

  lemma VisibleBehind(entries: seq<Entry>, i: nat)
    requires 0 < i < |entries| && entries[0].wake != DUMMYTAILVAL
    ensures Visible(entries[1..], i - 1) <==> Visible(entries, i)
  {
    var rest := entries[1..];
    assert forall m :: 0 < m <= i ==> entries[m] == rest[m - 1];
    assert forall m :: 0 <= m <= i - 1 ==> rest[m] == entries[m + 1];
  }

  lemma {:induction false} WokenOnce(entries: seq<Entry>, clock: nat -> int, k: nat)
    requires OnePerProcess(entries)
    ensures Distinct(Woken(entries, clock, k))
    decreases |entries|
  {
    if entries != [] && entries[0].wake != DUMMYTAILVAL {
      var rest := entries[1..];
      WokenOnce(rest, clock, k + 1);
      WokenAreListed(rest, clock, k + 1);
      assert forall j :: 0 <= j < |rest| ==> rest[j] == entries[j + 1];
      assert entries[0].asid !in Woken(rest, clock, k + 1);
    }
  }

  // The processes are woken in the order of the list.
  lemma {:induction false} WokenInOrder(entries: seq<Entry>, clock: nat -> int, k: nat, i: nat, j: nat)
    requires OnePerProcess(entries) && i < j < |entries|
    requires entries[i].asid in Woken(entries, clock, k) && entries[j].asid in Woken(entries, clock, k)
    ensures Precedes(Woken(entries, clock, k), entries[i].asid, entries[j].asid)
    decreases |entries|
  {
    hide Precedes, Woken, OnePerProcess;
    RestApart(entries, clock, k);
    if entries[0].wake != DUMMYTAILVAL {
      var rest, later := entries[1..], Woken(entries[1..], clock, k + 1);
      var first := if clock(k) >= entries[0].wake then [entries[0].asid] else [];
      assert Woken(entries, clock, k) == first + later && rest[j - 1] == entries[j] && entries[j].asid in later;
      if i == 0 {
        PrecedesAcross(first, later, entries[i].asid, entries[j].asid);
      } else {
        assert rest[i - 1] == entries[i] && entries[i].asid in later;
        WokenInOrder(rest, clock, k + 1, i - 1, j - 1);
        PrecedesWithin(first, later, [], entries[i].asid, entries[j].asid);
        assert first + later + [] == first + later;
      }
    }
  }

  lemma RestApart(entries: seq<Entry>, clock: nat -> int, k: nat)
    requires OnePerProcess(entries) && entries != []
    ensures OnePerProcess(entries[1..]) && entries[0].asid !in Woken(entries[1..], clock, k + 1)
    ensures forall n :: 0 < n < |entries| ==> entries[n].asid != entries[0].asid
    ensures
      Woken(entries, clock, k) ==
        if entries[0].wake == DUMMYTAILVAL then []
        else (if clock(k) >= entries[0].wake then [entries[0].asid] else []) + Woken(entries[1..], clock, k + 1)
  {
    WokenAreListed(entries[1..], clock, k + 1);
  }

  // The survivors are in the order they were in.
  lemma {:induction false} SurvivorsInOrder(entries: seq<Entry>, clock: nat -> int, k: nat)
    requires OnePerProcess(entries)
    ensures Survivors(entries, clock, k) == Avoiding(entries, Elements(entries) - Elements(Survivors(entries, clock, k)))
    decreases |entries|
  {
    var left := Survivors(entries, clock, k);
    if left == entries {
      assert Elements(entries) - Elements(left) == {};
      AvoidingNone(entries, {});
    } else {
      var rest, leftOfRest := entries[1..], Survivors(entries[1..], clock, k + 1);
      SurvivorsInOrder(rest, clock, k + 1);
      WokenAreListed(rest, clock, k + 1);
      assert forall j :: 0 <= j < |rest| ==> rest[j] == entries[j + 1];
      assert forall j :: 0 <= j < |rest| ==> rest[j].asid != entries[0].asid;
      forall e | e in rest
        ensures e in Elements(entries) - Elements(left) <==> e in Elements(rest) - Elements(leftOfRest)
      {
      }
      AvoidingSame(rest, Elements(entries) - Elements(left), Elements(rest) - Elements(leftOfRest));
    }
  }

  lemma {:induction false} AvoidingSame<T>(q: seq<T>, r: set<T>, s: set<T>)
    requires forall x :: x in q ==> (x in r <==> x in s)
    ensures Avoiding(q, r) == Avoiding(q, s)
  {
    if q != [] {
      AvoidingSame(q[1..], r, s);
    }
  }

  // With a clock that does not run backwards, a round wakes everybody it gets to who was due when it
  // started, and nobody whose time had not come when it ended.
  lemma PassWakesTheDue(entries: seq<Entry>, clock: nat -> int, i: nat)
    requires OnePerProcess(entries) && i < |entries|
    requires forall k, l :: k <= l ==> clock(k) <= clock(l)
    ensures Visible(entries, i) && entries[i].wake <= clock(0) ==>
      entries[i].asid in Woken(entries, clock, 0) && entries[i] !in Survivors(entries, clock, 0)
    ensures entries[i].wake > clock(|entries|) ==>
      entries[i].asid !in Woken(entries, clock, 0) && entries[i] in Survivors(entries, clock, 0)
  {
    PassExact(entries, clock, 0, i);
    assert clock(0) <= clock(i) <= clock(|entries|);
  }

  // ---------------------------------------------------------------------------- overflow

  // An inspection of the clock at t would wake the caller before the time that it asked for.
  predicate TooEarly(tod: int, secs: int, t: int) {
    tod <= t < tod + secs * MILLION && t >= WakeTime(tod, secs)
  }

  // There is such a time exactly when the sum does not fit into the word.
  lemma EarlyExactlyOnOverflow(tod: int, secs: int)
    requires 0 <= tod <= DUMMYTAILVAL && secs >= 0
    ensures (exists t :: TooEarly(tod, secs, t)) <==> tod + secs * MILLION > DUMMYTAILVAL
  {
    var asked, wake := tod + secs * MILLION, WakeTime(tod, secs);
    WrapsDown(asked);
    if asked > DUMMYTAILVAL {
      assert TooEarly(tod, secs, if wake <= tod then tod else wake);
    }
  }

  lemma WrapsDown(x: int)
    requires x >= 0
    ensures
      var w := (x + 0x8000_0000) % 0x1_0000_0000 - 0x8000_0000;
      if x <= DUMMYTAILVAL then w == x else w < x
  {
  }

  // A caller is woken in the end only if its wake time is not the tail sentinel's value.
  lemma {:induction false} NeverWoken(entries: seq<Entry>, clock: nat -> int, k: nat, i: nat)
    requires i < |entries| && entries[i].wake == DUMMYTAILVAL
    ensures Survivors(entries, clock, k) != [] && forall j :: i <= j < |entries| ==>
        entries[j] in Survivors(entries, clock, k)
    decreases |entries|
  {
    if i > 0 && entries[0].wake != DUMMYTAILVAL {
      NeverWoken(entries[1..], clock, k + 1, i - 1);
      forall j | i <= j < |entries|
        ensures entries[j] in Survivors(entries, clock, k)
      {
        assert entries[1..][j - 1] == entries[j];
      }
    }
  }

  // Time stamps go to the front of the list.
  lemma InsertedInFront(entries: seq<Entry>, tod: int, secs: int)
    requires 0 <= tod && 0 <= secs && tod + secs * MILLION <= DUMMYTAILVAL
    ensures WakeTime(tod, secs) == tod + secs * MILLION && Position(entries, WakeTime(tod, secs)) == 0
  {
    assert 0 <= secs * MILLION;
  }
}
