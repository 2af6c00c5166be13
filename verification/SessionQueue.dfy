/** Who is evicted: when the sessions of a user are a first-in first-out queue, and when they are not. */
module SessionQueue {
  import opened Sessions
  import opened SessionRotation

  // ---------- the exact condition ----------

  /** The session that has been in the queue longest has an earlier stamp than all others. */
  ghost predicate HeadIsOldest(q: seq<Row>) {
    forall i {:trigger q[i]} :: 0 < i < |q| ==> q[0].createdAt < q[i].createdAt
  }

  lemma WithoutHead(q: seq<Row>)
    requires q != [] && Unique(q)
    ensures WithoutHash(q, q[0].hash) == q[1..]
  {
    forall r | r in q[1..] ensures r.hash != q[0].hash {
      var j :| 0 <= j < |q[1..]| && q[1..][j] == r;
      assert q[j + 1] == r;
    }
    WhereAll(q[1..], HashIsNot(q[0].hash));
  }

  /** Dropping a row leaves all but the head if and only if the row is the head. */
  lemma DropsHeadIff(q: seq<Row>, victim: Row)
    requires q != [] && Unique(q) && victim in q
    ensures WithoutHash(q, victim.hash) == q[1..] <==> victim == q[0]
  {
    WithoutHead(q);
    if victim != q[0] {
      WhereIn(q, HashIsNot(victim.hash));
      var i :| 0 <= i < |q| && q[i] == victim;
      assert victim == q[1..][i - 1] && victim in q[1..];
    }
  }

  /** Only the head can be evicted if and only if its stamp is earlier than all others. */
  lemma OnlyHeadIff(q: seq<Row>)
    requires q != [] && Unique(q)
    ensures (forall v :: IsOldest(q, v) ==> v == q[0]) <==> HeadIsOldest(q)
  {
    if HeadIsOldest(q) {
      forall v | IsOldest(q, v) ensures v == q[0] {
        var i :| 0 <= i < |q| && q[i] == v;
        assert v.createdAt <= q[0].createdAt;
      }
    } else {
      var i :| 0 < i < |q| && q[i].createdAt <= q[0].createdAt;
      var v := OldestOf(q[1..]);
      assert q[1..][i - 1] == q[i];
      forall j | 0 <= j < |q| ensures v.createdAt <= q[j].createdAt {
        if j > 0 { assert q[j] == q[1..][j - 1]; }
      }
      assert IsOldest(q, v);
      var k :| 0 <= k < |q[1..]| && q[1..][k] == v;
      assert q[k + 1] == v;
    }
  }

  lemma {:induction false} OldestOf(q: seq<Row>) returns (r: Row)
    requires q != []
    ensures IsOldest(q, r)
  {
    if |q| == 1 {
      r := q[0];
    } else {
      var s := OldestOf(q[1..]);
      r := if q[0].createdAt <= s.createdAt then q[0] else s;
      forall i | 0 <= i < |q| ensures r.createdAt <= q[i].createdAt {
        if i > 0 { assert q[i] == q[1..][i - 1]; }
      }
    }
  }

  /** Whatever row the database picks, the save drops the head of a full queue and appends its own session. */
  ghost predicate SavesFifo(rows: Table, t: Token, now: Time, createdAt: Time) {
    forall victim {:trigger MayEvict(rows, t.user, now, victim)} :: MayEvict(rows, t.user, now, victim) ==>
      var q := Active(rows, t.user, now);
      Active(Saved(rows, t, now, createdAt, victim), t.user, now) ==
      (if |q| >= MAX_SESSIONS then q[1..] else q) + [NewRow(t, now, createdAt)]
  }

  lemma SavedQueue(rows: Table, t: Token, now: Time, createdAt: Time, victim: Row)
    requires Own(rows) && Unique(rows) && MayEvict(rows, t.user, now, victim)
    ensures var q := Active(rows, t.user, now);
      Active(Saved(rows, t, now, createdAt, victim), t.user, now) ==
      (if |q| >= MAX_SESSIONS then q[1..] else q) + [NewRow(t, now, createdAt)] <==>
      |q| < MAX_SESSIONS || victim == q[0]
  {
    var q, r := Active(rows, t.user, now), NewRow(t, now, createdAt);
    SaveMovesQueue(rows, t, now, createdAt, victim);
    WhereUnique(rows, LiveFor(t.user, now));
    if |q| >= MAX_SESSIONS {
      DropsHeadIff(q, victim);
      assert (WithoutHash(q, victim.hash) + [r])[..|WithoutHash(q, victim.hash)|] == WithoutHash(q, victim.hash);
      assert (q[1..] + [r])[..|q[1..]|] == q[1..];
    }
  }

  /** First in, first out, exactly: a save into a full queue can only drop the longest-standing session if and only if
      that session has an earlier stamp than all the others. */
  lemma SavesFifoIff(rows: Table, t: Token, now: Time, createdAt: Time)
    requires Own(rows) && Unique(rows)
    ensures SavesFifo(rows, t, now, createdAt) <==>
            |Active(rows, t.user, now)| < MAX_SESSIONS || HeadIsOldest(Active(rows, t.user, now))
  {
    hide Active, Saved, HeadIsOldest, Own;
    var q := Active(rows, t.user, now);
    forall victim | MayEvict(rows, t.user, now, victim)
      ensures Active(Saved(rows, t, now, createdAt, victim), t.user, now) ==
              (if |q| >= MAX_SESSIONS then q[1..] else q) + [NewRow(t, now, createdAt)] <==>
              |q| < MAX_SESSIONS || victim == q[0]
    {
      SavedQueue(rows, t, now, createdAt, victim);
    }
    assert Unique(q) by { WhereUnique(rows, LiveFor(t.user, now)); ActiveIs(rows, t.user, now); }
    if |q| >= MAX_SESSIONS {
      OnlyHeadIff(q);
      if !HeadIsOldest(q) {
        var v :| IsOldest(q, v) && v != q[0];
        assert MayEvict(rows, t.user, now, v);
      }
    }
  }

  lemma {:induction false} ActiveIs(rows: Table, u: UserId, now: Time)
    ensures Active(rows, u, now) == Where(rows, LiveFor(u, now))
  {
  }

  /** The same for every save of every run. */
  lemma SaveInRunFifoIff(start: Time, run: seq<Event>, ts: seq<Table>, i: nat)
    requires Behaviour(start, run, ts) && i < |run| && run[i].op.Save?
    ensures var t, q := run[i].op.t, Active(ts[i], run[i].op.t.user, run[i].at);
      && (SavesFifo(ts[i], t, run[i].at, run[i].op.createdAt) <==> |q| < MAX_SESSIONS || HeadIsOldest(q))
      && (Active(ts[i + 1], t.user, run[i].at) ==
            (if |q| >= MAX_SESSIONS then q[1..] else q) + [NewRow(t, run[i].at, run[i].op.createdAt)] <==>
            |q| < MAX_SESSIONS || run[i].op.victim == q[0])
      && Others(ts[i + 1], t.user) == Others(ts[i], t.user)
  {
    hide SavesFifo, HeadIsOldest, Active, Saved;
    var e := run[i];
    RunKeepsInv(start, run, ts, i);
    assert Follows(start, run, ts, i);
    SavesFifoIff(ts[i], e.op.t, e.at, e.op.createdAt);
    SavedQueue(ts[i], e.op.t, e.at, e.op.createdAt, e.op.victim);
    SaveMovesQueue(ts[i], e.op.t, e.at, e.op.createdAt, e.op.victim);
  }

  // ---------- saves stamped one after another ----------

  ghost predicate StampedInOrder(rows: Table) {
    forall i, j :: 0 <= i < j < |rows| ==> rows[i].createdAt < rows[j].createdAt
  }

  lemma {:induction false} WhereInOrder(rows: Table, test: Row -> bool)
    requires StampedInOrder(rows)
    ensures StampedInOrder(Where(rows, test))
  {
    if rows != [] {
      WhereInOrder(rows[1..], test);
      WhereIn(rows[1..], test);
      var rest := Where(rows[1..], test);
      forall i | 0 <= i < |rest| ensures rows[0].createdAt < rest[i].createdAt {
        assert rest[i] in rows[1..];
      }
    }
  }

  lemma OrderedHeadIsOldest(rows: Table, u: UserId, now: Time)
    requires StampedInOrder(rows)
    ensures HeadIsOldest(Active(rows, u, now))
  {
    WhereInOrder(rows, LiveFor(u, now));
  }

  lemma StampedConcat(rows: Table, r: Row)
    requires StampedInOrder(rows) && forall x :: x in rows ==> x.createdAt < r.createdAt
    ensures StampedInOrder(rows + [r])
  {
    forall i, j | 0 <= i < j < |rows| + 1 ensures (rows + [r])[i].createdAt < (rows + [r])[j].createdAt {
      assert (rows + [r])[i] == rows[i] && rows[i] in rows;
    }
  }

  lemma SavedInOrder(rows: Table, t: Token, now: Time, createdAt: Time, victim: Row)
    requires StampedInOrder(rows) && forall r :: r in rows ==> r.createdAt < createdAt
    ensures StampedInOrder(Saved(rows, t, now, createdAt, victim))
  {
    var kept := Where(rows, NotExpiredFor(t.user, now));
    WhereInOrder(rows, NotExpiredFor(t.user, now));
    WhereIn(rows, NotExpiredFor(t.user, now));
    WhereInOrder(kept, HashIsNot(victim.hash));
    WhereIn(kept, HashIsNot(victim.hash));
    StampedConcat(kept, NewRow(t, now, createdAt));
    StampedConcat(WithoutHash(kept, victim.hash), NewRow(t, now, createdAt));
  }

  /** When rows are stamped in the order they were added, the session evicted has been in the queue longest. */
  lemma FirstInFirstOut(rows: Table, t: Token, now: Time, createdAt: Time, victim: Row)
    requires Own(rows) && Unique(rows) && StampedInOrder(rows) && MayEvict(rows, t.user, now, victim)
    ensures var q := Active(rows, t.user, now);
      Active(Saved(rows, t, now, createdAt, victim), t.user, now) ==
      (if |q| >= MAX_SESSIONS then q[1..] else q) + [NewRow(t, now, createdAt)]
  {
    OrderedHeadIsOldest(rows, t.user, now);
    SavesFifoIff(rows, t, now, createdAt);
  }

  /** Each save is stamped later than the ones before it. */
  ghost predicate StampsIncrease(run: seq<Event>) {
    forall i, j :: 0 <= i < j < |run| && run[i].op.Save? && run[j].op.Save? ==>
      run[i].op.createdAt < run[j].op.createdAt
  }

  ghost predicate StampedBy(run: seq<Event>, n: nat, stamp: Time)
    requires n <= |run|
  {
    exists k :: 0 <= k < n && run[k].op.Save? && run[k].op.createdAt == stamp
  }

  lemma {:induction false} StampsStayInOrder(start: Time, run: seq<Event>, ts: seq<Table>, n: nat)
    requires Behaviour(start, run, ts) && StampsIncrease(run) && n <= |run|
    ensures StampedInOrder(ts[n])
    ensures forall r :: r in ts[n] ==> StampedBy(run, n, r.createdAt)
  {
    if n > 0 {
      StampsStayInOrder(start, run, ts, n - 1);
      RunKeepsInv(start, run, ts, n - 1);
      assert Follows(start, run, ts, n - 1);
      var rows, e := ts[n - 1], run[n - 1];
      forall r | r in rows ensures StampedBy(run, n, r.createdAt) {
        var k :| 0 <= k < n - 1 && run[k].op.Save? && run[k].op.createdAt == r.createdAt;
        assert run[k].op.Save?;
      }
      match e.op {
        case Save(t, createdAt, victim) =>
          assert StampedBy(run, n, createdAt);
          forall r | r in rows ensures r.createdAt < createdAt {
            assert StampedBy(run, n - 1, r.createdAt);
          }
          SavedInOrder(rows, t, e.at, createdAt, victim);
          WhereIn(rows, NotExpiredFor(t.user, e.at));
          WhereIn(Where(rows, NotExpiredFor(t.user, e.at)), HashIsNot(victim.hash));
        case DropHash(h) =>
          WhereInOrder(rows, HashIsNot(h));
          WhereIn(rows, HashIsNot(h));
        case DropAllOf(u) =>
          WhereInOrder(rows, NotOf(u));
          WhereIn(rows, NotOf(u));
      }
    }
  }

  /** The table is, for each user, a first-in first-out queue of five: in every run whose saves are stamped one after
      another, a save drops the longest-standing active session if there are five, and appends its own. */
  lemma SavesAreFifo(start: Time, run: seq<Event>, ts: seq<Table>, i: nat)
    requires Behaviour(start, run, ts) && StampsIncrease(run) && i < |run| && run[i].op.Save?
    ensures var t := run[i].op.t;
      var q := Active(ts[i], t.user, run[i].at);
      && Active(ts[i + 1], t.user, run[i].at) ==
         (if |q| >= MAX_SESSIONS then q[1..] else q) + [NewRow(t, run[i].at, run[i].op.createdAt)]
      && Others(ts[i + 1], t.user) == Others(ts[i], t.user)
  {
    hide HeadIsOldest, Active, Saved;
    StampsStayInOrder(start, run, ts, i);
    OrderedHeadIsOldest(ts[i], run[i].op.t.user, run[i].at);
    SaveInRunFifoIff(start, run, ts, i);
    assert Follows(start, run, ts, i);
  }

  // ---------- examples ----------

  /** Five logins, the second stamped no later than any other, and a sixth that evicts the second, not the first. */
  lemma SecondCanGo(stamps: seq<Time>, last: Time) returns (run: seq<Event>, ts: seq<Table>)
    requires |stamps| == MAX_SESSIONS && forall i :: 0 <= i < |stamps| ==> stamps[1] <= stamps[i]
    ensures Behaviour(0, run, ts) && |run| == 6
    ensures forall i :: 0 <= i < 6 ==> run[i].op.Save? && run[i].op.createdAt == (stamps + [last])[i]
    ensures run[5].op.t.user == 0 && Active(ts[5], 0, run[5].at) == StampedSessions(stamps)
    ensures run[5].op.victim == StampedSessions(stamps)[1] && !SavesFifo(ts[5], run[5].op.t, run[5].at, last)
  {
    hide Saved, Behaviour, Active, HeadIsOldest, SavesFifo;
    run, ts := StampedLogins(stamps);
    var q := StampedSessions(stamps);
    var e := Event(5, Save(Token(5, 0), last, q[1]));
    SaveAmongLive(q, Token(5, 0), 5, last, q[1]);
    LongerRun(0, run, ts, e);
    run, ts := run + [e], ts + [Step(ts[5], e)];
    SaveInRunFifoIff(0, run, ts, 5);
    assert q[1].createdAt <= q[0].createdAt;
    NotOldest(q, 1);
  }

  lemma NotOldest(q: seq<Row>, i: nat)
    requires 0 < i < |q| && q[i].createdAt <= q[0].createdAt
    ensures !HeadIsOldest(q)
  {
  }

  /** With six different stamps the longest-standing session can stay and a later one go: a stamp is the time at which
      the transaction of the login began, and a login that began first may save later. */
  lemma LaterSessionCanGo() returns (run: seq<Event>, ts: seq<Table>)
    ensures Behaviour(0, run, ts) && |run| == 6 && forall i :: 0 <= i < 6 ==> run[i].op.Save?
    ensures forall i, j :: 0 <= i < j < 6 ==> run[i].op.createdAt != run[j].op.createdAt
    ensures |Active(ts[5], 0, run[5].at)| == MAX_SESSIONS && run[5].op.victim == Active(ts[5], 0, run[5].at)[1]
    ensures !SavesFifo(ts[5], run[5].op.t, run[5].at, run[5].op.createdAt)
  {
    hide SavesFifo, Behaviour, Active;
    run, ts := SecondCanGo([5, 1, 2, 3, 4], 6);
  }

  /** And so it is when all stamps are the same. */
  lemma EqualStampsCanGo() returns (run: seq<Event>, ts: seq<Table>)
    ensures Behaviour(0, run, ts) && |run| == 6
    ensures forall i :: 0 <= i < 6 ==> run[i].op.Save? && run[i].op.createdAt == 0
    ensures |Active(ts[5], 0, run[5].at)| == MAX_SESSIONS && run[5].op.victim == Active(ts[5], 0, run[5].at)[1]
    ensures !SavesFifo(ts[5], run[5].op.t, run[5].at, run[5].op.createdAt)
  {
    hide SavesFifo, Behaviour, Active;
    run, ts := SecondCanGo([0, 0, 0, 0, 0], 0);
  }
}
