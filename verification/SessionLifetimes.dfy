/** How long a saved token lets its user in, told from the events alone. */
module SessionLifetimes {
  import opened Options
  import opened Sessions
  import opened SessionRotation

  /** Seven days, in microseconds. */
  function Expiry(savedAt: Time): Time {
    savedAt + 7 * 24 * 60 * 60 * 1_000_000
  }

  /** The row of a token saved at a time, with a stamp. */
  function RowFor(t: Token, savedAt: Time, stamp: Time): Row {
    Row(t.user, Digest(t), Expiry(savedAt), stamp)
  }

  /** What a save leaves: its own row, and of the others all but the expired ones of its user and, if the user had five
      active sessions, the one picked. */
  lemma SavedRows(rows: Table, t: Token, now: Time, createdAt: Time, victim: Row)
    ensures forall r :: r in Saved(rows, t, now, createdAt, victim) <==>
              || r == RowFor(t, now, createdAt)
              || (&& r in rows && !(r.user == t.user && r.expiresAt < now)
                  && !(|Active(rows, t.user, now)| >= 5 && r.hash == victim.hash))
  {
    hide Active;
    var kept := Where(rows, NotExpiredFor(t.user, now));
    WhereIn(rows, NotExpiredFor(t.user, now));
    WhereIn(kept, HashIsNot(victim.hash));
  }

  /** Event `j` takes the row of `t` away: a deletion of the token, of all its user's tokens, or its eviction by a save
      of its user when five sessions are active. */
  ghost predicate Removes(run: seq<Event>, ts: seq<Table>, t: Token, j: nat)
    requires |ts| == |run| + 1 && j < |run|
  {
    match run[j].op
    case DropHash(h) => h == Digest(t)
    case DropAllOf(u) => u == t.user
    case Save(s, _, victim) =>
      s.user == t.user && |Active(ts[j], t.user, run[j].at)| >= 5 && victim.hash == Digest(t)
  }

  ghost predicate RemovedBetween(run: seq<Event>, ts: seq<Table>, t: Token, i: nat, n: nat)
    requires |ts| == |run| + 1 && n <= |run|
  {
    exists j :: i < j < n && Removes(run, ts, t, j)
  }

  /** An event that does not take a row away leaves it, unless the row has expired. */
  lemma StepSpares(rows: Table, issued: set<Token>, run: seq<Event>, ts: seq<Table>, j: nat, r: Row)
    requires |ts| == |run| + 1 && j < |run| && rows == ts[j] && Inv(rows, issued, run[j].at)
    requires run[j].op.Save? ==> MayEvict(rows, run[j].op.t.user, run[j].at, run[j].op.victim)
    requires r in rows && !Removes(run, ts, r.hash.of, j)
    ensures r in Step(rows, run[j]) || r.expiresAt < run[j].at
  {
    var e := run[j];
    match e.op {
      case Save(t, createdAt, victim) =>
        SavedRows(rows, t, e.at, createdAt, victim);
        if t.user != r.user {
          WhereIn(rows, LiveFor(t.user, e.at));
          assert |Active(rows, t.user, e.at)| >= 5 ==> victim.hash.of.user == t.user;
        }
      case DropHash(h) => WhereIn(rows, HashIsNot(h));
      case DropAllOf(u) => WhereIn(rows, NotOf(u));
    }
  }

  lemma StepRemoves(rows: Table, issued: set<Token>, run: seq<Event>, ts: seq<Table>, j: nat, t: Token)
    requires |ts| == |run| + 1 && j < |run| && rows == ts[j] && Inv(rows, issued, run[j].at)
    requires Removes(run, ts, t, j) && t in issued && (run[j].op.Save? ==> run[j].op.t !in issued)
    ensures forall r :: r in Step(rows, run[j]) ==> r.hash != Digest(t)
  {
    var e := run[j];
    match e.op {
      case Save(s, createdAt, victim) => SavedRows(rows, s, e.at, createdAt, victim);
      case DropHash(h) => WhereIn(rows, HashIsNot(h));
      case DropAllOf(u) => WhereIn(rows, NotOf(u));
    }
  }

  lemma {:induction false} SavedIsThere(start: Time, run: seq<Event>, ts: seq<Table>, i: nat)
    requires Behaviour(start, run, ts) && i < |run| && run[i].op.Save?
    ensures RowFor(run[i].op.t, run[i].at, run[i].op.createdAt) in ts[i + 1] && run[i].op.t in Issued(run, i + 1)
    ensures ClockAt(start, run, i + 1) == run[i].at
  {
    assert Follows(start, run, ts, i);
    SavedRows(ts[i], run[i].op.t, run[i].at, run[i].op.createdAt, run[i].op.victim);
  }

  /** As long as no event takes it away, the row of a saved token stays until it has expired. */
  lemma {:induction false} RowStays(start: Time, run: seq<Event>, ts: seq<Table>, i: nat, n: nat)
    requires Behaviour(start, run, ts) && i < n <= |run| && run[i].op.Save?
    requires !RemovedBetween(run, ts, run[i].op.t, i, n)
    ensures var r := RowFor(run[i].op.t, run[i].at, run[i].op.createdAt);
      r in ts[n] || r.expiresAt < ClockAt(start, run, n)
    decreases n
  {
    hide Follows, Step, Removes, Inv, Issued;
    if n == i + 1 {
      SavedIsThere(start, run, ts, i);
    } else {
      assert !RemovedBetween(run, ts, run[i].op.t, i, n - 1);
      RowStays(start, run, ts, i, n - 1);
      InvAtEvent(start, run, ts, n - 1);
      var r := RowFor(run[i].op.t, run[i].at, run[i].op.createdAt);
      if r in ts[n - 1] { StepSpares(ts[n - 1], Issued(run, n - 1), run, ts, n - 1, r); }
    }
  }

  lemma {:induction false} RemovedIsGone(start: Time, run: seq<Event>, ts: seq<Table>, i: nat, n: nat)
    requires Behaviour(start, run, ts) && i < n <= |run| && run[i].op.Save?
    requires RemovedBetween(run, ts, run[i].op.t, i, n)
    ensures forall r :: r in ts[n] ==> r.hash != Digest(run[i].op.t)
  {
    hide Step, Removes, Inv, Issued;
    var t := run[i].op.t;
    var j :| i < j < n && Removes(run, ts, t, j);
    SavedIsThere(start, run, ts, i);
    IssuedGrows(run, i + 1, j);
    IssuedGrows(run, i + 1, j + 1);
    InvAtEvent(start, run, ts, j);
    assert Follows(start, run, ts, j);
    StepRemoves(ts[j], Issued(run, j), run, ts, j, t);
    NoReturn(start, run, ts, j + 1, n, t);
  }

  /** The rows of a saved token are no others than its own. */
  lemma {:induction false} OnlyItsRow(start: Time, run: seq<Event>, ts: seq<Table>, i: nat, n: nat)
    requires Behaviour(start, run, ts) && i < n <= |run| && run[i].op.Save?
    ensures forall r :: r in ts[n] && r.hash == Digest(run[i].op.t) ==>
              r == RowFor(run[i].op.t, run[i].at, run[i].op.createdAt)
  {
    hide Follows, Inv, Issued;
    SavedIsThere(start, run, ts, i);
    NoReturn(start, run, ts, i + 1, n, run[i].op.t);
    RunKeepsInv(start, run, ts, i + 1);
    UniqueRow(ts[i + 1], Issued(run, i + 1), ClockAt(start, run, i + 1),
              RowFor(run[i].op.t, run[i].at, run[i].op.createdAt));
  }

  lemma UniqueRow(rows: Table, issued: set<Token>, clock: Time, r: Row)
    requires Inv(rows, issued, clock) && r in rows
    ensures forall x :: x in rows && x.hash == r.hash ==> x == r
  {
    forall x | x in rows && x.hash == r.hash ensures x == r {
      var i :| 0 <= i < |rows| && rows[i] == r;
      var j :| 0 <= j < |rows| && rows[j] == x;
    }
  }

  /** A token lets its user in for exactly seven days from its save, unless it is deleted, deleted with its user's
      others, or evicted before. */
  lemma {:induction false} LivesSevenDays(start: Time, run: seq<Event>, ts: seq<Table>, i: nat, n: nat, now: Time)
    requires Behaviour(start, run, ts) && i < n <= |run| && run[i].op.Save? && ClockAt(start, run, n) <= now
    ensures Verify(ts[n], run[i].op.t, now) ==
            if !RemovedBetween(run, ts, run[i].op.t, i, n) && now < run[i].at + 7 * 24 * 60 * 60 * 1_000_000
            then Some(run[i].op.t.user) else None
  {
    hide Follows, Verify, RemovedBetween, Inv;
    RunKeepsInv(start, run, ts, n);
    InvIsOwn(ts[n], Issued(run, n), ClockAt(start, run, n));
    VerifyFindsOwner(ts[n], run[i].op.t, now);
    OnlyItsRow(start, run, ts, i, n);
    if RemovedBetween(run, ts, run[i].op.t, i, n) {
      RemovedIsGone(start, run, ts, i, n);
    } else {
      RowStays(start, run, ts, i, n);
    }
  }

  lemma InvIsOwn(rows: Table, issued: set<Token>, clock: Time)
    requires Inv(rows, issued, clock)
    ensures Own(rows)
  {
  }

  /** And a token that was never saved lets nobody in. */
  lemma {:induction false} UnsavedNeverVerifies(start: Time, run: seq<Event>, ts: seq<Table>, n: nat, t: Token,
                                                now: Time)
    requires Behaviour(start, run, ts) && n <= |run|
    requires forall i :: 0 <= i < n && run[i].op.Save? ==> run[i].op.t != t
    ensures Verify(ts[n], t, now) == None
  {
    if Verify(ts[n], t, now).Some? {
      VerifiedIsIssued(start, run, ts, t, n, now);
      IssuedWasSaved(run, n, t);
    }
  }

  lemma {:induction false} IssuedWasSaved(run: seq<Event>, n: nat, t: Token)
    requires n <= |run| && t in Issued(run, n)
    ensures exists i :: 0 <= i < n && run[i].op.Save? && run[i].op.t == t
  {
    if !(run[n - 1].op.Save? && run[n - 1].op.t == t) { IssuedWasSaved(run, n - 1, t); }
  }

  /** In every reachable table a user has at most five active sessions, and five are possible. */
  lemma {:induction false} FiveSessions(start: Time, run: seq<Event>, ts: seq<Table>, n: nat, u: UserId)
    returns (full: seq<Event>, tables: seq<Table>)
    requires Behaviour(start, run, ts) && n <= |run|
    ensures |Active(ts[n], u, ClockAt(start, run, n))| <= 5
    ensures Behaviour(0, full, tables) && |full| == 5 && |Active(tables[5], 0, 5)| == 5
  {
    RunKeepsInv(start, run, ts, n);
    full, tables := Logins(5);
    WhereAll(tables[5], LiveFor(0, 5));
  }
}
