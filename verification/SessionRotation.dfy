/** Rotation over whole runs. A refresh checks its token, deletes it and saves the next one in three separate steps,
    and requests of other devices may come between any two of them. */
module SessionRotation {
  import opened Sessions

  /** Event `j` of a run saves a session without taking another from its user. */
  ghost predicate EvictsNobody(run: seq<Event>, ts: seq<Table>, j: nat)
    requires |ts| == |run| + 1 && j < |run| && run[j].op.Save?
  {
    Survive(ts[j], ts[j + 1], run[j].op.t.user, run[j].at)
  }

  /** In every run a save takes a session away if and only if its user has five active ones just then. */
  lemma SaveInRunEvictsIff(start: Time, run: seq<Event>, ts: seq<Table>, j: nat)
    requires Behaviour(start, run, ts) && j < |run| && run[j].op.Save?
    ensures EvictsNobody(run, ts, j) <==> |Active(ts[j], run[j].op.t.user, run[j].at)| < MAX_SESSIONS
  {
    RunKeepsInv(start, run, ts, j);
    assert Follows(start, run, ts, j);
    InvLater(ts[j], Issued(run, j), ClockAt(start, run, j), run[j].at);
    SaveEvictsNobodyIff(ts[j], Issued(run, j), run[j].op.t, run[j].at, run[j].op.createdAt, run[j].op.victim);
  }

  // ---------- how a user's sessions grow ----------

  predicate SavesFor(e: Event, u: UserId) {
    e.op.Save? && e.op.t.user == u
  }

  /** How many of the events from `i` up to `j` save a session of `u`. */
  function SaveCount(run: seq<Event>, u: UserId, i: nat, j: nat): nat
    requires i <= j <= |run|
    decreases j
  {
    if i == j then 0 else SaveCount(run, u, i, j - 1) + (if SavesFor(run[j - 1], u) then 1 else 0)
  }

  /** The event deletes nothing of `u`. */
  predicate Spares(e: Event, u: UserId) {
    match e.op
    case Save(_, _, _) => true
    case DropHash(h) => h.of.user != u
    case DropAllOf(v) => v != u
  }

  lemma ActiveLater(rows: Table, u: UserId, now: Time, later: Time)
    requires now <= later
    ensures |Active(rows, u, later)| <= |Active(rows, u, now)|
    ensures (forall r :: r in Active(rows, u, now) ==> r.expiresAt > later) ==>
              Active(rows, u, later) == Active(rows, u, now)
  {
    WhereWithin(rows, LiveFor(u, now), LiveFor(u, later));
    WhereIn(rows, LiveFor(u, now));
    WhereIn(Active(rows, u, now), LiveFor(u, later));
    if forall r :: r in Active(rows, u, now) ==> r.expiresAt > later {
      WhereAll(Active(rows, u, now), LiveFor(u, later));
    }
  }

  /** Somebody else's save does nothing to `u`. */
  lemma SaveLeavesOthers(rows: Table, t: Token, now: Time, createdAt: Time, victim: Row, u: UserId)
    requires Own(rows) && MayEvict(rows, t.user, now, victim) && u != t.user
    ensures Active(Saved(rows, t, now, createdAt, victim), u, now) == Active(rows, u, now)
  {
    var rows' := Saved(rows, t, now, createdAt, victim);
    SaveMovesQueue(rows, t, now, createdAt, victim);
    WhereWithin(rows', NotOf(t.user), LiveFor(u, now));
    WhereWithin(rows, NotOf(t.user), LiveFor(u, now));
  }

  lemma {:induction false} DeletionSpares(rows: Table, test: Row -> bool, u: UserId, now: Time)
    ensures |Active(Where(rows, test), u, now)| <= |Active(rows, u, now)|
    ensures (forall r :: r in rows && r.user == u ==> test(r)) ==>
              Active(Where(rows, test), u, now) == Active(rows, u, now)
  {
    WhereSwap(rows, test, LiveFor(u, now));
    WhereIn(Active(rows, u, now), test);
    WhereIn(rows, LiveFor(u, now));
    if forall r :: r in rows && r.user == u ==> test(r) {
      WhereAll(Active(rows, u, now), test);
    }
  }

  /** What one event makes of the sessions of `u`, at its own time. */
  lemma StepGrowth(rows: Table, issued: set<Token>, e: Event, u: UserId)
    requires Inv(rows, issued, e.at)
    requires e.op.Save? ==> MayEvict(rows, e.op.t.user, e.at, e.op.victim)
    ensures var q, q' := Active(rows, u, e.at), Active(Step(rows, e), u, e.at);
      && |q'| <= |q| + (if SavesFor(e, u) then 1 else 0)
      && (Spares(e, u) && !SavesFor(e, u) ==> q' == q)
      && (SavesFor(e, u) ==>
            && q' == Queued(q, e.op.victim, NewRow(e.op.t, e.at, e.op.createdAt))
            && |q'| == if |q| < MAX_SESSIONS then |q| + 1 else MAX_SESSIONS)
  {
    match e.op {
      case Save(t, createdAt, victim) =>
        if t.user == u {
          SaveMovesQueue(rows, t, e.at, createdAt, victim);
          WhereUnique(rows, LiveFor(u, e.at));
          assert |Active(rows, u, e.at)| <= MAX_SESSIONS;
          EvictionMakesRoom(Active(rows, u, e.at), victim);
        } else {
          SaveLeavesOthers(rows, t, e.at, createdAt, victim, u);
        }
      case DropHash(h) => DeletionSpares(rows, HashIsNot(h), u, e.at);
      case DropAllOf(v) => DeletionSpares(rows, NotOf(v), u, e.at);
    }
  }

  lemma InvAtEvent(start: Time, run: seq<Event>, ts: seq<Table>, k: nat)
    requires Behaviour(start, run, ts) && k < |run|
    ensures Inv(ts[k], Issued(run, k), run[k].at) && ClockAt(start, run, k) <= run[k].at
    ensures ts[k + 1] == Step(ts[k], run[k])
    ensures run[k].op.Save? ==> MayEvict(ts[k], run[k].op.t.user, run[k].at, run[k].op.victim)
  {
    RunKeepsInv(start, run, ts, k);
    assert Follows(start, run, ts, k);
    InvLater(ts[k], Issued(run, k), ClockAt(start, run, k), run[k].at);
  }

  lemma CappedAfter(start: Time, run: seq<Event>, ts: seq<Table>, u: UserId, i: nat)
    requires Behaviour(start, run, ts) && i < |run|
    ensures |Active(ts[i + 1], u, run[i].at)| <= MAX_SESSIONS
  {
    RunKeepsInv(start, run, ts, i + 1);
  }

  /** Whatever happens, a user has no more sessions than before and were saved since. */
  lemma {:induction false} GrowthBound(start: Time, run: seq<Event>, ts: seq<Table>, u: UserId, i: nat, j: nat)
    requires Behaviour(start, run, ts) && i < j <= |run|
    ensures |Active(ts[j], u, ClockAt(start, run, j))| <=
            |Active(ts[i + 1], u, run[i].at)| + SaveCount(run, u, i + 1, j)
    decreases j
  {
    hide Follows, Step, Queued, Active, Issued, Capped, Unique, Own;
    if i + 1 < j {
      GrowthBound(start, run, ts, u, i, j - 1);
      InvAtEvent(start, run, ts, j - 1);
      ActiveLater(ts[j - 1], u, ClockAt(start, run, j - 1), run[j - 1].at);
      StepGrowth(ts[j - 1], Issued(run, j - 1), run[j - 1], u);
    }
  }

  /** Between events `i` and `j` no session of `u` ends but by eviction: none is deleted, and none expires. */
  ghost predicate Undisturbed(run: seq<Event>, ts: seq<Table>, u: UserId, i: nat, j: nat)
    requires |ts| == |run| + 1 && i < j < |run|
  {
    && (forall k :: i < k < j ==> Spares(run[k], u))
    && (forall r :: r in Active(ts[i + 1], u, run[i].at) ==> r.expiresAt > run[j].at)
    && run[j].at < run[i].at + SEVEN_DAYS
  }

  ghost predicate AllOutlive(q: seq<Row>, end: Time) {
    forall r :: r in q ==> r.expiresAt > end
  }

  lemma QueuedOutlives(q: seq<Row>, victim: Row, r: Row, end: Time)
    requires AllOutlive(q, end) && r.expiresAt > end
    ensures AllOutlive(Queued(q, victim, r), end)
  {
    WhereIn(q, HashIsNot(victim.hash));
  }

  lemma {:induction false} TimesInOrder(start: Time, run: seq<Event>, ts: seq<Table>, i: nat, k: nat)
    requires Behaviour(start, run, ts) && i <= k < |run|
    ensures run[i].at <= run[k].at
  {
    if i < k {
      TimesInOrder(start, run, ts, i, k - 1);
      assert Follows(start, run, ts, k);
    }
  }

  function AtMostFive(n: nat): nat {
    if n < MAX_SESSIONS then n else MAX_SESSIONS
  }

  /** Undisturbed, a user has exactly the sessions from before and those saved since, up to five. */
  lemma {:induction false} ExactGrowth(start: Time, run: seq<Event>, ts: seq<Table>, u: UserId, i: nat, j: nat, k: nat)
    requires Behaviour(start, run, ts) && i < j < |run| && Undisturbed(run, ts, u, i, j) && i < k <= j
    ensures var q := Active(ts[k], u, run[k - 1].at);
      && AllOutlive(q, run[j].at)
      && |q| == AtMostFive(|Active(ts[i + 1], u, run[i].at)| + SaveCount(run, u, i + 1, k))
    decreases k
  {
    hide Follows, Step, Queued, Active, Issued, Capped, Unique, Own;
    InvAtEvent(start, run, ts, k - 1);
    if i + 1 < k {
      var e := run[k - 1];
      ExactGrowth(start, run, ts, u, i, j, k - 1);
      TimesInOrder(start, run, ts, i, k - 1);
      TimesInOrder(start, run, ts, k - 1, j);
      ActiveLater(ts[k - 1], u, run[k - 2].at, e.at);
      StepGrowth(ts[k - 1], Issued(run, k - 1), e, u);
      if SavesFor(e, u) {
        QueuedOutlives(Active(ts[k - 1], u, e.at), e.op.victim, NewRow(e.op.t, e.at, e.op.createdAt), run[j].at);
      }
    } else {
      CappedAfter(start, run, ts, u, i);
    }
  }

  // ---------- what a refresh takes from its user ----------

  /** The session of token `p` is active when event `i` happens. */
  ghost predicate HoldsSession(run: seq<Event>, ts: seq<Table>, p: Token, i: nat)
    requires |ts| == |run| + 1 && i < |run|
  {
    exists r :: r in Active(ts[i], p.user, run[i].at) && r.hash == Digest(p)
  }

  /** How many sessions a refresh leaves its user when it has deleted the token presented. */
  ghost function LeftAfterDrop(run: seq<Event>, ts: seq<Table>, p: Token, i: nat): int
    requires |ts| == |run| + 1 && i < |run|
  {
    |Active(ts[i], p.user, run[i].at)| - if HoldsSession(run, ts, p, i) then 1 else 0
  }

  lemma DropLeaves(start: Time, run: seq<Event>, ts: seq<Table>, p: Token, i: nat)
    requires Behaviour(start, run, ts) && i < |run| && run[i].op == DropHash(Digest(p))
    ensures |Active(ts[i + 1], p.user, run[i].at)| == LeftAfterDrop(run, ts, p, i)
  {
    InvAtEvent(start, run, ts, i);
    ActiveAfterDrop(ts[i], p.user, Digest(p), run[i].at);
  }

  /** A refresh in three steps, deletion at `i` and save at `j`, takes no other session from its user if few enough
      were left or saved in between, whatever else happened. */
  lemma {:induction false} RefreshKeepsOthersIf(start: Time, run: seq<Event>, ts: seq<Table>, p: Token, i: nat, j: nat)
    requires Behaviour(start, run, ts) && i < j < |run|
    requires run[i].op == DropHash(Digest(p)) && SavesFor(run[j], p.user)
    requires LeftAfterDrop(run, ts, p, i) + SaveCount(run, p.user, i + 1, j) < MAX_SESSIONS
    ensures EvictsNobody(run, ts, j)
  {
    DropLeaves(start, run, ts, p, i);
    GrowthBound(start, run, ts, p.user, i, j);
    InvAtEvent(start, run, ts, j);
    ActiveLater(ts[j], p.user, ClockAt(start, run, j), run[j].at);
    SaveInRunEvictsIff(start, run, ts, j);
  }

  /** And when no session of the user ended in between, it does so if and only if that is the case. */
  lemma {:induction false} RefreshKeepsOthersIff(start: Time, run: seq<Event>, ts: seq<Table>, p: Token, i: nat, j: nat)
    requires Behaviour(start, run, ts) && i < j < |run| && Undisturbed(run, ts, p.user, i, j)
    requires run[i].op == DropHash(Digest(p)) && SavesFor(run[j], p.user)
    ensures EvictsNobody(run, ts, j) <==>
            LeftAfterDrop(run, ts, p, i) + SaveCount(run, p.user, i + 1, j) < MAX_SESSIONS
  {
    DropLeaves(start, run, ts, p, i);
    ExactGrowth(start, run, ts, p.user, i, j, j);
    TimesInOrder(start, run, ts, j - 1, j);
    ActiveLater(ts[j], p.user, run[j - 1].at, run[j].at);
    SaveInRunEvictsIff(start, run, ts, j);
  }

  // ---------- single use ----------

  /** A refresh with token `p`: checked after `check` events, at time `checkedAt`; deleted by event `drop`; its
      successor saved by event `save`. */
  datatype Refresh = Refresh(check: nat, checkedAt: Time, drop: nat, save: nat)

  ghost predicate Rotates(start: Time, run: seq<Event>, ts: seq<Table>, p: Token, r: Refresh)
    requires |ts| == |run| + 1
  {
    && r.check <= r.drop < r.save < |run|
    && ClockAt(start, run, r.check) <= r.checkedAt <= run[r.drop].at
    && Verify(ts[r.check], p, r.checkedAt).Some?
    && run[r.drop].op == DropHash(Digest(p))
    && SavesFor(run[r.save], p.user)
  }

  lemma {:induction false} VerifiedIsIssued(start: Time, run: seq<Event>, ts: seq<Table>, p: Token, n: nat, now: Time)
    requires Behaviour(start, run, ts) && n <= |run| && Verify(ts[n], p, now).Some?
    ensures p in Issued(run, n)
  {
    RunKeepsInv(start, run, ts, n);
    VerifyFindsOwner(ts[n], p, now);
  }

  /** After a token has been deleted no check lets it in. */
  lemma {:induction false} NoCheckAfterDrop(start: Time, run: seq<Event>, ts: seq<Table>, p: Token, d: nat, n: nat,
                                            now: Time)
    requires Behaviour(start, run, ts) && d < n <= |run|
    requires run[d].op == DropHash(Digest(p)) && p in Issued(run, d)
    ensures Verify(ts[n], p, now).None?
  {
    RunKeepsInv(start, run, ts, d);
    assert Follows(start, run, ts, d);
    DroppedIsDead(ts[d], p, now);
    IssuedGrows(run, d, d + 1);
    DeadStaysDead(start, run, ts, d + 1, n, p, now, now);
  }

  /** Two requests have both checked the token before either has deleted it. */
  predicate Overlap(a: Refresh, b: Refresh) {
    a.check <= b.drop && b.check <= a.drop
  }

  /** Single use: a token is rotated twice only by requests that overlap. */
  lemma RotatedTwiceOverlaps(start: Time, run: seq<Event>, ts: seq<Table>, p: Token, a: Refresh, b: Refresh)
    requires Behaviour(start, run, ts) && Rotates(start, run, ts, p, a) && Rotates(start, run, ts, p, b)
    ensures Overlap(a, b)
  {
    VerifiedIsIssued(start, run, ts, p, a.check, a.checkedAt);
    VerifiedIsIssued(start, run, ts, p, b.check, b.checkedAt);
    IssuedGrows(run, a.check, a.drop);
    IssuedGrows(run, b.check, b.drop);
    if b.check > a.drop { NoCheckAfterDrop(start, run, ts, p, a.drop, b.check, b.checkedAt); }
    if a.check > b.drop { NoCheckAfterDrop(start, run, ts, p, b.drop, a.check, a.checkedAt); }
  }

  // ---------- examples ----------

  /** The session that user 0 gets at time `n`. */
  function Session(n: nat): Row {
    NewRow(Token(n, 0), n, n)
  }

  /** Saving into a table of nothing but the user's active sessions. */
  lemma SaveAmongLive(rows: Table, t: Token, now: Time, createdAt: Time, victim: Row)
    requires forall r :: r in rows ==> r.user == t.user && r.expiresAt > now
    ensures Active(rows, t.user, now) == rows
    ensures Saved(rows, t, now, createdAt, victim) ==
            (if |rows| >= MAX_SESSIONS then WithoutHash(rows, victim.hash) else rows) + [NewRow(t, now, createdAt)]
  {
    WhereAll(rows, LiveFor(t.user, now));
    WhereAll(rows, NotExpiredFor(t.user, now));
  }

  /** The sessions of user 0 when the n-th login is stamped `stamps[n]`. */
  function StampedSessions(stamps: seq<Time>): seq<Row> {
    seq(|stamps|, i requires 0 <= i < |stamps| => NewRow(Token(i, 0), i, stamps[i]))
  }

  function SessionsUpTo(n: nat): seq<Row> {
    seq(n, i requires 0 <= i < n => Session(i))
  }

  /** User 0 logs in, at times 0, 1 and so on, with the given stamps. */
  lemma {:induction false} StampedLogins(stamps: seq<Time>) returns (run: seq<Event>, ts: seq<Table>)
    requires |stamps| <= MAX_SESSIONS
    ensures var n := |stamps|;
      && Behaviour(0, run, ts) && |run| == n && |ts| == n + 1 && ts[n] == StampedSessions(stamps)
      && ClockAt(0, run, n) <= n && (forall t :: t in Issued(run, n) ==> t.jti < n)
      && forall i :: 0 <= i < n ==> run[i].op.Save? && run[i].op.createdAt == stamps[i]
  {
    hide Saved, Active;
    if stamps == [] {
      run, ts := [], [[]];
    } else {
      var n := |stamps| - 1;
      run, ts := StampedLogins(stamps[..n]);
      var e := Event(n, Save(Token(n, 0), stamps[n], Session(n)));
      SaveAmongLive(ts[n], e.op.t, e.at, stamps[n], e.op.victim);
      LongerRun(0, run, ts, e);
      run, ts := run + [e], ts + [Step(ts[n], e)];
      assert StampedSessions(stamps) == StampedSessions(stamps[..n]) + [NewRow(Token(n, 0), n, stamps[n])];
    }
  }

  /** The same with each login stamped with its time. */
  lemma Logins(n: nat) returns (run: seq<Event>, ts: seq<Table>)
    requires n <= MAX_SESSIONS
    ensures Behaviour(0, run, ts) && |run| == n && |ts| == n + 1 && ts[n] == SessionsUpTo(n)
    ensures ClockAt(0, run, n) <= n && forall t :: t in Issued(run, n) ==> t.jti < n
  {
    var stamps: seq<Time> := seq(n, i => i);
    run, ts := StampedLogins(stamps);
    assert StampedSessions(stamps) == SessionsUpTo(n);
  }

  lemma DropLast(n: nat)
    ensures WithoutHash(SessionsUpTo(n + 1), Digest(Token(n, 0))) == SessionsUpTo(n)
  {
    assert SessionsUpTo(n + 1) == SessionsUpTo(n) + [Session(n)];
    WhereConcat(SessionsUpTo(n), [Session(n)], HashIsNot(Digest(Token(n, 0))));
    WhereAll(SessionsUpTo(n), HashIsNot(Digest(Token(n, 0))));
  }

  lemma NewestVerifies(start: Time, run: seq<Event>, ts: seq<Table>, n: nat)
    requires Behaviour(start, run, ts) && |run| == n + 1 && ts[n + 1] == SessionsUpTo(n + 1)
    ensures Verify(ts[n + 1], Token(n, 0), n + 1).Some?
    ensures exists r :: r in Active(ts[n + 1], 0, n + 1) && r.hash == Digest(Token(n, 0))
  {
    RunKeepsInv(start, run, ts, n + 1);
    VerifyFindsOwner(ts[n + 1], Token(n, 0), n + 1);
    WhereIn(ts[n + 1], LiveFor(0, n + 1));
    assert SessionsUpTo(n + 1)[n] == Session(n);
    assert Session(n) in ts[n + 1];
  }

  /** Five logins, a refresh that has deleted the fifth session, and a sixth login. */
  lemma LoginAfterDrop() returns (run: seq<Event>, ts: seq<Table>)
    ensures Behaviour(0, run, ts) && |run| == 7 && |ts| == 8
    ensures Verify(ts[5], Token(4, 0), 5).Some? && HoldsSession(run, ts, Token(4, 0), 5) && ClockAt(0, run, 5) <= 5
    ensures run[5] == Event(5, DropHash(Digest(Token(4, 0)))) && run[6].at == 6
    ensures ts[7] == SessionsUpTo(4) + [NewRow(Token(5, 0), 6, 6)] && forall t :: t in Issued(run, 7) ==> t.jti < 6
  {
    hide Saved, Behaviour, Verify, Active;
    run, ts := Logins(5);
    NewestVerifies(0, run, ts, 4);
    var drop := Event(5, DropHash(Digest(Token(4, 0))));
    DropLast(4);
    LongerRun(0, run, ts, drop);
    run, ts := run + [drop], ts + [Step(ts[5], drop)];
    var login := Event(6, Save(Token(5, 0), 6, Session(0)));
    SaveAmongLive(ts[6], Token(5, 0), 6, 6, Session(0));
    LongerRun(0, run, ts, login);
    run, ts := run + [login], ts + [Step(ts[6], login)];
  }

  /** A refresh by a user with five sessions, the one presented among them, can evict another of them: it is enough
      that a login comes between its deletion and its save. */
  lemma RefreshCanEvict() returns (run: seq<Event>, ts: seq<Table>)
    ensures Behaviour(0, run, ts) && |run| == 8
    ensures Rotates(0, run, ts, Token(4, 0), Refresh(5, 5, 5, 7)) && HoldsSession(run, ts, Token(4, 0), 5)
    ensures !EvictsNobody(run, ts, 7)
  {
    hide Saved, EvictsNobody, Behaviour, Verify, Active;
    run, ts := LoginAfterDrop();
    var save := Event(7, Save(Token(6, 0), 7, Session(0)));
    SaveAmongLive(ts[7], Token(6, 0), 7, 7, Session(0));
    assert ts[7][0] == Session(0);
    LongerRun(0, run, ts, save);
    run, ts := run + [save], ts + [Step(ts[7], save)];
    SaveInRunEvictsIff(0, run, ts, 7);
  }

  /** One login, and two refreshes that have both checked its token and then both deleted it. */
  lemma DroppedTwice() returns (run: seq<Event>, ts: seq<Table>)
    ensures Behaviour(0, run, ts) && |run| == 3 && |ts| == 4 && ts[3] == []
    ensures Verify(ts[1], Token(0, 0), 1).Some? && ClockAt(0, run, 1) <= 1
    ensures forall t :: t in Issued(run, 3) ==> t.jti < 1
    ensures run[1] == Event(1, DropHash(Digest(Token(0, 0)))) && run[2] == Event(2, DropHash(Digest(Token(0, 0))))
  {
    hide Saved, Behaviour, Verify, Active;
    run, ts := Logins(1);
    NewestVerifies(0, run, ts, 0);
    DropLast(0);
    var drop := Event(1, DropHash(Digest(Token(0, 0))));
    LongerRun(0, run, ts, drop);
    run, ts := run + [drop], ts + [Step(ts[1], drop)];
    drop := drop.(at := 2);
    LongerRun(0, run, ts, drop);
    run, ts := run + [drop], ts + [Step(ts[2], drop)];
  }

  /** Two requests that overlap do rotate one token twice, and both successors let their user in. */
  lemma TwoSuccessors() returns (run: seq<Event>, ts: seq<Table>)
    ensures Behaviour(0, run, ts) && |run| == 5
    ensures Rotates(0, run, ts, Token(0, 0), Refresh(1, 1, 1, 3))
    ensures Rotates(0, run, ts, Token(0, 0), Refresh(1, 1, 2, 4))
    ensures run[3].op.Save? && Verify(ts[5], run[3].op.t, 4).Some?
    ensures run[4].op.Save? && Verify(ts[5], run[4].op.t, 4).Some?
  {
    hide Saved, Behaviour, Verify, Active;
    run, ts := DroppedTwice();
    var save := Event(3, Save(Token(1, 0), 3, Session(0)));
    SaveAmongLive([], Token(1, 0), 3, 3, Session(0));
    LongerRun(0, run, ts, save);
    run, ts := run + [save], ts + [Step([], save)];
    assert ts[4] == [NewRow(Token(1, 0), 3, 3)];
    save := Event(4, Save(Token(2, 0), 4, Session(0)));
    SaveAmongLive(ts[4], Token(2, 0), 4, 4, Session(0));
    LongerRun(0, run, ts, save);
    run, ts := run + [save], ts + [Step(ts[4], save)];
    assert ts[5] == [NewRow(Token(1, 0), 3, 3), NewRow(Token(2, 0), 4, 4)];
    assert NewRow(Token(1, 0), 3, 3) in ts[5] && NewRow(Token(2, 0), 4, 4) in ts[5];
    RunKeepsInv(0, run, ts, 5);
    VerifyFindsOwner(ts[5], Token(1, 0), 4);
    VerifyFindsOwner(ts[5], Token(2, 0), 4);
  }
}
