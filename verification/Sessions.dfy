/** Refresh-token sessions: a table of rows that acts, for each user, as a first-in first-out queue of five. */
module Sessions {
  import opened Options

  type UserId = nat
  type Time = int

  /** The signed content of a refresh token; `jti` makes each token unlike every other. */
  datatype Token = Token(jti: nat, user: UserId)

  /** What is stored in a token's place. Different tokens have different digests. */
  datatype Digest = Digest(of: Token)

  datatype Row = Row(user: UserId, hash: Digest, expiresAt: Time, createdAt: Time)

  /** The rows in the order they were added. */
  type Table = seq<Row>

  const MAX_SESSIONS := 5
  const SEVEN_DAYS: Time := 7 * 24 * 60 * 60 * 1_000_000

  // ---------- selecting rows ----------

  function Where(rows: Table, test: Row -> bool): Table {
    if rows == [] then [] else (if test(rows[0]) then [rows[0]] else []) + Where(rows[1..], test)
  }

  function LiveFor(u: UserId, now: Time): Row -> bool {
    (r: Row) => r.user == u && r.expiresAt > now
  }

  function NotOf(u: UserId): Row -> bool {
    (r: Row) => r.user != u
  }

  function NotExpiredFor(u: UserId, now: Time): Row -> bool {
    (r: Row) => !(r.user == u && r.expiresAt < now)
  }

  function HashIsNot(h: Digest): Row -> bool {
    (r: Row) => r.hash != h
  }

  function LetsIn(t: Token, now: Time): Row -> bool {
    (r: Row) => r.hash == Digest(t) && r.expiresAt > now
  }

  lemma {:induction false} WhereConcat(a: Table, b: Table, test: Row -> bool)
    ensures Where(a + b, test) == Where(a, test) + Where(b, test)
  {
    if a == [] {
      assert a + b == b;
    } else {
      var rest := a[1..] + b;
      assert (a + b)[0] == a[0] && (a + b)[1..] == rest;
      WhereConcat(a[1..], b, test);
      assert Where(rest, test) == Where(a[1..], test) + Where(b, test);
    }
  }

  lemma {:induction false} WhereIn(rows: Table, test: Row -> bool)
    ensures forall r :: r in Where(rows, test) <==> r in rows && test(r)
    ensures |Where(rows, test)| <= |rows|
  {
    if rows != [] {
      WhereIn(rows[1..], test);
      assert rows == [rows[0]] + rows[1..];
    }
  }

  /** Selecting twice is selecting once by the stricter test. */
  lemma {:induction false} WhereWithin(rows: Table, wide: Row -> bool, narrow: Row -> bool)
    requires forall r :: r in rows && narrow(r) ==> wide(r)
    ensures Where(Where(rows, wide), narrow) == Where(rows, narrow)
  {
    if rows != [] {
      assert forall r :: r in rows[1..] ==> r in rows;
      WhereWithin(rows[1..], wide, narrow);
      WhereConcat(if wide(rows[0]) then [rows[0]] else [], Where(rows[1..], wide), narrow);
    }
  }

  lemma {:induction false} WhereSwap(rows: Table, p: Row -> bool, q: Row -> bool)
    ensures Where(Where(rows, p), q) == Where(Where(rows, q), p)
  {
    if rows != [] {
      WhereSwap(rows[1..], p, q);
      WhereConcat(if p(rows[0]) then [rows[0]] else [], Where(rows[1..], p), q);
      WhereConcat(if q(rows[0]) then [rows[0]] else [], Where(rows[1..], q), p);
    }
  }

  lemma {:induction false} WhereAll(rows: Table, test: Row -> bool)
    requires forall r :: r in rows ==> test(r)
    ensures Where(rows, test) == rows
  {
    if rows != [] { WhereAll(rows[1..], test); }
  }

  lemma {:induction false} WhereNone(rows: Table, test: Row -> bool)
    requires forall r :: r in rows ==> !test(r)
    ensures Where(rows, test) == []
  {
    if rows != [] { WhereNone(rows[1..], test); }
  }

  ghost predicate Unique(rows: Table) {
    forall i, j :: 0 <= i < j < |rows| ==> rows[i].hash != rows[j].hash
  }

  lemma UniqueConcat(a: Table, b: Table)
    requires Unique(a) && Unique(b) && forall x, y :: x in a && y in b ==> x.hash != y.hash
    ensures Unique(a + b)
  {
    forall i, j | 0 <= i < j < |a + b| ensures (a + b)[i].hash != (a + b)[j].hash {
      if i < |a| <= j { assert a[i] in a && b[j - |a|] in b; }
    }
  }

  lemma {:induction false} WhereUnique(rows: Table, test: Row -> bool)
    requires Unique(rows)
    ensures Unique(Where(rows, test))
  {
    if rows != [] {
      WhereUnique(rows[1..], test);
      WhereIn(rows[1..], test);
      UniqueConcat(if test(rows[0]) then [rows[0]] else [], Where(rows[1..], test));
    }
  }

  // ---------- what the table means ----------

  /** A user's sessions at a time, oldest first. */
  function Active(rows: Table, u: UserId, now: Time): seq<Row> {
    Where(rows, LiveFor(u, now))
  }

  /** The rows of everybody but `u`. */
  function Others(rows: Table, u: UserId): Table {
    Where(rows, NotOf(u))
  }

  /** Whom a token lets in, if anybody. */
  function Verify(rows: Table, t: Token, now: Time): Option<UserId> {
    var hits := Where(rows, LetsIn(t, now));
    if hits == [] then None else Some(hits[0].user)
  }

  // ---------- the repository's statements ----------

  function WithoutHash(rows: Table, h: Digest): Table {
    Where(rows, HashIsNot(h))
  }

  /** A session that "order by created_at, first one" may come up with: among equal stamps the database chooses. */
  predicate IsOldest(active: seq<Row>, r: Row) {
    r in active && forall i :: 0 <= i < |active| ==> r.createdAt <= active[i].createdAt
  }

  ghost predicate MayEvict(rows: Table, u: UserId, now: Time, victim: Row) {
    |Active(rows, u, now)| >= MAX_SESSIONS ==> IsOldest(Active(rows, u, now), victim)
  }

  function NewRow(t: Token, now: Time, createdAt: Time): Row {
    Row(t.user, Digest(t), now + SEVEN_DAYS, createdAt)
  }

  /** Purge the user's expired rows, evict `victim` if the user has five sessions, add the new one. */
  function Saved(rows: Table, t: Token, now: Time, createdAt: Time, victim: Row): Table {
    var kept := Where(rows, NotExpiredFor(t.user, now));
    (if |Active(rows, t.user, now)| >= MAX_SESSIONS then WithoutHash(kept, victim.hash) else kept) +
    [NewRow(t, now, createdAt)]
  }

  /** What a login does to a user's queue of sessions: the victim leaves a full queue, the new session joins. */
  function Queued(q: seq<Row>, victim: Row, r: Row): seq<Row> {
    (if |q| >= MAX_SESSIONS then WithoutHash(q, victim.hash) else q) + [r]
  }

  // ---------- what is kept ----------

  ghost predicate Own(rows: Table) {
    forall r :: r in rows ==> r.hash.of.user == r.user
  }

  ghost predicate Capped(rows: Table, now: Time) {
    forall u: UserId :: |Active(rows, u, now)| <= MAX_SESSIONS
  }

  ghost predicate Inv(rows: Table, issued: set<Token>, clock: Time) {
    && Unique(rows) && Own(rows) && Capped(rows, clock)
    && forall r :: r in rows ==> r.hash.of in issued
  }

  /** The rows a login keeps, for the user and for the others. */
  lemma {:induction false} PurgeFacts(rows: Table, u: UserId, now: Time)
    ensures var kept := Where(rows, NotExpiredFor(u, now));
      && Active(kept, u, now) == Active(rows, u, now)
      && Others(kept, u) == Others(rows, u)
  {
    WhereWithin(rows, NotExpiredFor(u, now), LiveFor(u, now));
    WhereWithin(rows, NotExpiredFor(u, now), NotOf(u));
  }

  /** A login is one move of the user's bounded queue, and touches no row of anybody else. */
  lemma SaveMovesQueue(rows: Table, t: Token, now: Time, createdAt: Time, victim: Row)
    requires Own(rows) && MayEvict(rows, t.user, now, victim)
    ensures var rows' := Saved(rows, t, now, createdAt, victim);
      && Active(rows', t.user, now) == Queued(Active(rows, t.user, now), victim, NewRow(t, now, createdAt))
      && Others(rows', t.user) == Others(rows, t.user)
  {
    var u := t.user;
    var kept := Where(rows, NotExpiredFor(u, now));
    var r := NewRow(t, now, createdAt);
    PurgeFacts(rows, u, now);
    var left := if |Active(rows, u, now)| >= MAX_SESSIONS then WithoutHash(kept, victim.hash) else kept;
    WhereConcat(left, [r], LiveFor(u, now));
    WhereConcat(left, [r], NotOf(u));
    WhereSwap(kept, HashIsNot(victim.hash), LiveFor(u, now));
    if |Active(rows, u, now)| >= MAX_SESSIONS {
      WhereIn(rows, LiveFor(u, now));
      WhereIn(rows, NotExpiredFor(u, now));
      assert victim in rows && victim.hash.of.user == u;
      WhereWithin(kept, HashIsNot(victim.hash), NotOf(u));
    }
  }

  /** The queue never outgrows five, and the others see nothing of it. */
  lemma SaveKeepsInv(rows: Table, issued: set<Token>, t: Token, now: Time, createdAt: Time, victim: Row)
    requires Inv(rows, issued, now) && t !in issued && MayEvict(rows, t.user, now, victim)
    ensures Inv(Saved(rows, t, now, createdAt, victim), issued + {t}, now)
  {
    var rows' := Saved(rows, t, now, createdAt, victim);
    var kept := Where(rows, NotExpiredFor(t.user, now));
    SaveMovesQueue(rows, t, now, createdAt, victim);
    WhereIn(rows, NotExpiredFor(t.user, now));
    WhereUnique(rows, NotExpiredFor(t.user, now));
    WhereIn(kept, HashIsNot(victim.hash));
    WhereUnique(kept, HashIsNot(victim.hash));
    UniqueConcat(rows'[..|rows'| - 1], [NewRow(t, now, createdAt)]);
    forall u: UserId ensures |Active(rows', u, now)| <= MAX_SESSIONS {
      if u == t.user {
        WhereUnique(rows, LiveFor(u, now));
        assert |Active(rows, u, now)| <= MAX_SESSIONS;
        EvictionMakesRoom(Active(rows, u, now), victim);
      } else {
        WhereWithin(rows', NotOf(t.user), LiveFor(u, now));
        WhereWithin(rows, NotOf(t.user), LiveFor(u, now));
        assert |Active(rows, u, now)| <= MAX_SESSIONS;
      }
    }
  }

  /** Of sessions with digests of their own, dropping one drops one. */
  lemma {:induction false} OneFewer(q: seq<Row>, victim: Row)
    requires Unique(q) && victim in q
    ensures |WithoutHash(q, victim.hash)| == |q| - 1
  {
    if q[0] == victim {
      forall r | r in q[1..] ensures r.hash != victim.hash {
        var j :| 0 <= j < |q[1..]| && q[1..][j] == r;
        assert q[j + 1] == r;
      }
      WhereAll(q[1..], HashIsNot(victim.hash));
    } else {
      var j :| 0 <= j < |q| && q[j] == victim;
      OneFewer(q[1..], victim);
    }
  }

  lemma EvictionMakesRoom(q: seq<Row>, victim: Row)
    requires |q| <= MAX_SESSIONS && (|q| >= MAX_SESSIONS ==> Unique(q) && victim in q)
    ensures forall r :: |Queued(q, victim, r)| == if |q| >= MAX_SESSIONS then MAX_SESSIONS else |q| + 1
  {
    if |q| >= MAX_SESSIONS { OneFewer(q, victim); }
  }

  lemma {:induction false} DeleteKeepsInv(rows: Table, issued: set<Token>, test: Row -> bool, now: Time)
    requires Inv(rows, issued, now)
    ensures Inv(Where(rows, test), issued, now)
  {
    WhereIn(rows, test);
    WhereUnique(rows, test);
    forall u: UserId ensures |Active(Where(rows, test), u, now)| <= MAX_SESSIONS {
      WhereSwap(rows, test, LiveFor(u, now));
      WhereIn(Active(rows, u, now), test);
      assert |Active(rows, u, now)| <= MAX_SESSIONS;
    }
  }

  /** Time only takes sessions away. */
  lemma InvLater(rows: Table, issued: set<Token>, now: Time, later: Time)
    requires Inv(rows, issued, now) && now <= later
    ensures Inv(rows, issued, later)
  {
    forall u: UserId ensures |Active(rows, u, later)| <= MAX_SESSIONS {
      WhereWithin(rows, LiveFor(u, now), LiveFor(u, later));
      WhereIn(Active(rows, u, now), LiveFor(u, later));
      assert |Active(rows, u, now)| <= MAX_SESSIONS;
    }
  }

  // ---------- rotation ----------

  /** What a refresh does to the table: the old digest goes, then the new token is saved. */
  function Rotated(rows: Table, old_: Digest, t: Token, now: Time, createdAt: Time, victim: Row): Table {
    Saved(WithoutHash(rows, old_), t, now, createdAt, victim)
  }

  lemma DropLength(q: seq<Row>, h: Digest)
    requires Unique(q)
    ensures |WithoutHash(q, h)| == |q| - if exists r :: r in q && r.hash == h then 1 else 0
  {
    if r :| r in q && r.hash == h {
      OneFewer(q, r);
    } else {
      WhereAll(q, HashIsNot(h));
    }
  }

  /** Every session that `u` has before an event is still there after it. */
  ghost predicate Survive(before: Table, after: Table, u: UserId, now: Time) {
    forall r :: r in Active(before, u, now) ==> r in Active(after, u, now)
  }

  /** A save keeps every session of its user if and only if there are fewer than five. */
  lemma SaveEvictsNobodyIff(rows: Table, issued: set<Token>, t: Token, now: Time, createdAt: Time, victim: Row)
    requires Inv(rows, issued, now) && t !in issued && MayEvict(rows, t.user, now, victim)
    ensures Survive(rows, Saved(rows, t, now, createdAt, victim), t.user, now) <==>
            |Active(rows, t.user, now)| < MAX_SESSIONS
  {
    var q := Active(rows, t.user, now);
    SaveMovesQueue(rows, t, now, createdAt, victim);
    if |q| >= MAX_SESSIONS {
      WhereIn(q, HashIsNot(victim.hash));
      WhereIn(rows, LiveFor(t.user, now));
      assert victim in q && victim.hash.of in issued;
      assert victim !in Queued(q, victim, NewRow(t, now, createdAt));
    }
  }

  /** The user's sessions after a digest is dropped. */
  lemma ActiveAfterDrop(rows: Table, u: UserId, h: Digest, now: Time)
    requires Unique(rows)
    ensures var q := Active(rows, u, now);
      && Active(WithoutHash(rows, h), u, now) == WithoutHash(q, h)
      && (forall r :: r in WithoutHash(q, h) <==> r in q && r.hash != h)
      && |WithoutHash(q, h)| == |q| - if exists r :: r in q && r.hash == h then 1 else 0
  {
    var q := Active(rows, u, now);
    WhereSwap(rows, HashIsNot(h), LiveFor(u, now));
    WhereUnique(rows, LiveFor(u, now));
    WhereIn(q, HashIsNot(h));
    DropLength(q, h);
  }

  /** A refresh that nothing comes in between of keeps every other session of its user, if and only if the token
      presented is one of the user's active sessions or the user has fewer than five. */
  lemma RefreshEvictsNobody(rows: Table, issued: set<Token>, old_: Digest, t: Token, now: Time, createdAt: Time,
                            victim: Row)
    requires Inv(rows, issued, now) && t !in issued
    requires MayEvict(WithoutHash(rows, old_), t.user, now, victim)
    ensures var q, rows' := Active(rows, t.user, now), Rotated(rows, old_, t, now, createdAt, victim);
      && ((forall r :: r in q && r.hash != old_ ==> r in Active(rows', t.user, now)) <==>
            |q| < MAX_SESSIONS || exists r :: r in q && r.hash == old_)
      && Others(rows', t.user) == Others(WithoutHash(rows, old_), t.user)
  {
    var left := WithoutHash(rows, old_);
    DeleteKeepsInv(rows, issued, HashIsNot(old_), now);
    ActiveAfterDrop(rows, t.user, old_, now);
    SaveMovesQueue(left, t, now, createdAt, victim);
    SaveEvictsNobodyIff(left, issued, t, now, createdAt, victim);
    assert |Active(rows, t.user, now)| <= MAX_SESSIONS;
  }

  // ---------- whole runs ----------

  /** The table operations, each done as a whole. Logging in is a save; refreshing is a drop and then a save. */
  datatype Op = Save(t: Token, createdAt: Time, victim: Row) | DropHash(h: Digest) | DropAllOf(u: UserId)

  datatype Event = Event(at: Time, op: Op)

  function Step(rows: Table, e: Event): Table {
    match e.op
    case Save(t, createdAt, victim) => Saved(rows, t, e.at, createdAt, victim)
    case DropHash(h) => WithoutHash(rows, h)
    case DropAllOf(u) => Others(rows, u)
  }

  /** The tokens saved in the first `n` events. */
  function Issued(run: seq<Event>, n: nat): set<Token>
    requires n <= |run|
  {
    if n == 0 then {} else Issued(run, n - 1) + if run[n - 1].op.Save? then {run[n - 1].op.t} else {}
  }

  function ClockAt(start: Time, run: seq<Event>, n: nat): Time
    requires n <= |run|
  {
    if n == 0 then start else run[n - 1].at
  }

  ghost predicate Follows(start: Time, run: seq<Event>, ts: seq<Table>, i: nat)
    requires i < |run| && |ts| == |run| + 1
  {
    var e := run[i];
    && ClockAt(start, run, i) <= e.at
    && ts[i + 1] == Step(ts[i], e)
    && (e.op.Save? ==> e.op.t !in Issued(run, i) && MayEvict(ts[i], e.op.t.user, e.at, e.op.victim))
  }

  /** A run from the empty table, in which every token saved is a new one. */
  ghost predicate Behaviour(start: Time, run: seq<Event>, ts: seq<Table>) {
    && |ts| == |run| + 1 && ts[0] == []
    && forall i {:trigger Follows(start, run, ts, i)} :: 0 <= i < |run| ==> Follows(start, run, ts, i)
  }

  lemma {:induction false} IssuedPrefix(run: seq<Event>, longer: seq<Event>, n: nat)
    requires n <= |run| && run <= longer
    ensures Issued(longer, n) == Issued(run, n)
  {
    if n > 0 {
      IssuedPrefix(run, longer, n - 1);
      assert longer[n - 1] == run[n - 1];
    }
  }

  /** What may happen next. */
  ghost predicate MayFollow(start: Time, run: seq<Event>, rows: Table, e: Event) {
    && ClockAt(start, run, |run|) <= e.at
    && (e.op.Save? ==> e.op.t !in Issued(run, |run|) && MayEvict(rows, e.op.t.user, e.at, e.op.victim))
  }

  lemma {:induction false} LongerRun(start: Time, run: seq<Event>, ts: seq<Table>, e: Event)
    requires Behaviour(start, run, ts) && MayFollow(start, run, ts[|run|], e)
    ensures Behaviour(start, run + [e], ts + [Step(ts[|run|], e)])
    ensures Issued(run + [e], |run| + 1) == Issued(run, |run|) + (if e.op.Save? then {e.op.t} else {})
  {
    hide Step, MayEvict;
    var longer, tables := run + [e], ts + [Step(ts[|run|], e)];
    forall i | 0 <= i < |longer| ensures Follows(start, longer, tables, i) {
      IssuedPrefix(run, longer, i);
      if i < |run| { assert Follows(start, run, ts, i); }
    }
    IssuedPrefix(run, longer, |run|);
  }

  lemma StepKeepsInv(rows: Table, issued: set<Token>, e: Event, clock: Time)
    requires Inv(rows, issued, clock) && clock <= e.at
    requires e.op.Save? ==> e.op.t !in issued && MayEvict(rows, e.op.t.user, e.at, e.op.victim)
    ensures Inv(Step(rows, e), issued + (if e.op.Save? then {e.op.t} else {}), e.at)
  {
    InvLater(rows, issued, clock, e.at);
    match e.op {
      case Save(t, createdAt, victim) => SaveKeepsInv(rows, issued, t, e.at, createdAt, victim);
      case DropHash(h) => DeleteKeepsInv(rows, issued, HashIsNot(h), e.at);
      case DropAllOf(u) => DeleteKeepsInv(rows, issued, NotOf(u), e.at);
    }
  }

  /** In every reachable table nobody has more than five active sessions, and rows are unique and their owner's. */
  lemma {:induction false} RunKeepsInv(start: Time, run: seq<Event>, ts: seq<Table>, n: nat)
    requires Behaviour(start, run, ts) && n <= |run|
    ensures Inv(ts[n], Issued(run, n), ClockAt(start, run, n))
  {
    if n > 0 {
      RunKeepsInv(start, run, ts, n - 1);
      assert Follows(start, run, ts, n - 1);
      StepKeepsInv(ts[n - 1], Issued(run, n - 1), run[n - 1], ClockAt(start, run, n - 1));
    }
  }

  /** A token lets in its own user, exactly while its row is there and has not expired. */
  lemma VerifyFindsOwner(rows: Table, t: Token, now: Time)
    requires Own(rows)
    ensures Verify(rows, t, now) ==
            if exists r :: r in rows && r.hash == Digest(t) && r.expiresAt > now then Some(t.user) else None
  {
    var hits := Where(rows, LetsIn(t, now));
    WhereIn(rows, LetsIn(t, now));
    if hits != [] { assert hits[0] in hits; }
  }

  lemma {:induction false} IssuedGrows(run: seq<Event>, i: nat, j: nat)
    requires i <= j <= |run|
    ensures Issued(run, i) <= Issued(run, j)
  {
    if i < j { IssuedGrows(run, i, j - 1); }
  }

  /** A row once gone does not come back: its token is never issued again. */
  lemma {:induction false} NoReturn(start: Time, run: seq<Event>, ts: seq<Table>, i: nat, j: nat, t: Token)
    requires Behaviour(start, run, ts) && i <= j <= |run| && t in Issued(run, i)
    ensures forall r :: r in ts[j] && r.hash == Digest(t) ==> r in ts[i]
  {
    if i < j {
      NoReturn(start, run, ts, i, j - 1, t);
      assert Follows(start, run, ts, j - 1);
      IssuedGrows(run, i, j - 1);
      var rows, e := ts[j - 1], run[j - 1];
      match e.op {
        case Save(u, createdAt, victim) =>
          WhereIn(rows, NotExpiredFor(u.user, e.at));
          WhereIn(Where(rows, NotExpiredFor(u.user, e.at)), HashIsNot(victim.hash));
        case DropHash(h) => WhereIn(rows, HashIsNot(h));
        case DropAllOf(u) => WhereIn(rows, NotOf(u));
      }
    }
  }

  /** Once an issued token does not verify, whether rotated, evicted, logged out or expired, it never does again. */
  lemma {:induction false} DeadStaysDead(start: Time, run: seq<Event>, ts: seq<Table>, i: nat, j: nat, t: Token,
                                         now: Time, later: Time)
    requires Behaviour(start, run, ts) && i <= j <= |run| && t in Issued(run, i) && now <= later
    requires Verify(ts[i], t, now).None?
    ensures Verify(ts[j], t, later).None?
  {
    RunKeepsInv(start, run, ts, i);
    RunKeepsInv(start, run, ts, j);
    VerifyFindsOwner(ts[i], t, now);
    VerifyFindsOwner(ts[j], t, later);
    NoReturn(start, run, ts, i, j, t);
  }

  /** Rotation, logout and eviction do take the token's row away. */
  lemma DroppedIsDead(rows: Table, t: Token, now: Time)
    requires Own(rows)
    ensures Verify(WithoutHash(rows, Digest(t)), t, now).None?
  {
    WhereIn(rows, HashIsNot(Digest(t)));
    VerifyFindsOwner(WithoutHash(rows, Digest(t)), t, now);
  }

  lemma EvictedIsDead(rows: Table, issued: set<Token>, t: Token, now: Time, createdAt: Time, victim: Row, later: Time)
    requires Inv(rows, issued, now) && t !in issued && MayEvict(rows, t.user, now, victim)
    requires |Active(rows, t.user, now)| >= MAX_SESSIONS
    ensures Verify(Saved(rows, t, now, createdAt, victim), victim.hash.of, later).None?
    ensures victim.hash.of != t && Verify(Saved(rows, t, now, createdAt, victim), t, now) == Some(t.user)
  {
    var kept := Where(rows, NotExpiredFor(t.user, now));
    var rows' := Saved(rows, t, now, createdAt, victim);
    SaveKeepsInv(rows, issued, t, now, createdAt, victim);
    WhereIn(rows, NotExpiredFor(t.user, now));
    WhereIn(kept, HashIsNot(victim.hash));
    WhereIn(rows, LiveFor(t.user, now));
    VerifyFindsOwner(rows', victim.hash.of, later);
    VerifyFindsOwner(rows', t, now);
    assert NewRow(t, now, createdAt) in rows';
  }
}
