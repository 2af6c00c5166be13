/** The token table and the services over it: logging in, refreshing and logging out. */
module SessionStores {
  import opened Options
  import opened Sessions
  import opened SessionQueue
  import opened SessionRotation

  datatype AuthError = UserNotFound | InvalidPassword | UserNotActive | InvalidToken

  datatype Result<+T> = Ok(value: T) | Err(error: AuthError)

  /** A row of the user table, as looked up. */
  datatype User = User(id: UserId, isActive: bool)

  /** What a request of some other device does to the table, some time after the previous event. */
  datatype Work = Login(t: Token, createdAt: Time) | Drop(h: Digest) | DropAll(u: UserId)

  datatype Delayed = Delayed(delay: nat, work: Work)

  function WorkOf(op: Op): Work {
    match op
    case Save(t, createdAt, _) => Login(t, createdAt)
    case DropHash(h) => Drop(h)
    case DropAllOf(u) => DropAll(u)
  }

  function WorksIn(run: seq<Event>): seq<Work> {
    seq(|run|, i requires 0 <= i < |run| => WorkOf(run[i].op))
  }

  function Works(ds: seq<Delayed>): seq<Work> {
    seq(|ds|, i requires 0 <= i < |ds| => ds[i].work)
  }

  function TokensOf(w: Work): set<Token> {
    if w.Login? then {w.t} else {}
  }

  /** The tokens saved by the work. */
  function NewTokens(ds: seq<Delayed>): set<Token> {
    if ds == [] then {} else NewTokens(ds[..|ds| - 1]) + TokensOf(ds[|ds| - 1].work)
  }

  /** Every token saved is new when it is. */
  ghost predicate AllNew(ds: seq<Delayed>, issued: set<Token>) {
    ds != [] ==>
      && AllNew(ds[..|ds| - 1], issued)
      && TokensOf(ds[|ds| - 1].work) !! issued + NewTokens(ds[..|ds| - 1])
  }

  class SessionStore {
    var rows: Table
    /** All that has been done to the table, and the tables it went through. */
    ghost var start: Time
    ghost var run: seq<Event>
    ghost var ts: seq<Table>

    ghost predicate Valid()
      reads this
    {
      Behaviour(start, run, ts) && rows == ts[|run|]
    }

    /** The latest time seen. */
    ghost function Clock(): Time
      reads this
    {
      ClockAt(start, run, |run|)
    }

    /** Every token ever saved. */
    ghost function IssuedSoFar(): set<Token>
      reads this
    {
      Issued(run, |run|)
    }

    constructor (ghost now: Time)
      ensures Valid() && rows == [] && run == [] && start == now
    {
      rows := [];
      start, run, ts := now, [], [[]];
    }

    /** The table has become `table` by the event `e`. */
    ghost method Happened(e: Event)
      requires Behaviour(start, run, ts) && MayFollow(start, run, ts[|run|], e) && rows == Step(ts[|run|], e)
      modifies this`run, this`ts
      ensures Valid() && run == old(run) + [e] && ts == old(ts) + [rows]
      ensures IssuedSoFar() == old(IssuedSoFar()) + (if e.op.Save? then {e.op.t} else {})
    {
      LongerRun(start, run, ts, e);
      run, ts := run + [e], ts + [rows];
    }

    method SaveRefreshToken(t: Token, now: Time, createdAt: Time) returns (ghost victim: Row)
      requires Valid() && Clock() <= now && t !in IssuedSoFar()
      modifies this`rows, this`run, this`ts
      ensures Valid() && run == old(run) + [Event(now, Save(t, createdAt, victim))] && ts == old(ts) + [rows]
      ensures IssuedSoFar() == old(IssuedSoFar()) + {t}
      ensures MayEvict(old(rows), t.user, now, victim)
      ensures rows == Saved(old(rows), t, now, createdAt, victim)
      ensures rows != [] && rows[|rows| - 1] == Row(t.user, Digest(t), now + 7 * 24 * 60 * 60 * 1_000_000, createdAt)
    {
      PurgeFacts(rows, t.user, now);
      var kept := Where(rows, NotExpiredFor(t.user, now));
      var active := Active(kept, t.user, now);
      victim := NewRow(t, now, createdAt);
      if |active| >= MAX_SESSIONS {
        ghost var some := OldestOf(active);
        var oldest :| oldest in active && IsOldest(active, oldest);
        victim := oldest;
        kept := WithoutHash(kept, oldest.hash);
      }
      rows := kept + [NewRow(t, now, createdAt)];
      Happened(Event(now, Save(t, createdAt, victim)));
    }

    method VerifyRefreshToken(t: Token, now: Time) returns (user: Option<UserId>)
      requires Valid()
      ensures user == Verify(rows, t, now)
      ensures user.Some? ==> user.value == t.user && t in IssuedSoFar()
    {
      RunKeepsInv(start, run, ts, |run|);
      VerifyFindsOwner(rows, t, now);
      var hits := Where(rows, LetsIn(t, now));
      user := if hits == [] then None else Some(hits[0].user);
    }

    method DeleteTokenByHash(h: Digest, ghost now: Time)
      requires Valid() && Clock() <= now
      modifies this`rows, this`run, this`ts
      ensures Valid() && run == old(run) + [Event(now, DropHash(h))] && ts == old(ts) + [rows]
      ensures IssuedSoFar() == old(IssuedSoFar())
      ensures rows == WithoutHash(old(rows), h)
    {
      rows := WithoutHash(rows, h);
      Happened(Event(now, DropHash(h)));
    }

    method DeleteRefreshToken(t: Token, ghost now: Time)
      requires Valid() && Clock() <= now
      modifies this`rows, this`run, this`ts
      ensures Valid() && run == old(run) + [Event(now, DropHash(Digest(t)))] && ts == old(ts) + [rows]
      ensures rows == WithoutHash(old(rows), Digest(t))
      ensures forall now :: Verify(rows, t, now).None?
    {
      RunKeepsInv(start, run, ts, |run|);
      forall now: Time ensures Verify(WithoutHash(rows, Digest(t)), t, now).None? {
        DroppedIsDead(rows, t, now);
      }
      DeleteTokenByHash(Digest(t), now);
    }

    method DeleteAllUserTokens(u: UserId, ghost now: Time)
      requires Valid() && Clock() <= now
      modifies this`rows, this`run, this`ts
      ensures Valid() && run == old(run) + [Event(now, DropAllOf(u))] && ts == old(ts) + [rows]
      ensures IssuedSoFar() == old(IssuedSoFar())
      ensures rows == Others(old(rows), u)
      ensures forall now :: Active(rows, u, now) == []
    {
      forall now: Time ensures Active(Others(rows, u), u, now) == [] {
        WhereIn(rows, NotOf(u));
        WhereNone(Others(rows, u), LiveFor(u, now));
      }
      rows := Others(rows, u);
      Happened(Event(now, DropAllOf(u)));
    }

    /** `found` is the user looked up by email. */
    method LoginUser(found: Option<User>, passwordMatches: bool, jti: nat, now: Time, createdAt: Time)
      returns (r: Result<Token>, ghost victim: Row)
      requires Valid() && Clock() <= now && forall t :: t in IssuedSoFar() ==> t.jti != jti
      modifies this`rows, this`run, this`ts
      ensures Valid()
      ensures r.Ok? <==> found.Some? && passwordMatches && found.value.isActive
      ensures r.Err? ==> rows == old(rows) && run == old(run)
      ensures r.Err? ==> r.error == if found.None? then UserNotFound
                                    else if !passwordMatches then InvalidPassword else UserNotActive
      ensures r.Ok? ==>
                && r.value == Token(jti, found.value.id)
                && run == old(run) + [Event(now, Save(r.value, createdAt, victim))]
                && MayEvict(old(rows), found.value.id, now, victim)
                && rows == Saved(old(rows), r.value, now, createdAt, victim)
                && Verify(rows, r.value, now) == Some(found.value.id)
    {
      victim := Row(0, Digest(Token(0, 0)), 0, 0);
      if found.None? {
        return Err(UserNotFound), victim;
      }
      if !passwordMatches {
        return Err(InvalidPassword), victim;
      }
      if !found.value.isActive {
        return Err(UserNotActive), victim;
      }
      var t := Token(jti, found.value.id);
      victim := SaveRefreshToken(t, now, createdAt);
      RunKeepsInv(start, run, ts, |run|);
      SavedVerifies(rows, t, now, createdAt);
      r := Ok(t);
    }

    /** `token` is the cookie, which a request may lack; it alone decides which row goes. */
    method LogoutUser(found: Option<User>, token: Option<Token>, ghost now: Time) returns (r: Result<()>)
      requires Valid() && Clock() <= now
      modifies this`rows, this`run, this`ts
      ensures Valid()
      ensures r.Ok? <==> found.Some? && found.value.isActive
      ensures r.Err? ==> rows == old(rows) && r.error == if found.None? then UserNotFound else UserNotActive
      ensures r.Err? || token.None? ==> run == old(run)
      ensures r.Ok? ==> rows == if token.Some? then WithoutHash(old(rows), Digest(token.value)) else old(rows)
      ensures r.Ok? && token.Some? ==> forall now :: Verify(rows, token.value, now).None?
    {
      if found.None? {
        return Err(UserNotFound);
      }
      if !found.value.isActive {
        return Err(UserNotActive);
      }
      if token.Some? {
        DeleteRefreshToken(token.value, now);
      }
      r := Ok(());
    }

    method Do(w: Work, now: Time)
      requires Valid() && Clock() <= now && TokensOf(w) !! IssuedSoFar()
      modifies this`rows, this`run, this`ts
      ensures Valid() && |run| == |old(run)| + 1 && old(run) <= run && old(ts) <= ts
      ensures WorkOf(run[|old(run)|].op) == w && Clock() == now
      ensures IssuedSoFar() == old(IssuedSoFar()) + TokensOf(w)
    {
      match w {
        case Login(t, createdAt) => var _ := SaveRefreshToken(t, now, createdAt);
        case Drop(h) => DeleteTokenByHash(h, now);
        case DropAll(u) => DeleteAllUserTokens(u, now);
      }
    }

    /** Requests of other devices come in between: they do their work, and nothing else is done. */
    method Meanwhile(ds: seq<Delayed>, now: Time) returns (later: Time, ghost done: seq<Event>)
      requires Valid() && Clock() <= now && AllNew(ds, IssuedSoFar())
      modifies this`rows, this`run, this`ts
      ensures Valid() && run == old(run) + done && old(ts) <= ts
      ensures |done| == |ds| && WorksIn(done) == Works(ds) && Clock() <= later && now <= later
      ensures ds == [] ==> later == now
      ensures IssuedSoFar() == old(IssuedSoFar()) + NewTokens(ds)
    {
      hide Behaviour, Issued, ClockAt, AllNew, WorkOf, TokensOf;
      later, done := now, [];
      for i := 0 to |ds|
        invariant Valid() && run == old(run) + done && old(ts) <= ts && |done| == i
        invariant WorksIn(done) == Works(ds[..i]) && Clock() <= later && now <= later && (i == 0 ==> later == now)
        invariant IssuedSoFar() == old(IssuedSoFar()) + NewTokens(ds[..i])
      {
        NewSoFar(ds, i, old(IssuedSoFar()));
        assert ds[..i + 1][..i] == ds[..i];
        later := later + ds[i].delay;
        ghost var before := run;
        Do(ds[i].work, later);
        WorksSnoc(done, run[|before|]);
        done := done + [run[|before|]];
      }
      assert ds[..|ds|] == ds;
    }

    /** Delete the token and save its successor. Other requests may come in before either. */
    method Replace(presented: Token, t: Token, now: Time, createdAt: Time, before: seq<Delayed>, between: seq<Delayed>)
      returns (ghost how: Refresh)
      requires Valid() && Clock() <= now && Verify(rows, presented, now).Some? && t.user == presented.user
      requires AllNew(before, IssuedSoFar()) && AllNew(between, IssuedSoFar() + NewTokens(before))
      requires t !in IssuedSoFar() + NewTokens(before) + NewTokens(between)
      modifies this`rows, this`run, this`ts
      ensures Valid() && old(run) <= run && old(ts) <= ts
      ensures how == Refresh(|old(run)|, now, |old(run)| + |before|, |old(run)| + |before| + 1 + |between|)
      ensures |run| == how.save + 1 && Rotates(start, run, ts, presented, how) && run[how.save].op.t == t
      ensures WorksIn(run[how.check..how.drop]) == Works(before)
      ensures WorksIn(run[how.drop + 1..how.save]) == Works(between)
      ensures before == [] && between == [] ==> run[how.drop].at == now == run[how.save].at
    {
      hide Follows, Verify, AllNew, MayEvict, Saved, NewTokens, Works, WorksIn, SaveCount;
      how := Refresh(|run|, now, |run| + |before|, |run| + |before| + 1 + |between|);
      var later, first := Meanwhile(before, now);
      DeleteTokenByHash(Digest(presented), later);
      ghost var drop := run[|run| - 1];
      ghost var second;
      later, second := Meanwhile(between, later);
      var _ := SaveRefreshToken(t, later, createdAt);
      RunParts(old(run), first, drop, second, run[|run| - 1]);
    }

    /** A request with a refresh token: check it, then replace it. `found` is the user it names. Other requests may
        come in before the token is deleted and between that and the saving of its successor. */
    method RefreshAccessToken(presented: Token, found: Option<User>, jti: nat, now: Time, createdAt: Time,
                              before: seq<Delayed>, between: seq<Delayed>)
      returns (r: Result<Token>, ghost how: Refresh)
      requires Valid() && Clock() <= now && (found.Some? ==> found.value.id == presented.user)
      requires AllNew(before, IssuedSoFar()) && AllNew(between, IssuedSoFar() + NewTokens(before))
      requires forall t :: t in IssuedSoFar() + NewTokens(before) + NewTokens(between) ==> t.jti != jti
      modifies this`rows, this`run, this`ts
      ensures Valid() && old(run) <= run && old(ts) <= ts
      ensures r.Ok? <==> Verify(old(rows), presented, now).Some? && found.Some? && found.value.isActive
      ensures r.Err? ==> rows == old(rows) && run == old(run)
      ensures r.Err? ==> r.error == if Verify(old(rows), presented, now).None? then InvalidToken
                                    else if found.None? then UserNotFound else UserNotActive
      ensures r.Ok? ==>
                && r.value == Token(jti, presented.user)
                && how == Refresh(|old(run)|, now, |old(run)| + |before|, |old(run)| + |before| + 1 + |between|)
                && |run| == how.save + 1
                && Rotates(start, run, ts, presented, how) && run[how.save].op.t == r.value
                && WorksIn(run[how.check..how.drop]) == Works(before)
                && WorksIn(run[how.drop + 1..how.save]) == Works(between)
      ensures r.Ok? ==>
                && (forall at :: Verify(rows, presented, at).None?)
                && Verify(rows, r.value, run[how.save].at) == Some(presented.user)
                && (EvictsNobody(run, ts, how.save) <==>
                      |Active(ts[how.save], presented.user, run[how.save].at)| < MAX_SESSIONS)
                && Others(rows, presented.user) == Others(ts[how.save], presented.user)
      ensures r.Ok? && before == [] && between == [] ==>
                && (forall s :: s in Active(old(rows), presented.user, now) && s.hash != Digest(presented) ==>
                      s in Active(rows, presented.user, now))
                && Others(rows, presented.user) == Others(old(rows), presented.user)
    {
      hide Behaviour, Rotates, Verify, AllNew, WorksIn, Works, EvictsNobody, Active, Others;
      TableForEach(start, run, ts);
      how := Refresh(|run|, now, |run| + |before|, |run| + |before| + 1 + |between|);
      var user := VerifyRefreshToken(presented, now);
      if user.None? {
        return Err(InvalidToken), how;
      }
      if found.None? {
        return Err(UserNotFound), how;
      }
      if !found.value.isActive {
        return Err(UserNotActive), how;
      }
      r := Ok(Token(jti, presented.user));
      how := Replace(presented, r.value, now, createdAt, before, between);
      TableForEach(start, run, ts);
      Replaced(start, run, ts, presented, how);
      if before == [] && between == [] {
        ReplacedAlone(start, run, ts, presented, how);
      }
    }
  }

  lemma TableForEach(start: Time, run: seq<Event>, ts: seq<Table>)
    requires Behaviour(start, run, ts)
    ensures |ts| == |run| + 1
  {
  }

  lemma RunParts(run: seq<Event>, first: seq<Event>, drop: Event, second: seq<Event>, save: Event)
    ensures var all := run + first + [drop] + second + [save];
      var d := |run| + |first|;
      && all[|run|..d] == first && all[d] == drop
      && all[d + 1..d + 1 + |second|] == second && all[d + 1 + |second|] == save
  {
  }

  lemma WorksSnoc(run: seq<Event>, e: Event)
    ensures WorksIn(run + [e]) == WorksIn(run) + [WorkOf(e.op)]
  {
  }

  /** The last event of a run has saved a token: it lets its user in, and no row of anybody else has changed. */
  lemma LastSaved(start: Time, run: seq<Event>, ts: seq<Table>)
    requires Behaviour(start, run, ts) && run != [] && run[|run| - 1].op.Save?
    ensures var e := run[|run| - 1];
      && Verify(ts[|run|], e.op.t, e.at) == Some(e.op.t.user)
      && Others(ts[|run|], e.op.t.user) == Others(ts[|run| - 1], e.op.t.user)
  {
    hide Verify, Others, Active;
    var n := |run| - 1;
    var e := run[n];
    RunKeepsInv(start, run, ts, n);
    RunKeepsInv(start, run, ts, n + 1);
    assert Follows(start, run, ts, n);
    SaveMovesQueue(ts[n], e.op.t, e.at, e.op.createdAt, e.op.victim);
    SavedVerifies(ts[n + 1], e.op.t, e.at, e.op.createdAt);
  }

  /** What a refresh has done when its last step is the last of the run. */
  lemma Replaced(start: Time, run: seq<Event>, ts: seq<Table>, p: Token, how: Refresh)
    requires Behaviour(start, run, ts) && Rotates(start, run, ts, p, how) && how.save + 1 == |run|
    ensures forall at :: Verify(ts[|run|], p, at).None?
    ensures Verify(ts[|run|], run[how.save].op.t, run[how.save].at) == Some(p.user)
    ensures EvictsNobody(run, ts, how.save) <==>
            |Active(ts[how.save], p.user, run[how.save].at)| < MAX_SESSIONS
    ensures Others(ts[|run|], p.user) == Others(ts[how.save], p.user)
  {
    hide Verify, Others, Active, Follows, EvictsNobody, Issued;
    VerifiedIsIssued(start, run, ts, p, how.check, how.checkedAt);
    IssuedGrows(run, how.check, how.drop);
    forall at: Time ensures Verify(ts[|run|], p, at).None? {
      NoCheckAfterDrop(start, run, ts, p, how.drop, |run|, at);
    }
    SaveInRunEvictsIff(start, run, ts, how.save);
    LastSaved(start, run, ts);
  }

  /** What the next piece of work saves is new by then. */
  lemma {:induction false} NewSoFar(ds: seq<Delayed>, i: nat, issued: set<Token>)
    requires AllNew(ds, issued) && i < |ds|
    ensures TokensOf(ds[i].work) !! issued + NewTokens(ds[..i])
    ensures NewTokens(ds[..i + 1]) == NewTokens(ds[..i]) + TokensOf(ds[i].work)
    decreases |ds|
  {
    assert ds[..i + 1][..i] == ds[..i];
    if i + 1 < |ds| {
      assert ds[..|ds| - 1][..i] == ds[..i];
      NewSoFar(ds[..|ds| - 1], i, issued);
    }
  }

  lemma SavedVerifies(rows: Table, t: Token, now: Time, createdAt: Time)
    requires Own(rows) && NewRow(t, now, createdAt) in rows
    ensures Verify(rows, t, now) == Some(t.user)
  {
    VerifyFindsOwner(rows, t, now);
  }

  lemma VerifiedIsActive(rows: Table, issued: set<Token>, t: Token, now: Time)
    requires Inv(rows, issued, now) && Verify(rows, t, now).Some?
    ensures t in issued
    ensures exists r :: r in Active(rows, t.user, now) && r.hash == Digest(t)
  {
    VerifyFindsOwner(rows, t, now);
    var r :| r in rows && r.hash == Digest(t) && r.expiresAt > now;
    WhereIn(rows, LiveFor(t.user, now));
    assert r in Active(rows, t.user, now);
  }

  /** Dropping a user's own token leaves everybody else's rows alone. */
  lemma OwnDropLeavesOthers(rows: Table, t: Token)
    requires Own(rows)
    ensures Others(WithoutHash(rows, Digest(t)), t.user) == Others(rows, t.user)
  {
    WhereWithin(rows, HashIsNot(Digest(t)), NotOf(t.user));
  }

  /** With nothing in between, all other sessions of the user are still there, and everybody else's rows. */
  lemma ReplacedAlone(start: Time, run: seq<Event>, ts: seq<Table>, p: Token, how: Refresh)
    requires Behaviour(start, run, ts) && Rotates(start, run, ts, p, how)
    requires how.check == how.drop && how.save == how.drop + 1
    requires how.checkedAt == run[how.drop].at == run[how.save].at
    ensures forall s :: s in Active(ts[how.check], p.user, how.checkedAt) && s.hash != Digest(p) ==>
              s in Active(ts[how.save + 1], p.user, how.checkedAt)
    ensures Others(ts[how.save + 1], p.user) == Others(ts[how.check], p.user)
  {
    var rows, e := ts[how.check], run[how.save];
    InvAtEvent(start, run, ts, how.drop);
    VerifiedIsActive(rows, Issued(run, how.check), p, how.checkedAt);
    IssuedGrows(run, how.drop, how.save);
    assert Follows(start, run, ts, how.drop) && Follows(start, run, ts, how.save);
    RefreshEvictsNobody(rows, Issued(run, how.check), Digest(p), e.op.t, e.at, e.op.createdAt, e.op.victim);
    OwnDropLeavesOthers(rows, p);
  }

  /** A logout takes rows from users other than the one logging out exactly when the cookie is somebody else's and
      still in the table. */
  lemma LogoutTouchesOthersIff(rows: Table, u: UserId, t: Token)
    requires Own(rows)
    ensures Others(WithoutHash(rows, Digest(t)), u) == Others(rows, u) <==>
            t.user == u || forall r :: r in rows ==> r.hash != Digest(t)
  {
    if t.user == u {
      OwnDropLeavesOthers(rows, t);
    } else {
      WhereIn(rows, NotOf(u));
      WhereIn(WithoutHash(rows, Digest(t)), NotOf(u));
      WhereIn(rows, HashIsNot(Digest(t)));
      if r :| r in rows && r.hash == Digest(t) {
        assert r in Others(rows, u) && r !in Others(WithoutHash(rows, Digest(t)), u);
      } else {
        WhereAll(rows, HashIsNot(Digest(t)));
      }
    }
  }

  /** A cookie of somebody else's ends that other user's session. */
  lemma LogoutCanTouchOthers()
    ensures var cookie := Token(0, 1);
      var rows := [NewRow(cookie, 0, 0)];
      Own(rows) && Others(WithoutHash(rows, Digest(cookie)), 2) != Others(rows, 2)
  {
    LogoutTouchesOthersIff([NewRow(Token(0, 1), 0, 0)], 2, Token(0, 1));
    assert NewRow(Token(0, 1), 0, 0) in [NewRow(Token(0, 1), 0, 0)];
  }
}
