/** Who gets the next turn: exact round robin while bans stand still, and bounded waiting whatever happens. */
module PoolFairness {
  import opened Options
  import opened Sequences
  import opened ProxyPool
  import opened PoolInvariant
  import opened PoolRuns

  /** The proxies of `line` that are in `s`, in line order. */
  function InOrder(line: seq<Proxy>, s: set<Proxy>): seq<Proxy> {
    if line == [] then [] else (if line[0] in s then [line[0]] else []) + InOrder(line[1..], s)
  }

  predicate Asks(e: Event) {
    e.op.GetNext?
  }

  /** The run does nothing but ask for proxies, and the active proxies, told from the pool at the start, are the same
      `good` ones at its first and at its last question. */
  ghost predicate Steady(run: seq<Event>, p: Pool, good: set<Proxy>) {
    && (forall i :: 0 <= i < |run| ==> Asks(run[i]))
    && (run != [] ==> ActiveSet(p, run[0].at) == good == ActiveSet(p, run[|run| - 1].at))
  }

  lemma {:induction false} InOrderConcat(a: seq<Proxy>, b: seq<Proxy>, s: set<Proxy>)
    ensures InOrder(a + b, s) == InOrder(a, s) + InOrder(b, s)
  {
    if a == [] {
      assert a + b == b;
    } else {
      assert (a + b)[1..] == a[1..] + b;
      InOrderConcat(a[1..], b, s);
    }
  }

  lemma {:induction false} InOrderNone(a: seq<Proxy>, s: set<Proxy>)
    requires forall i :: 0 <= i < |a| ==> a[i] !in s
    ensures InOrder(a, s) == []
  {
    if a != [] { InOrderNone(a[1..], s); }
  }

  lemma {:induction false} TurnedLine(queue: seq<Proxy>, i: nat, s: set<Proxy>)
    requires i < |queue| && queue[i] in s && forall j :: 0 <= j < i ==> queue[j] !in s
    ensures InOrder(queue, s) == [queue[i]] + InOrder(queue[i + 1..], s)
    ensures InOrder(queue[i + 1..] + queue[..i + 1], s) == InOrder(queue[i + 1..], s) + [queue[i]]
  {
    var front := queue[..i];
    InOrderNone(front, s);
    assert InOrder([queue[i]], s) == [queue[i]];
    InOrderConcat(front, [queue[i]], s);
    assert queue[..i + 1] == front + [queue[i]];
    InOrderConcat(queue[i + 1..], queue[..i + 1], s);
    InOrderConcat(queue[..i + 1], queue[i + 1..], s);
    assert queue == queue[..i + 1] + queue[i + 1..];
  }

  /** Exactly the proxies in `good` may be handed out of `p` at `now`. */
  ghost predicate Offers(p: Pool, now: Time, good: set<Proxy>) {
    good <= p.members && forall u :: u in p.members ==> (Usable(RecordOf(p, u), now) <==> u in good)
  }

  /** Where the scan stops is where the first proxy of `good` stands. */
  lemma {:induction false} ScanStopsAtGood(p: Pool, now: Time, good: set<Proxy>)
    requires Shape(p) && Offers(p, now, good)
    ensures var i := FirstUsable(p.queue, Release(p, now).records, now);
      && (forall j :: 0 <= j < i ==> p.queue[j] !in good)
      && (i < |p.queue| ==> p.queue[i] in good)
  {
    var records := Release(p, now).records;
    FirstUsableMeans(p.queue, records, now);
    var i := FirstUsable(p.queue, records, now);
    forall j | 0 <= j <= i && j < |p.queue| ensures p.queue[j] in good <==> j == i {
      var u := p.queue[j];
      assert u in p.members && u in p.records;
      assert Usable(records[u], now) <==> Usable(p.records[u], now);
    }
  }

  /** Either nobody is usable and the line stands, or the one at place `i` is taken and the line turned past it. */
  lemma {:induction false} NextShape(p: Pool, now: Time)
    ensures var i := FirstUsable(p.queue, Release(p, now).records, now);
      var (q, out) := Next(p, now);
      && q.members == p.members
      && (i == |p.queue| ==> out.None? && q.queue == p.queue)
      && (i < |p.queue| ==> out == Some(p.queue[i]) && q.queue == RotatedBy(p.queue, i + 1))
  {
  }

  /** One call takes the first of the usable proxies and puts it last among them. */
  lemma {:induction false} NextTurn(p: Pool, now: Time, good: set<Proxy>)
    requires Shape(p) && Offers(p, now, good)
    ensures IsRotation(Next(p, now).0.queue, p.queue) && Next(p, now).0.members == p.members
    ensures InOrder(p.queue, good) == [] ==>
              Next(p, now).1.None? && InOrder(Next(p, now).0.queue, good) == []
    ensures InOrder(p.queue, good) != [] ==>
              var line := InOrder(p.queue, good);
              Next(p, now).1 == Some(line[0]) && InOrder(Next(p, now).0.queue, good) == line[1..] + [line[0]]
  {
    var i := FirstUsable(p.queue, Release(p, now).records, now);
    ScanStopsAtGood(p, now, good);
    NextShape(p, now);
    LineTurned(p.queue, Next(p, now).0.queue, i, good);
  }

  lemma {:induction false} LineTurned(xs: seq<Proxy>, ys: seq<Proxy>, i: nat, s: set<Proxy>)
    requires i <= |xs| && (forall j :: 0 <= j < i ==> xs[j] !in s) && (i < |xs| ==> xs[i] in s)
    requires ys == if i == |xs| then xs else RotatedBy(xs, i + 1)
    ensures IsRotation(ys, xs)
    ensures i == |xs| ==> InOrder(xs, s) == []
    ensures i < |xs| ==>
              InOrder(xs, s) == [xs[i]] + InOrder(xs[i + 1..], s) && InOrder(ys, s) == InOrder(xs[i + 1..], s) + [xs[i]]
  {
    if i < |xs| {
      TurnedLine(xs, i, s);
    } else {
      InOrderNone(xs, s);
      RotationBy(xs, 0);
    }
  }

  lemma RotationBy(a: seq<Proxy>, k: nat)
    requires k <= |a|
    ensures IsRotation(a[k..] + a[..k], a)
    ensures IsRotation(a, a)
  {
    assert RotatedBy(a, k) == a[k..] + a[..k];
    assert RotatedBy(a, 0) == a;
  }

  lemma RotationTrans(a: seq<Proxy>, b: seq<Proxy>, c: seq<Proxy>)
    requires IsRotation(b, a) && IsRotation(c, b)
    ensures IsRotation(c, a)
  {
    var i :| 0 <= i <= |a| && b == RotatedBy(a, i);
    var j :| 0 <= j <= |b| && c == RotatedBy(b, j);
    var k := if i + j <= |a| then i + j else i + j - |a|;
    RotationAdds(a, i, j);
    assert c == RotatedBy(a, k);
  }

  lemma RotationAdds(a: seq<Proxy>, i: nat, j: nat)
    requires i <= |a| && j <= |a|
    ensures RotatedBy(RotatedBy(a, i), j) == RotatedBy(a, if i + j <= |a| then i + j else i + j - |a|)
  {
    var b := a[i..] + a[..i];
    if i + j <= |a| {
      assert b[j..] == a[i + j..] + a[..i];
      assert b[..j] == a[i..i + j];
      assert a[..i] + a[i..i + j] == a[..i + j];
    } else {
      var k := i + j - |a|;
      assert b[j..] == a[k..i];
      assert b[..j] == a[i..] + a[..k];
      assert a[k..i] + a[i..] == a[k..];
    }
  }

  /** `line` after `n` turns, each of which moves its head to its end. */
  function Turned(line: seq<Proxy>, n: nat): (t: seq<Proxy>)
    requires line != []
    ensures |t| == |line|
  {
    if n == 0 then line else var t := Turned(line, n - 1); t[1..] + [t[0]]
  }

  lemma {:induction false} TurnedHead(line: seq<Proxy>, n: nat, j: nat)
    requires line != [] && j < |line|
    ensures Turned(line, n)[j] == line[(n + j) % |line|]
  {
    if n == 0 {
      UniqueRemainder(j, 0, |line|, j);
    } else if j + 1 < |line| {
      TurnedHead(line, n - 1, j + 1);
    } else {
      TurnedHead(line, n - 1, 0);
      WrapAround(n - 1, |line|);
    }
  }

  lemma WrapAround(m: nat, k: nat)
    requires k > 0
    ensures (m + k) % k == m % k
  {
    var d := m / k;
    assert m + k == (d + 1) * k + m % k;
    UniqueRemainder(m + k, d + 1, k, m % k);
  }

  lemma UniqueRemainder(i: nat, d: int, k: nat, r: nat)
    requires k > 0 && r < k && i == d * k + r
    ensures i % k == r
  {
    var d' := i / k;
    assert (d - d') * k == i % k - r;
    AtLeastOnce(d - d', k);
    AtLeastOnce(d' - d, k);
    assert (d' - d) * k == -((d - d') * k);
  }

  lemma AtLeastOnce(x: int, k: nat)
    ensures x >= 1 ==> x * k >= k
  {
    if x >= 1 { assert (x - 1) * k >= 0; }
  }

  lemma ShapeKept(cfg: Settings, clock: Time, run: seq<Event>, ps: seq<Pool>, n: nat)
    requires Behaviour(cfg, clock, run, ps) && Inv(cfg, ps[0], clock) && n <= |run|
    ensures Shape(ps[n])
  {
    RunKeepsInv(cfg, clock, run, ps, n);
  }

  /** The usable part of a line `xs` after `n` turns. */
  ghost predicate TurnedBy(xs: seq<Proxy>, ys: seq<Proxy>, good: set<Proxy>, n: nat) {
    && IsRotation(ys, xs)
    && InOrder(ys, good) == if InOrder(xs, good) == [] then [] else Turned(InOrder(xs, good), n)
  }

  lemma {:induction false} OneMoreTurn(xs: seq<Proxy>, ys: seq<Proxy>, zs: seq<Proxy>, good: set<Proxy>, n: nat)
    requires TurnedBy(xs, ys, good, n) && IsRotation(zs, ys)
    requires InOrder(zs, good) ==
             if InOrder(ys, good) == [] then [] else InOrder(ys, good)[1..] + [InOrder(ys, good)[0]]
    ensures TurnedBy(xs, zs, good, n + 1)
  {
    RotationTrans(xs, ys, zs);
  }

  // ---------- whom the calls find usable ----------

  /** `r` is `r0`, unless its soft ban has run out by `clock` and been cleared. */
  ghost predicate Aged(r0: Record, r: Record, clock: Time) {
    r == r0 || (r == r0.(softBanUntil := None) && r0.softBanUntil.Some? && r0.softBanUntil.value <= clock)
  }

  lemma AgedUsable(r0: Record, r: Record, clock: Time, now: Time)
    requires Aged(r0, r, clock) && clock <= now
    ensures Usable(r, now) <==> Usable(r0, now)
    ensures Aged(r0, Released(r, now), now)
  {
  }

  /** Hand-outs only age the records. */
  ghost predicate OnlyAged(p: Pool, q: Pool, clock: Time) {
    && q.members == p.members && q.records.Keys == p.records.Keys
    && forall u :: u in p.records ==> Aged(p.records[u], q.records[u], clock)
  }

  lemma NextOnlyAges(p: Pool, q: Pool, clock: Time, now: Time)
    requires OnlyAged(p, q, clock) && clock <= now
    ensures OnlyAged(p, Next(q, now).0, now)
  {
    var r := Release(q, now);
    forall u | u in p.records ensures Aged(p.records[u], r.records[u], now) && Aged(p.records[u], q.records[u], now) {
      AgedUsable(p.records[u], q.records[u], clock, now);
    }
  }

  lemma {:induction false} AskingOnlyAges(cfg: Settings, clock: Time, run: seq<Event>, ps: seq<Pool>, n: nat)
    requires Behaviour(cfg, clock, run, ps) && n <= |run| && forall i :: 0 <= i < |run| ==> Asks(run[i])
    ensures OnlyAged(ps[0], ps[n], ClockAt(clock, run, n))
  {
    hide OnlyAged, Next;
    if n == 0 {
      NotAged(ps[0], clock);
    } else {
      AskingOnlyAges(cfg, clock, run, ps, n - 1);
      assert Follows(cfg, run, ps, n - 1) && Asks(run[n - 1]);
      assert ClockAt(clock, run, n - 1) <= run[n - 1].at;
      NextOnlyAges(ps[0], ps[n - 1], ClockAt(clock, run, n - 1), run[n - 1].at);
    }
  }

  lemma NotAged(p: Pool, clock: Time)
    ensures OnlyAged(p, p, clock)
  {
  }

  lemma {:induction false} LaterAsked(cfg: Settings, clock: Time, run: seq<Event>, ps: seq<Pool>, i: nat, j: nat)
    requires Behaviour(cfg, clock, run, ps) && i <= j < |run| && forall k :: 0 <= k < |run| ==> Asks(run[k])
    ensures run[i].at <= run[j].at
  {
    if i < j {
      LaterAsked(cfg, clock, run, ps, i, j - 1);
      assert Asks(run[j - 1]) && ClockAt(clock, run, j) <= run[j].at;
    }
  }

  /** In a steady run every question finds the same proxies usable: bans only run out, and any that did so would
      have done so by the last question. */
  lemma SteadyOffers(cfg: Settings, clock: Time, run: seq<Event>, ps: seq<Pool>, good: set<Proxy>, n: nat)
    requires Behaviour(cfg, clock, run, ps) && Shape(ps[0]) && Steady(run, ps[0], good) && n < |run|
    ensures Offers(ps[n], run[n].at, good)
  {
    hide Next, Step, Shape;
    AskingOnlyAges(cfg, clock, run, ps, n);
    LaterAsked(cfg, clock, run, ps, 0, n);
    LaterAsked(cfg, clock, run, ps, n, |run| - 1);
    assert ClockAt(clock, run, n) <= run[n].at;
    forall u | u in ps[n].members ensures Usable(RecordOf(ps[n], u), run[n].at) <==> u in good {
      var r0 := RecordOf(ps[0], u);
      assert Aged(r0, RecordOf(ps[n], u), ClockAt(clock, run, n));
      AgedUsable(r0, RecordOf(ps[n], u), ClockAt(clock, run, n), run[n].at);
      assert u in good <==> u in ActiveSet(ps[0], run[0].at);
      assert u in good <==> u in ActiveSet(ps[0], run[|run| - 1].at);
    }
  }

  /** The pool before the n-th call: the usable part of the line has turned n times. */
  lemma {:induction false} TurnsSoFar(cfg: Settings, clock: Time, run: seq<Event>, ps: seq<Pool>, good: set<Proxy>,
                                      n: nat)
    requires Behaviour(cfg, clock, run, ps) && Inv(cfg, ps[0], clock) && Steady(run, ps[0], good) && n <= |run|
    ensures TurnedBy(ps[0].queue, ps[n].queue, good, n)
  {
    hide TurnedBy, Step, Inv, InOrder, IsRotation;
    if n == 0 {
      NotTurned(ps[0].queue, good);
    } else {
      TurnsSoFar(cfg, clock, run, ps, good, n - 1);
      OneTurn(cfg, clock, run, ps, good, n - 1);
      OneMoreTurn(ps[0].queue, ps[n - 1].queue, ps[n].queue, good, n - 1);
    }
  }

  lemma NotTurned(line: seq<Proxy>, good: set<Proxy>)
    ensures TurnedBy(line, line, good, 0)
  {
    RotationBy(line, 0);
  }

  lemma {:induction false} OneTurn(cfg: Settings, clock: Time, run: seq<Event>, ps: seq<Pool>, good: set<Proxy>, i: nat)
    requires Behaviour(cfg, clock, run, ps) && Inv(cfg, ps[0], clock) && Steady(run, ps[0], good) && i < |run|
    ensures IsRotation(ps[i + 1].queue, ps[i].queue)
    ensures var line := InOrder(ps[i].queue, good);
      && InOrder(ps[i + 1].queue, good) == (if line == [] then [] else line[1..] + [line[0]])
      && Next(ps[i], run[i].at).1 == if line == [] then None else Some(line[0])
  {
    hide InOrder, IsRotation, Shape, Next;
    ShapeKept(cfg, clock, run, ps, 0);
    ShapeKept(cfg, clock, run, ps, i);
    SteadyOffers(cfg, clock, run, ps, good, i);
    assert Follows(cfg, run, ps, i) && Asks(run[i]);
    NextTurn(ps[i], run[i].at, good);
  }

  /** Whose turn it is in a line that has turned `n` times. */
  lemma {:induction false} HeadAfterTurns(xs: seq<Proxy>, ys: seq<Proxy>, good: set<Proxy>, n: nat)
    requires TurnedBy(xs, ys, good, n)
    ensures InOrder(xs, good) == [] <==> InOrder(ys, good) == []
    ensures InOrder(xs, good) != [] ==> InOrder(ys, good)[0] == InOrder(xs, good)[n % |InOrder(xs, good)|]
  {
    if InOrder(xs, good) != [] {
      TurnedHead(InOrder(xs, good), n, 0);
    }
  }

  /** Round robin: the n-th of any number of calls hands out the usable proxies cyclically, in line order, and
      leaves a rotation of the line; with nobody usable every call comes back empty-handed. */
  lemma {:induction false} RoundRobin(cfg: Settings, clock: Time, run: seq<Event>, ps: seq<Pool>, good: set<Proxy>,
                                      n: nat)
    requires Behaviour(cfg, clock, run, ps) && Inv(cfg, ps[0], clock) && Steady(run, ps[0], good) && n < |run|
    ensures IsRotation(ps[n + 1].queue, ps[0].queue)
    ensures var line := InOrder(ps[0].queue, good);
      Next(ps[n], run[n].at).1 == if line == [] then None else Some(line[n % |line|])
  {
    hide InOrder, IsRotation, Inv, Next, Step;
    TurnsSoFar(cfg, clock, run, ps, good, n + 1);
    TurnsSoFar(cfg, clock, run, ps, good, n);
    HeadAfterTurns(ps[0].queue, ps[n].queue, good, n);
    OneTurn(cfg, clock, run, ps, good, n);
  }

  // ---------- bounded waiting ----------

  /** How many of the first `n` events ask for a proxy. */
  function HandOuts(run: seq<Event>, n: nat): nat
    requires n <= |run|
  {
    if n == 0 then 0 else HandOuts(run, n - 1) + (if run[n - 1].op.GetNext? then 1 else 0)
  }

  ghost predicate Serves(p: Pool, e: Event, u: Proxy) {
    e.op.GetNext? && Next(p, e.at).1 == Some(u)
  }

  /** `u` never leaves the pool during the run, and whenever a proxy is asked for, `u` could be given. */
  ghost predicate AlwaysReady(run: seq<Event>, ps: seq<Pool>, u: Proxy)
    requires |ps| == |run| + 1
  {
    && (forall i :: 0 <= i <= |run| ==> u in ps[i].members)
    && (forall i :: 0 <= i < |run| && run[i].op.GetNext? ==> Usable(RecordOf(ps[i], u), run[i].at))
  }

  lemma {:induction false} IndexOfDropped(xs: seq<Proxy>, x: Proxy, k: nat)
    requires x in xs && k <= IndexOf(xs, x)
    ensures k <= |xs| && x in xs[k..] && IndexOf(xs[k..], x) == IndexOf(xs, x) - k
  {
    IndexOfFirst(xs, x);
    if k > 0 {
      IndexOfDropped(xs[1..], x, k - 1);
      assert xs[1..][k - 1..] == xs[k..];
    } else {
      assert xs[0..] == xs;
    }
  }

  lemma {:induction false} NextBringsForward(p: Pool, now: Time, u: Proxy)
    requires Shape(p)
    requires u in p.members && Usable(RecordOf(p, u), now) && Next(p, now).1 != Some(u)
    ensures IndexOf(Next(p, now).0.queue, u) < IndexOf(p.queue, u)
  {
    var q := Release(p, now);
    FirstUsableMeans(q.queue, q.records, now);
    var i := FirstUsable(q.queue, q.records, now);
    IndexOfFirst(p.queue, u);
    var k := IndexOf(p.queue, u);
    assert i <= k && i != k;
    IndexOfDropped(p.queue, u, i + 1);
    IndexOfAppend(p.queue[i + 1..], p.queue[..i + 1], u);
  }

  lemma {:induction false} AdmitAllAppends(cfg: Settings, p: Pool, cs: seq<Candidate>)
    ensures p.queue <= AdmitAll(cfg, p, cs).pool.queue
  {
    if cs != [] { AdmitAllAppends(cfg, p, cs[..|cs| - 1]); }
  }

  lemma {:induction false} PrefixIndex(xs: seq<Proxy>, ys: seq<Proxy>, x: Proxy)
    requires x in xs && xs <= ys
    ensures IndexOf(ys, x) == IndexOf(xs, x)
  {
    assert ys == xs + ys[|xs|..];
    IndexOfAppend(xs, ys[|xs|..], x);
  }

  /** No operation sends a waiting proxy back in the line, and every hand-out to another brings it forward. */
  lemma {:induction false} StepBringsForward(cfg: Settings, p: Pool, e: Event, u: Proxy)
    requires Shape(p)
    requires u in p.members && u in Step(cfg, p, e).members
    requires e.op.GetNext? ==> Usable(RecordOf(p, u), e.at) && !Serves(p, e, u)
    ensures IndexOf(Step(cfg, p, e).queue, u) + (if e.op.GetNext? then 1 else 0) <= IndexOf(p.queue, u)
  {
    hide Next, IndexOf, AdmitAll;
    match e.op {
      case GetNext => NextBringsForward(p, e.at, u);
      case RegisterProxy(_) => PrefixIndex(p.queue, Step(cfg, p, e).queue, u);
      case RecordFailure(v, _, _) => if v != u { IndexOfRemoved(p.queue, u, v); }
      case RehabilitateHistory(_) => PrefixIndex(p.queue, Step(cfg, p, e).queue, u);
      case FetchProxies(reply, _) =>
        if reply.Listing? { AdmitAllAppends(cfg, p, reply.candidates); }
        PrefixIndex(p.queue, Step(cfg, p, e).queue, u);
      case _ =>
    }
  }

  lemma {:induction false} WaitsAtMostItsTurn(cfg: Settings, clock: Time, run: seq<Event>, ps: seq<Pool>, u: Proxy,
                                              n: nat)
    requires Behaviour(cfg, clock, run, ps) && Inv(cfg, ps[0], clock) && AlwaysReady(run, ps, u) && n <= |run|
    requires forall i :: 0 <= i < n ==> !Serves(ps[i], run[i], u)
    ensures HandOuts(run, n) + IndexOf(ps[n].queue, u) <= IndexOf(ps[0].queue, u)
  {
    if n > 0 {
      WaitsAtMostItsTurn(cfg, clock, run, ps, u, n - 1);
      ShapeKept(cfg, clock, run, ps, n - 1);
      assert Follows(cfg, run, ps, n - 1);
      assert u in ps[n - 1].members && u in ps[n].members;
      StepBringsForward(cfg, ps[n - 1], run[n - 1], u);
    }
  }

  /** Nobody starves: a proxy that stays ready is handed out before more turns pass than stood ahead of it,
      whatever failures, successes, rehabilitations and collections happen to the others meanwhile. */
  lemma {:induction false} NobodyStarves(cfg: Settings, clock: Time, run: seq<Event>, ps: seq<Pool>, u: Proxy)
    requires Behaviour(cfg, clock, run, ps) && Inv(cfg, ps[0], clock) && AlwaysReady(run, ps, u)
    requires HandOuts(run, |run|) > IndexOf(ps[0].queue, u)
    ensures exists i :: 0 <= i < |run| && Serves(ps[i], run[i], u)
  {
    if forall i :: 0 <= i < |run| ==> !Serves(ps[i], run[i], u) {
      WaitsAtMostItsTurn(cfg, clock, run, ps, u, |run|);
    }
  }
}
