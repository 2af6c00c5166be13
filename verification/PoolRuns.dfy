/** Runs: any interleaving of operations on the pool, under a clock that never goes back. */
module PoolRuns {
  import opened Options
  import opened Sequences
  import opened ProxyPool
  import opened PoolInvariant
  import opened PoolLaws

  datatype Op =
    | GetNext
    | RegisterProxy(url: Proxy)
    | RecordFailure(url: Proxy, kind: FailureType, failedAt: Option<Time>)
    | RecordSuccess(url: Proxy)
    | RehabilitateHistory(kinds: set<FailureType>)
    | FetchProxies(reply: Reply, finishedAt: Time)
    | ResetProxies(clearHistory: bool)
    | StartBatch
    | GetMetrics

  /** An operation, begun at a time. Only a fetch takes time; everything else is over at once. */
  datatype Event = Event(at: Time, op: Op)

  function Ends(e: Event): Time {
    if e.op.FetchProxies? then Max(e.at, e.op.finishedAt) else e.at
  }

  function FailureTime(op: Op, now: Time): Time
    requires op.RecordFailure?
  {
    if op.failedAt.Some? then op.failedAt.value else now
  }

  function Step(cfg: Settings, p: Pool, e: Event): Pool {
    match e.op
    case GetNext => Next(p, e.at).0
    case RegisterProxy(u) => Register(p, u)
    case RecordFailure(u, kind, _) => Fail(cfg, p, u, kind, FailureTime(e.op, e.at))
    case RecordSuccess(u) => Succeed(cfg, p, u)
    case RehabilitateHistory(kinds) => Rehabilitate(p, kinds)
    case FetchProxies(reply, _) => Fetch(cfg, p, e.at, reply, Ends(e))
    case ResetProxies(clear) => Reset(p, clear)
    case StartBatch => p.(batch := map[])
    case GetMetrics => p
  }

  ghost predicate Follows(cfg: Settings, run: seq<Event>, ps: seq<Pool>, i: nat)
    requires i < |run| && i + 1 < |ps|
  {
    ps[i + 1] == Step(cfg, ps[i], run[i])
  }

  /** The first `n` events take ps[0] to ps[n], one step after another. */
  ghost predicate Chain(cfg: Settings, run: seq<Event>, ps: seq<Pool>, n: nat)
    requires n <= |run| && n < |ps|
  {
    forall i {:trigger Follows(cfg, run, ps, i)} :: 0 <= i < n ==> Follows(cfg, run, ps, i)
  }

  lemma LongerChain(cfg: Settings, run: seq<Event>, ps: seq<Pool>, n: nat, p: Pool)
    requires n < |run| && |ps| == n + 1 && Chain(cfg, run, ps, n) && p == Step(cfg, ps[n], run[n])
    ensures Chain(cfg, run, ps + [p], n + 1)
  {
    var longer := ps + [p];
    forall i | 0 <= i < n + 1 ensures Follows(cfg, run, longer, i) {
      if i < n { assert Follows(cfg, run, ps, i); }
    }
  }

  /** `ps` lists the pools a run goes through: ps[i] is the pool just before event i. */
  ghost predicate Behaviour(cfg: Settings, clock: Time, run: seq<Event>, ps: seq<Pool>) {
    && |ps| == |run| + 1
    && Chain(cfg, run, ps, |run|)
    && Timely(clock, run)
  }

  function ClockAt(clock: Time, run: seq<Event>, n: nat): Time
    requires n <= |run|
  {
    if n == 0 then clock else Ends(run[n - 1])
  }

  ghost predicate Timely(clock: Time, run: seq<Event>) {
    forall i {:trigger ClockAt(clock, run, i)} :: 0 <= i < |run| ==> ClockAt(clock, run, i) <= run[i].at
  }

  lemma TimelyPrefix(clock: Time, run: seq<Event>, n: nat)
    requires Timely(clock, run) && n <= |run|
    ensures Timely(clock, run[..n])
  {
    forall i | 0 <= i < n ensures ClockAt(clock, run[..n], i) <= run[..n][i].at {
      assert ClockAt(clock, run, i) <= run[i].at;
    }
  }

  /** `min_available or settings.MIN_AVAILABLE_PROXIES`: zero counts as not given. */
  function RequiredProxies(cfg: Settings, minAvailable: Option<int>): int {
    Max(1, if minAvailable.Some? && minAvailable.value != 0 then minAvailable.value else cfg.minAvailableProxies)
  }

  ghost predicate TooFew(required: int, now: Time, run: seq<Event>, ps: seq<Pool>, i: nat)
    requires i <= |run| && i < |ps|
  {
    |ActiveSet(ps[i], ClockAt(now, run, i))| < required
  }

  /** Before each of the first `n` events fewer proxies were active than required. */
  ghost predicate TooFewBefore(required: int, now: Time, run: seq<Event>, ps: seq<Pool>, n: nat)
    requires n <= |run| && n <= |ps|
  {
    forall i {:trigger TooFew(required, now, run, ps, i)} :: 0 <= i < n ==> TooFew(required, now, run, ps, i)
  }

  lemma TooFewLonger(required: int, now: Time, run: seq<Event>, ps: seq<Pool>, n: nat, p: Pool)
    requires n < |run| && |ps| == n + 1 && TooFewBefore(required, now, run, ps, n) && TooFew(required, now, run, ps, n)
    ensures TooFewBefore(required, now, run, ps + [p], n + 1)
  {
    forall i | 0 <= i < n + 1 ensures TooFew(required, now, run, ps + [p], i) {
      assert TooFew(required, now, run, ps, i);
      assert (ps + [p])[i] == ps[i];
    }
  }

  lemma StepKeepsInv(cfg: Settings, p: Pool, e: Event, clock: Time)
    requires Inv(cfg, p, clock) && clock <= e.at
    ensures Inv(cfg, Step(cfg, p, e), Ends(e))
  {
    InvLater(cfg, p, clock, e.at);
    match e.op {
      case GetNext => NextKeepsInv(cfg, p, clock, e.at);
      case RegisterProxy(u) => RegisterKeepsInv(cfg, p, u, e.at);
      case RecordFailure(u, kind, _) => FailKeepsInv(cfg, p, u, kind, FailureTime(e.op, e.at), e.at);
      case RecordSuccess(u) => SucceedKeepsInv(cfg, p, u, e.at);
      case RehabilitateHistory(kinds) => RehabilitateKeepsInv(cfg, p, kinds, e.at);
      case FetchProxies(reply, _) =>
        FetchKeepsInv(cfg, p, e.at, reply, Ends(e), e.at);
        InvLater(cfg, Step(cfg, p, e), e.at, Ends(e));
      case ResetProxies(clear) => ResetKeepsInv(cfg, p, clear, e.at);
      case StartBatch =>
      case GetMetrics =>
    }
  }

  lemma ChainIsBehaviour(cfg: Settings, clock: Time, run: seq<Event>, n: nat, ps: seq<Pool>)
    requires Timely(clock, run) && n <= |run| && |ps| == n + 1 && Chain(cfg, run, ps, n)
    ensures Behaviour(cfg, clock, run[..n], ps)
  {
    TimelyPrefix(clock, run, n);
    var init := run[..n];
    forall i | 0 <= i < n ensures Follows(cfg, init, ps, i) {
      assert Follows(cfg, run, ps, i);
    }
  }

  /** Every timely run has its behaviour, from any pool. */
  lemma BehaviourExists(cfg: Settings, clock: Time, run: seq<Event>, p: Pool) returns (ps: seq<Pool>)
    requires Timely(clock, run)
    ensures Behaviour(cfg, clock, run, ps) && ps[0] == p
  {
    ps := [p];
    var n := 0;
    while n < |run|
      invariant n <= |run| && |ps| == n + 1 && ps[0] == p && Chain(cfg, run, ps, n)
    {
      LongerChain(cfg, run, ps, n, Step(cfg, ps[n], run[n]));
      ps := ps + [Step(cfg, ps[n], run[n])];
      n := n + 1;
    }
  }

  /** The representation invariant, the coupling of every record and the tally order hold all through every run. */
  lemma {:induction false} RunKeepsInv(cfg: Settings, clock: Time, run: seq<Event>, ps: seq<Pool>, n: nat)
    requires Behaviour(cfg, clock, run, ps) && n <= |run|
    requires Inv(cfg, ps[0], clock)
    ensures Inv(cfg, ps[n], ClockAt(clock, run, n))
  {
    if n > 0 {
      RunKeepsInv(cfg, clock, run, ps, n - 1);
      assert Follows(cfg, run, ps, n - 1);
      StepKeepsInv(cfg, ps[n - 1], run[n - 1], ClockAt(clock, run, n - 1));
    }
  }

  /** However many fetches follow one another, the line only grows and whoever was active still is. */
  lemma {:induction false} FetchesKeepActive(cfg: Settings, clock: Time, run: seq<Event>, ps: seq<Pool>, n: nat,
                                             t: Time)
    requires Behaviour(cfg, clock, run, ps) && n <= |run| && Inv(cfg, ps[0], clock)
    requires forall i :: 0 <= i < |run| ==> run[i].op.FetchProxies?
    ensures ps[0].queue <= ps[n].queue
    ensures ActiveSet(ps[0], t) <= ActiveSet(ps[n], t)
  {
    if n > 0 {
      FetchesKeepActive(cfg, clock, run, ps, n - 1, t);
      RunKeepsInv(cfg, clock, run, ps, n - 1);
      var e := run[n - 1];
      FetchKeepsActive(cfg, ps[n - 1], e.at, e.op.reply, Ends(e), ClockAt(clock, run, n - 1), t);
      assert Follows(cfg, run, ps, n - 1);
    }
  }

  lemma EmptyInv(cfg: Settings, clock: Time)
    ensures Inv(cfg, EMPTY, clock)
  {
  }

  /** Soft-ban spacing over whole runs: whatever came before, a hand-out respects the ban of what it hands out. */
  lemma SoftBanSpacing(cfg: Settings, clock: Time, run: seq<Event>, ps: seq<Pool>, i: nat)
    requires Behaviour(cfg, clock, run, ps) && ps[0] == EMPTY
    requires i < |run| && run[i].op.GetNext? && Next(ps[i], run[i].at).1.Some?
    ensures var u := Next(ps[i], run[i].at).1.value;
      && u in ps[i].records
      && ps[i].records[u].failures < cfg.HardThreshold()
      && (ps[i].records[u].failures >= cfg.SoftThreshold() ==>
            && ps[i].records[u].lastFailedAt.Some?
            && run[i].at >= ps[i].records[u].lastFailedAt.value + cfg.Ttl())
  {
    EmptyInv(cfg, clock);
    RunKeepsInv(cfg, clock, run, ps, i);
    HandedOutAfterTtl(cfg, ps[i], ClockAt(clock, run, i), run[i].at);
    assert RecordOk(cfg, ps[i].records[Next(ps[i], run[i].at).1.value], ClockAt(clock, run, i));
  }

  // ---------- failures are conserved ----------

  function FailureSum(keys: seq<Proxy>, records: map<Proxy, Record>): nat {
    if keys == [] then 0 else
    var u := keys[|keys| - 1];
    FailureSum(keys[..|keys| - 1], records) + (if u in records then records[u].failures else 0)
  }

  /** What one event forgives: the decay of a success, and everything a rehabilitation wipes. */
  function ForgivenBy(cfg: Settings, p: Pool, e: Event): nat {
    match e.op
    case RecordSuccess(u) =>
      if RecordOf(p, u).hardBanned then 0 else Min(cfg.Decay(), RecordOf(p, u).failures)
    case RehabilitateHistory(kinds) => TargetedSum(p.order, p.records, kinds)
    case _ => 0
  }

  function TargetedSum(keys: seq<Proxy>, records: map<Proxy, Record>, kinds: set<FailureType>): nat {
    if keys == [] then 0 else
    var u := keys[|keys| - 1];
    TargetedSum(keys[..|keys| - 1], records, kinds) +
    (if u in records && Targeted(records[u], kinds) then records[u].failures else 0)
  }

  /** The failures forgiven in the first `n` events; wiping the history starts the account afresh. */
  ghost function Forgiven(cfg: Settings, run: seq<Event>, ps: seq<Pool>, n: nat): nat
    requires |ps| == |run| + 1 && n <= |run|
  {
    if n == 0 || run[n - 1].op == ResetProxies(true) then 0
    else Forgiven(cfg, run, ps, n - 1) + ForgivenBy(cfg, ps[n - 1], run[n - 1])
  }

  lemma {:induction false} FailureSumUntouched(keys: seq<Proxy>, a: map<Proxy, Record>, b: map<Proxy, Record>)
    requires forall u :: u in keys ==> u in a && u in b && a[u].failures == b[u].failures
    ensures FailureSum(keys, a) == FailureSum(keys, b)
  {
    if keys != [] {
      FailureSumUntouched(keys[..|keys| - 1], a, b);
      assert keys[|keys| - 1] in keys;
    }
  }

  lemma {:induction false} FailureSumPut(keys: seq<Proxy>, records: map<Proxy, Record>, u: Proxy, r: Record)
    requires Distinct(keys) && u in keys && forall v :: v in keys ==> v in records
    ensures FailureSum(keys, records[u := r]) ==
            FailureSum(keys, records) - records[u].failures + r.failures
  {
    var init, last := keys[..|keys| - 1], keys[|keys| - 1];
    assert keys == init + [last];
    if last == u {
      assert u !in init;
      FailureSumUntouched(init, records, records[u := r]);
    } else {
      FailureSumPut(init, records, u, r);
    }
  }

  lemma PutSum(p: Pool, u: Proxy, r: Record)
    requires Shape(p)
    ensures var q := Put(p, u, r);
      FailureSum(q.order, q.records) == FailureSum(p.order, p.records) - RecordOf(p, u).failures + r.failures
  {
    var q := Put(p, u, r);
    if u in p.records {
      FailureSumPut(p.order, p.records, u, r);
    } else {
      assert q.order[..|q.order| - 1] == p.order;
      FailureSumUntouched(p.order, p.records, q.records);
    }
  }

  lemma {:induction false} RehabilitatedSum(keys: seq<Proxy>, records: map<Proxy, Record>, kinds: set<FailureType>)
    requires forall v :: v in keys ==> v in records
    ensures FailureSum(keys, map u | u in records :: if Targeted(records[u], kinds) then CLEAN else records[u]) ==
            FailureSum(keys, records) - TargetedSum(keys, records, kinds)
  {
    if keys != [] {
      RehabilitatedSum(keys[..|keys| - 1], records, kinds);
      assert keys[|keys| - 1] in keys;
    }
  }

  ghost predicate Balanced(p: Pool, forgiven: nat) {
    Total(p.lifetime) == FailureSum(p.order, p.records) + forgiven
  }

  lemma FailBalances(cfg: Settings, p: Pool, u: Proxy, kind: FailureType, at: Time, forgiven: nat)
    requires Shape(p) && Balanced(p, forgiven)
    ensures Balanced(Fail(cfg, p, u, kind, at), forgiven)
  {
    PutSum(p, u, Failed(cfg, RecordOf(p, u), kind, at));
    BumpedTotal(p.lifetime, kind);
    FailFields(cfg, p, u, kind, at);
  }

  lemma FailFields(cfg: Settings, p: Pool, u: Proxy, kind: FailureType, at: Time)
    ensures var q := Put(p, u, Failed(cfg, RecordOf(p, u), kind, at));
      && Fail(cfg, p, u, kind, at).order == q.order
      && Fail(cfg, p, u, kind, at).records == q.records
      && Fail(cfg, p, u, kind, at).lifetime == Bumped(p.lifetime, kind)
      && Failed(cfg, RecordOf(p, u), kind, at).failures == RecordOf(p, u).failures + 1
  {
  }

  lemma BumpedTotal(t: Tally, kind: FailureType)
    ensures Total(Bumped(t, kind)) == Total(t) + 1
  {
    assert forall k: FailureType :: k != kind ==> Count(Bumped(t, kind), k) == Count(t, k);
    match kind { case _ => }
  }

  lemma SucceedBalances(cfg: Settings, p: Pool, u: Proxy, forgiven: nat)
    requires Shape(p) && Balanced(p, forgiven)
    ensures Balanced(Succeed(cfg, p, u), forgiven +
                     if RecordOf(p, u).hardBanned then 0 else Min(cfg.Decay(), RecordOf(p, u).failures))
  {
    PutSum(p, u, Succeeded(cfg, RecordOf(p, u)));
  }

  lemma NextBalances(p: Pool, now: Time, forgiven: nat)
    requires Shape(p) && Balanced(p, forgiven)
    ensures Balanced(Next(p, now).0, forgiven)
  {
    FailureSumUntouched(p.order, p.records, Release(p, now).records);
  }

  lemma {:induction false} RehabilitateBalances(p: Pool, kinds: set<FailureType>, forgiven: nat)
    requires Shape(p) && Balanced(p, forgiven)
    ensures Balanced(Rehabilitate(p, kinds), forgiven + TargetedSum(p.order, p.records, kinds))
  {
    RehabilitatedSum(p.order, p.records, kinds);
  }

  lemma EnsuredBalances(p: Pool, u: Proxy, forgiven: nat)
    requires Shape(p) && Balanced(p, forgiven)
    ensures Balanced(Ensured(p, u), forgiven)
  {
    PutSum(p, u, RecordOf(p, u));
  }

  lemma AdmitBalances(cfg: Settings, p: Pool, c: Candidate, forgiven: nat)
    requires Shape(p) && Balanced(p, forgiven)
    ensures Balanced(Admit(cfg, p, c), forgiven)
  {
    var q := Ensured(p, c.url);
    PutShape(p, c.url, CLEAN);
    EnsuredBalances(p, c.url, forgiven);
    if Judge(p, c) == Unhealthy {
      FailBalances(cfg, q, c.url, Network, c.checkedAt, forgiven);
    }
  }

  lemma {:induction false} AdmitAllBalances(cfg: Settings, p: Pool, cs: seq<Candidate>, forgiven: nat)
    requires Shape(p) && Balanced(p, forgiven)
    ensures Balanced(AdmitAll(cfg, p, cs).pool, forgiven)
  {
    if cs != [] {
      var init, c := cs[..|cs| - 1], cs[|cs| - 1];
      AdmitAllBalances(cfg, p, init, forgiven);
      AdmitAllKeepsShape(cfg, p, init);
      AdmitBalances(cfg, AdmitAll(cfg, p, init).pool, c, forgiven);
    }
  }

  lemma FetchBalances(cfg: Settings, p: Pool, startedAt: Time, reply: Reply, finishedAt: Time, forgiven: nat)
    requires Shape(p) && Balanced(p, forgiven)
    ensures Balanced(Fetch(cfg, p, startedAt, reply, finishedAt), forgiven)
  {
    if reply.Listing? { AdmitAllBalances(cfg, p, reply.candidates, forgiven); }
  }

  lemma StepBalances(cfg: Settings, p: Pool, e: Event, forgiven: nat)
    requires Shape(p) && Balanced(p, forgiven)
    ensures Balanced(Step(cfg, p, e),
                     if e.op == ResetProxies(true) then 0 else forgiven + ForgivenBy(cfg, p, e))
  {
    hide Shape, Fail, Fetch, Rehabilitate;
    match e.op {
      case GetNext => NextBalances(p, e.at, forgiven);
      case RegisterProxy(u) => EnsuredBalances(p, u, forgiven);
      case RecordFailure(u, kind, _) => FailBalances(cfg, p, u, kind, FailureTime(e.op, e.at), forgiven);
      case RecordSuccess(u) => SucceedBalances(cfg, p, u, forgiven);
      case RehabilitateHistory(kinds) => RehabilitateBalances(p, kinds, forgiven);
      case FetchProxies(reply, _) => FetchBalances(cfg, p, e.at, reply, Ends(e), forgiven);
      case ResetProxies(clear) =>
      case StartBatch =>
      case GetMetrics =>
    }
  }

  /** Failure conservation: every failure ever counted is still on a record or was forgiven. */
  lemma {:induction false} FailuresConserved(cfg: Settings, clock: Time, run: seq<Event>, ps: seq<Pool>, n: nat)
    requires Behaviour(cfg, clock, run, ps) && ps[0] == EMPTY && n <= |run|
    ensures Balanced(ps[n], Forgiven(cfg, run, ps, n))
  {
    if n > 0 {
      FailuresConserved(cfg, clock, run, ps, n - 1);
      EmptyInv(cfg, clock);
      RunKeepsInv(cfg, clock, run, ps, n - 1);
      assert Follows(cfg, run, ps, n - 1);
      StepBalances(cfg, ps[n - 1], run[n - 1], Forgiven(cfg, run, ps, n - 1));
    }
  }
}
