/** The failure counters, told from the events alone. */
module PoolTallies {
  import opened ProxyPool
  import opened PoolLaws
  import opened PoolRuns
  import opened PoolSource
  import opened PoolStandings

  /** The proxies of a page that are neither in line nor out and were found unhealthy. */
  function BlamedCount(p: Pool, cs: seq<Candidate>): nat {
    if cs == [] then 0 else
    var c := cs[|cs| - 1];
    BlamedCount(p, cs[..|cs| - 1]) +
    (if !c.healthy && c.url !in p.members && !RecordOf(p, c.url).hardBanned then 1 else 0)
  }

  /** The failures of a kind that event `i` reports: the one a crawler reports, of its own kind, and one network failure
      for each proxy blamed by a page taken in. */
  ghost function ReportedIn(cfg: Settings, run: seq<Event>, ps: seq<Pool>, i: nat, kind: FailureType): nat
    requires |ps| == |run| + 1 && i < |run|
  {
    match run[i].op
    case RecordFailure(_, k, _) => if k == kind then 1 else 0
    case FetchProxies(reply, _) =>
      if reply.Listing? && kind == Network && Asks(cfg, run, ps, i) then BlamedCount(ps[i], reply.candidates) else 0
    case _ => 0
  }

  /** All of them in the first `n` events, since the history was last wiped and, for a batch, since one last began. */
  ghost function Reported(cfg: Settings, run: seq<Event>, ps: seq<Pool>, kind: FailureType, ofBatch: bool, n: nat): nat
    requires |ps| == |run| + 1 && n <= |run|
  {
    if n == 0 || run[n - 1].op == ResetProxies(true) || (ofBatch && run[n - 1].op == StartBatch) then 0
    else Reported(cfg, run, ps, kind, ofBatch, n - 1) + ReportedIn(cfg, run, ps, n - 1, kind)
  }

  /** The tallies of `q` are those of `p` and so many more of a kind. */
  ghost predicate Tallied(p: Pool, q: Pool, kind: FailureType, more: nat) {
    Count(q.lifetime, kind) == Count(p.lifetime, kind) + more && Count(q.batch, kind) == Count(p.batch, kind) + more
  }

  lemma FailTallies(cfg: Settings, p: Pool, u: Proxy, k: FailureType, at: Time, kind: FailureType)
    ensures Tallied(p, Fail(cfg, p, u, k, at), kind, if k == kind then 1 else 0)
  {
  }

  lemma AdmitTallies(cfg: Settings, p: Pool, c: Candidate, kind: FailureType)
    ensures Tallied(p, Admit(cfg, p, c), kind, if kind == Network && Judge(p, c) == Unhealthy then 1 else 0)
  {
    if Judge(p, c) == Unhealthy { FailTallies(cfg, Ensured(p, c.url), c.url, Network, c.checkedAt, kind); }
  }

  lemma {:induction false} PageTallies(cfg: Settings, p: Pool, cs: seq<Candidate>, kind: FailureType)
    requires DistinctUrls(cs)
    ensures Tallied(p, AdmitAll(cfg, p, cs).pool, kind, if kind == Network then BlamedCount(p, cs) else 0)
  {
    hide Admit;
    if cs != [] {
      var init, c := cs[..|cs| - 1], cs[|cs| - 1];
      PageTallies(cfg, p, init, kind);
      AdmitTallies(cfg, AdmitAll(cfg, p, init).pool, c, kind);
      AdmitAllLeavesOthers(cfg, p, init, c.url);
    }
  }

  lemma StepTallies(cfg: Settings, run: seq<Event>, ps: seq<Pool>, n: nat, kind: FailureType)
    requires |ps| == |run| + 1 && n < |run| && Follows(cfg, run, ps, n) && NoRepeats(run)
    requires run[n].op.FetchProxies? && !Asks(cfg, run, ps, n) ==> ps[n + 1] == ps[n]
    requires run[n].op.FetchProxies? && Asks(cfg, run, ps, n) ==>
               ps[n + 1] == Taken(cfg, ps[n], run[n].op.reply).pool.(source := ps[n + 1].source)
    requires run[n].op != ResetProxies(true) && run[n].op != StartBatch
    ensures Tallied(ps[n], ps[n + 1], kind, ReportedIn(cfg, run, ps, n, kind))
  {
    hide AdmitAll, Asks, Next, Fail, Succeed, Rehabilitate, Fetch, BlamedCount, Count;
    var p, e := ps[n], run[n];
    match e.op {
      case RecordFailure(v, k, _) => FailTallies(cfg, p, v, k, FailureTime(e.op, e.at), kind);
      case FetchProxies(reply, _) => if reply.Listing? { PageTallies(cfg, p, reply.candidates, kind); }
      case RecordSuccess(v) => SameTallies(cfg, p, e);
      case RehabilitateHistory(_) => SameTallies(cfg, p, e);
      case GetNext => SameTallies(cfg, p, e);
      case _ =>
    }
  }

  lemma SameTallies(cfg: Settings, p: Pool, e: Event)
    requires e.op.RecordSuccess? || e.op.RehabilitateHistory? || e.op.GetNext?
    ensures Step(cfg, p, e).lifetime == p.lifetime && Step(cfg, p, e).batch == p.batch
  {
  }

  lemma StartReportsNothing(cfg: Settings, run: seq<Event>, ps: seq<Pool>, i: nat, kind: FailureType)
    requires |ps| == |run| + 1 && i < |run| && run[i].op == StartBatch
    ensures ReportedIn(cfg, run, ps, i, kind) == 0
  {
  }

  /** In every run the counters hold, of each kind, the failures reported since the history was last wiped and, for the
      batch, since it began. */
  lemma {:induction false} TalliesCount(cfg: Settings, clock: Time, run: seq<Event>, ps: seq<Pool>, kind: FailureType,
                                        n: nat)
    requires Behaviour(cfg, clock, run, ps) && ps[0] == EMPTY && n <= |run| && NoRepeats(run)
    ensures Count(ps[n].lifetime, kind) == Reported(cfg, run, ps, kind, false, n)
    ensures Count(ps[n].batch, kind) == Reported(cfg, run, ps, kind, true, n)
  {
    hide Asks, Taken, NoRepeats, ReportedIn;
    if n > 0 {
      TalliesCount(cfg, clock, run, ps, kind, n - 1);
      assert Follows(cfg, run, ps, n - 1);
      if run[n - 1].op.FetchProxies? { FetchTakesIn(cfg, clock, run, ps, n - 1); }
      if run[n - 1].op == StartBatch {
        StartReportsNothing(cfg, run, ps, n - 1, kind);
      } else if run[n - 1].op != ResetProxies(true) {
        StepTallies(cfg, run, ps, n - 1, kind);
      }
    }
  }

  /** A rate is the share of its kind: that part of all failures counted. */
  lemma RateIsShare(t: Tally, kind: FailureType)
    ensures Rate(t, kind) * Total(t) as real == Count(t, kind) as real
    ensures Total(t) == 0 ==> Rate(t, kind) == 0.0
    ensures Total(t) >= Count(t, kind)
  {
    match kind { case _ => }
  }
}
