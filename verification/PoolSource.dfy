/** When the proxy source is asked, told from the events alone and in the numbers of the settings. */
module PoolSource {
  import opened Options
  import opened ProxyPool
  import opened PoolInvariant
  import opened PoolLaws
  import opened PoolRuns
  import opened PoolPacing

  /** What the source has been through: the fruitless requests in a row, and the event that last sent it to rest, unless
      a request has borne fruit or the history has been wiped since. */
  datatype Past = Past(streak: nat, activation: Option<nat>)

  /** The event made the line longer. */
  ghost predicate Fruitful(ps: seq<Pool>, i: nat)
    requires i + 1 < |ps|
  {
    |ps[i].queue| < |ps[i + 1].queue|
  }

  /** The rest that event `k` began lasts the configured seconds, at least one, from the moment the fetch ended. */
  function RestUntil(cfg: Settings, run: seq<Event>, k: nat): Time
    requires k < |run|
  {
    Ends(run[k]) + (if cfg.sourceCooldownSeconds < 1 then 1 else cfg.sourceCooldownSeconds) * 1_000_000
  }

  ghost predicate Resting(cfg: Settings, run: seq<Event>, past: Past, now: Time) {
    past.activation.Some? && past.activation.value < |run| && now < RestUntil(cfg, run, past.activation.value)
  }

  ghost function PastAt(cfg: Settings, run: seq<Event>, ps: seq<Pool>, n: nat): Past
    requires |ps| == |run| + 1 && n <= |run|
  {
    if n == 0 then Past(0, None) else
    var past, e := PastAt(cfg, run, ps, n - 1), run[n - 1];
    if e.op == ResetProxies(true) then Past(0, None)
    else if !e.op.FetchProxies? || Resting(cfg, run, past, e.at) then past
    else if Fruitful(ps, n - 1) then Past(0, None)
    else if past.streak + 1 < (if cfg.sourceFailureThreshold < 1 then 1 else cfg.sourceFailureThreshold)
    then past.(streak := past.streak + 1)
    else Past(0, Some(n - 1))
  }

  /** Event `i` asks the source: it is a fetch, and the source is not resting. */
  ghost predicate Asks(cfg: Settings, run: seq<Event>, ps: seq<Pool>, i: nat)
    requires |ps| == |run| + 1 && i < |run|
  {
    run[i].op.FetchProxies? && !Resting(cfg, run, PastAt(cfg, run, ps, i), run[i].at)
  }

  /** What the activation that counts is: a fruitless request that completed a streak, since when no request has borne
      fruit or completed another streak and the history has not been wiped. */
  lemma {:induction false} LastActivation(cfg: Settings, run: seq<Event>, ps: seq<Pool>, n: nat)
    requires |ps| == |run| + 1 && n <= |run| && PastAt(cfg, run, ps, n).activation.Some?
    ensures var k := PastAt(cfg, run, ps, n).activation.value;
      && k < n && Asks(cfg, run, ps, k) && !Fruitful(ps, k)
      && PastAt(cfg, run, ps, k).streak + 1 >= cfg.sourceFailureThreshold
      && (forall j :: k < j < n ==> run[j].op != ResetProxies(true) && (Asks(cfg, run, ps, j) ==> !Fruitful(ps, j)))
      && (forall j :: k < j <= n ==> PastAt(cfg, run, ps, j).activation == Some(k))
  {
    if PastAt(cfg, run, ps, n - 1).activation.Some? {
      LastActivation(cfg, run, ps, n - 1);
    }
  }

  /** The state the manager keeps is the source's past. */
  ghost predicate Kept(cfg: Settings, run: seq<Event>, s: Source, past: Past) {
    && s.consecutiveFailures == past.streak
    && (past.activation.None? ==> s.cooldownUntil.None?)
    && (past.activation.Some? ==>
          past.activation.value < |run| && s.cooldownUntil == Some(RestUntil(cfg, run, past.activation.value)))
  }

  lemma FruitfulIff(cfg: Settings, p: Pool, e: Event, clock: Time)
    requires Inv(cfg, p, clock) && e.op.FetchProxies? && !OnCooldown(p.source, e.at)
    ensures |p.queue| < |Step(cfg, p, e).queue| <==> Taken(cfg, p, e.op.reply).added > 0
  {
    if e.op.reply.Listing? { CollectionOnlyAdds(cfg, p, e.op.reply.candidates); }
  }

  lemma StepKept(cfg: Settings, run: seq<Event>, ps: seq<Pool>, n: nat, clock: Time)
    requires |ps| == |run| + 1 && n < |run| && Follows(cfg, run, ps, n) && Inv(cfg, ps[n], clock)
    requires Kept(cfg, run, ps[n].source, PastAt(cfg, run, ps, n))
    ensures Kept(cfg, run, ps[n + 1].source, PastAt(cfg, run, ps, n + 1))
  {
    hide Inv, AdmitAll;
    var e := run[n];
    if e.op.FetchProxies? {
      FetchSource(cfg, ps[n], e);
      if !OnCooldown(ps[n].source, e.at) { FruitfulIff(cfg, ps[n], e, clock); }
    } else if e.op != ResetProxies(true) {
      OthersLeaveSource(cfg, ps[n], e);
    }
  }

  lemma {:induction false} SourceKept(cfg: Settings, clock: Time, run: seq<Event>, ps: seq<Pool>, n: nat)
    requires Behaviour(cfg, clock, run, ps) && ps[0] == EMPTY && n <= |run|
    ensures Kept(cfg, run, ps[n].source, PastAt(cfg, run, ps, n))
  {
    hide Kept, Step, Inv;
    if n == 0 {
      NothingKept(cfg, run);
    } else {
      SourceKept(cfg, clock, run, ps, n - 1);
      EmptyInv(cfg, clock);
      RunKeepsInv(cfg, clock, run, ps, n - 1);
      assert Follows(cfg, run, ps, n - 1);
      StepKept(cfg, run, ps, n - 1, ClockAt(clock, run, n - 1));
    }
  }

  lemma NothingKept(cfg: Settings, run: seq<Event>)
    ensures Kept(cfg, run, EMPTY.source, Past(0, None))
  {
  }

  /** A fetch takes in its reply if and only if the source is not resting: before the rest is over nothing changes, and
      from that moment on the line and the records become what the reply makes of them. */
  lemma {:induction false} FetchTakesIn(cfg: Settings, clock: Time, run: seq<Event>, ps: seq<Pool>, i: nat)
    requires Behaviour(cfg, clock, run, ps) && ps[0] == EMPTY && i < |run| && run[i].op.FetchProxies?
    ensures !Asks(cfg, run, ps, i) ==> ps[i + 1] == ps[i]
    ensures Asks(cfg, run, ps, i) ==>
              ps[i + 1] == Taken(cfg, ps[i], run[i].op.reply).pool.(source := ps[i + 1].source)
  {
    hide AdmitAll, PastAt;
    SourceKept(cfg, clock, run, ps, i);
    assert Follows(cfg, run, ps, i);
  }

  /** A candidate that is healthy, outside the pool and not hard-banned joins the line if and only if the source is not
      resting. */
  lemma {:induction false} CandidateJoinsIff(cfg: Settings, clock: Time, run: seq<Event>, ps: seq<Pool>, i: nat, n: nat)
    requires Behaviour(cfg, clock, run, ps) && ps[0] == EMPTY && i < |run|
    requires run[i].op.FetchProxies? && run[i].op.reply.Listing? && DistinctUrls(run[i].op.reply.candidates)
    requires var cs := run[i].op.reply.candidates;
      && n < |cs| && cs[n].healthy && cs[n].url !in ps[i].queue
      && (cs[n].url in ps[i].records ==> !ps[i].records[cs[n].url].hardBanned)
    ensures run[i].op.reply.candidates[n].url in ps[i + 1].queue <==> Asks(cfg, run, ps, i)
  {
    hide AdmitAll, PastAt, Asks;
    var cs := run[i].op.reply.candidates;
    FetchTakesIn(cfg, clock, run, ps, i);
    EmptyInv(cfg, clock);
    RunKeepsInv(cfg, clock, run, ps, i);
    CollectionPartitions(cfg, ps[i], cs, ClockAt(clock, run, i));
    JudgedHas(ps[i], cs, n);
  }

  lemma {:induction false} JudgedHas(p: Pool, cs: seq<Candidate>, n: nat)
    requires n < |cs|
    ensures cs[n].url in Judged(p, cs, Judge(p, cs[n]))
  {
    if n + 1 < |cs| { JudgedHas(p, cs[..|cs| - 1], n); }
  }
}
