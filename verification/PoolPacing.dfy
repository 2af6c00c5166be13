/** How often the proxy source may be asked. */
module PoolPacing {
  import opened Options
  import opened ProxyPool
  import opened PoolRuns

  /** The event sends a request to the source. */
  predicate Requests(p: Pool, e: Event) {
    e.op.FetchProxies? && !OnCooldown(p.source, e.at)
  }

  /** The event sends a request that yields no new proxy. */
  predicate FailedFetch(cfg: Settings, p: Pool, e: Event) {
    Requests(p, e) && Taken(cfg, p, e.op.reply).added == 0
  }

  predicate Activates(cfg: Settings, p: Pool, e: Event) {
    FailedFetch(cfg, p, e) && p.source.consecutiveFailures + 1 >= cfg.SourceThreshold()
  }

  /** How many of the events from `i` up to `j` are failed fetches. */
  ghost function FailedFetches(cfg: Settings, run: seq<Event>, ps: seq<Pool>, i: nat, j: nat): nat
    requires |ps| == |run| + 1 && i <= j <= |run|
    decreases j
  {
    if i == j then 0 else
    FailedFetches(cfg, run, ps, i, j - 1) + (if FailedFetch(cfg, ps[j - 1], run[j - 1]) then 1 else 0)
  }

  lemma {:induction false} AdmitAllKeepsSource(cfg: Settings, p: Pool, cs: seq<Candidate>)
    ensures AdmitAll(cfg, p, cs).pool.source == p.source
  {
    if cs != [] {
      AdmitAllKeepsSource(cfg, p, cs[..|cs| - 1]);
      AdmitKeepsSource(cfg, AdmitAll(cfg, p, cs[..|cs| - 1]).pool, cs[|cs| - 1]);
    }
  }

  lemma AdmitKeepsSource(cfg: Settings, p: Pool, c: Candidate)
    ensures Admit(cfg, p, c).source == p.source
  {
  }

  /** What a fetch makes of the source's state. */
  lemma FetchSource(cfg: Settings, p: Pool, e: Event)
    requires e.op.FetchProxies?
    ensures Step(cfg, p, e).source ==
            if !Requests(p, e) then p.source
            else if Activates(cfg, p, e) then Source(0, Some(Ends(e) + cfg.Cooldown()))
            else if FailedFetch(cfg, p, e) then Source(p.source.consecutiveFailures + 1, p.source.cooldownUntil)
            else FRESH_SOURCE
  {
    if e.op.reply.Listing? {
      AdmitAllKeepsSource(cfg, p, e.op.reply.candidates);
    }
    assert Step(cfg, p, e) == Fetch(cfg, p, e.at, e.op.reply, Ends(e));
  }

  lemma OthersLeaveSource(cfg: Settings, p: Pool, e: Event)
    requires !e.op.FetchProxies? && e.op != ResetProxies(true)
    ensures Step(cfg, p, e).source == p.source
  {
  }

  /** The source remembers a cooldown until it is over, and has seen at most `n` failures in a row. */
  ghost predicate Remembers(s: Source, until: Time, n: nat, clock: Time) {
    s.consecutiveFailures <= n && (s.cooldownUntil == Some(until) || until <= clock)
  }

  lemma StepRemembers(cfg: Settings, p: Pool, e: Event, clock: Time, until: Time, n: nat)
    requires clock <= e.at && e.op != ResetProxies(true)
    requires Remembers(p.source, until, n, clock)
    ensures Remembers(Step(cfg, p, e).source, until, n + if FailedFetch(cfg, p, e) then 1 else 0, Ends(e))
  {
    if e.op.FetchProxies? {
      FetchSource(cfg, p, e);
    } else {
      OthersLeaveSource(cfg, p, e);
    }
  }

  /** From an activation on, the source state remembers the cooldown until it is over, and counts from zero. */
  lemma {:induction false} SinceActivation(cfg: Settings, clock: Time, run: seq<Event>, ps: seq<Pool>, i: nat, j: nat)
    requires Behaviour(cfg, clock, run, ps) && i < j <= |run|
    requires Activates(cfg, ps[i], run[i])
    requires forall k :: i < k < j ==> run[k].op != ResetProxies(true)
    ensures Remembers(ps[j].source, Ends(run[i]) + cfg.Cooldown(),
                      FailedFetches(cfg, run, ps, i + 1, j), ClockAt(clock, run, j))
    decreases j
  {
    assert Follows(cfg, run, ps, j - 1);
    if i < j - 1 {
      SinceActivation(cfg, clock, run, ps, i, j - 1);
      StepRemembers(cfg, ps[j - 1], run[j - 1], ClockAt(clock, run, j - 1), Ends(run[i]) + cfg.Cooldown(),
                    FailedFetches(cfg, run, ps, i + 1, j - 1));
    } else {
      FetchSource(cfg, ps[i], run[i]);
    }
  }

  /** Cooldown pacing: after an activation the source is not asked again before the cooldown has passed, and
      the next activation needs a full threshold of failed fetches of its own. */
  lemma {:induction false} CooldownPacing(cfg: Settings, clock: Time, run: seq<Event>, ps: seq<Pool>, i: nat, j: nat)
    requires Behaviour(cfg, clock, run, ps) && i < j < |run|
    requires Activates(cfg, ps[i], run[i])
    requires forall k :: i < k < j ==> run[k].op != ResetProxies(true)
    ensures Requests(ps[j], run[j]) ==> run[j].at >= Ends(run[i]) + cfg.Cooldown()
    ensures Activates(cfg, ps[j], run[j]) ==>
              && Ends(run[j]) >= Ends(run[i]) + cfg.Cooldown()
              && FailedFetches(cfg, run, ps, i + 1, j + 1) >= cfg.SourceThreshold()
  {
    SinceActivation(cfg, clock, run, ps, i, j);
    assert ClockAt(clock, run, j) <= run[j].at;
  }
}
