/** A ban once set: how long it lasts, whatever happens to others, and what may end it. */
module PoolBans {
  import opened Options
  import opened ProxyPool
  import opened PoolInvariant
  import opened PoolLaws
  import opened PoolRuns

  /** The page lists `u` as unhealthy, and the pool has reason to mind: it is neither in line nor hard-banned. */
  predicate Blamed(p: Pool, cs: seq<Candidate>, u: Proxy) {
    && u !in p.members && !RecordOf(p, u).hardBanned
    && exists i :: 0 <= i < |cs| && cs[i].url == u && !cs[i].healthy
  }

  /** The event changes what is remembered of `u`'s failures. */
  predicate Touches(cfg: Settings, p: Pool, e: Event, u: Proxy) {
    match e.op
    case RecordFailure(v, _, _) => v == u
    case RecordSuccess(v) => v == u && !RecordOf(p, u).hardBanned
    case RehabilitateHistory(kinds) => Targeted(RecordOf(p, u), kinds)
    case FetchProxies(reply, _) => reply.Listing? && !OnCooldown(p.source, e.at) && Blamed(p, reply.candidates, u)
    case ResetProxies(clear) => clear
    case _ => false
  }

  /** Working through a page that gives no reason to blame `u` leaves its record, and its place in the pool. */
  lemma {:induction false} AdmitAllSpares(cfg: Settings, p: Pool, cs: seq<Candidate>, u: Proxy)
    requires u in p.records && !Blamed(p, cs, u)
    ensures var q := AdmitAll(cfg, p, cs).pool;
      u in q.records && q.records[u] == p.records[u] && (u in p.members ==> u in q.members)
  {
    if cs != [] {
      var init, c := cs[..|cs| - 1], cs[|cs| - 1];
      assert forall i :: 0 <= i < |init| ==> init[i] == cs[i];
      AdmitAllSpares(cfg, p, init, u);
      AdmitSpares(cfg, AdmitAll(cfg, p, init).pool, c, u);
    }
  }

  lemma AdmitSpares(cfg: Settings, p: Pool, c: Candidate, u: Proxy)
    requires u in p.records && (c.url == u ==> u in p.members || p.records[u].hardBanned || c.healthy)
    ensures var q := Admit(cfg, p, c);
      u in q.records && q.records[u] == p.records[u] && (u in p.members ==> u in q.members)
  {
  }

  /** Apart from expired bans that a hand-out clears, an event that does not touch a proxy leaves its record. */
  lemma StepLeavesRecord(cfg: Settings, p: Pool, e: Event, u: Proxy)
    requires u in p.records && !Touches(cfg, p, e, u)
    ensures var q := Step(cfg, p, e);
      && u in q.records
      && (q.records[u] == p.records[u] || (e.op.GetNext? && q.records[u] == Released(p.records[u], e.at)))
  {
    hide AdmitAll, Blamed;
    match e.op {
      case FetchProxies(reply, _) =>
        if reply.Listing? && !OnCooldown(p.source, e.at) { AdmitAllSpares(cfg, p, reply.candidates, u); }
      case _ =>
    }
  }

  /** The failure that a page adds to the record of a proxy it lists as unhealthy. */
  ghost predicate Blames(p: Pool, q: Pool, c: Candidate) {
    && c.url in q.records
    && q.records[c.url].failures == RecordOf(p, c.url).failures + 1
    && q.records[c.url].lastFailedAt == Some(c.checkedAt)
  }

  lemma AdmitBlames(cfg: Settings, p: Pool, c: Candidate)
    requires Judge(p, c) == Unhealthy
    ensures Blames(p, Admit(cfg, p, c), c)
  {
    hide Charge;
    FailFields(cfg, Ensured(p, c.url), c.url, Network, c.checkedAt);
  }

  lemma AdmitLeavesRecord(cfg: Settings, p: Pool, c: Candidate, u: Proxy)
    requires c.url != u && u in p.records
    ensures u in Admit(cfg, p, c).records && Admit(cfg, p, c).records[u] == p.records[u]
  {
    AdmitLeavesOthers(cfg, p, c, u);
    AdmitKeepsKeys(cfg, p, c);
  }

  /** A page without repeats that lists a proxy as unhealthy adds that failure to its record. */
  lemma {:induction false} AdmitAllBlames(cfg: Settings, p: Pool, cs: seq<Candidate>, n: nat)
    requires DistinctUrls(cs) && n < |cs| && Judge(p, cs[n]) == Unhealthy
    ensures Blames(p, AdmitAll(cfg, p, cs).pool, cs[n])
  {
    hide Admit;
    var init, c := cs[..|cs| - 1], cs[|cs| - 1];
    if n == |init| {
      AdmitAllLeavesOthers(cfg, p, init, c.url);
      AdmitBlames(cfg, AdmitAll(cfg, p, init).pool, c);
    } else {
      AdmitAllBlames(cfg, p, init, n);
      AdmitLeavesRecord(cfg, AdmitAll(cfg, p, init).pool, c, cs[n].url);
    }
  }

  /** The events that touch a proxy with failures on record are exactly those that change the record, but for the
      clearing of expired bans. */
  lemma TouchesIffChanges(cfg: Settings, p: Pool, e: Event, u: Proxy)
    requires u in p.records && p.records[u].failures > 0 && !e.op.GetNext?
    requires e.op.FetchProxies? && e.op.reply.Listing? ==> DistinctUrls(e.op.reply.candidates)
    ensures Touches(cfg, p, e, u) <==> RecordOf(Step(cfg, p, e), u) != p.records[u]
  {
    hide AdmitAll;
    if !Touches(cfg, p, e, u) {
      StepLeavesRecord(cfg, p, e, u);
    } else {
      match e.op {
        case RecordFailure(_, kind, _) => FailFields(cfg, p, u, kind, FailureTime(e.op, e.at));
        case FetchProxies(reply, _) =>
          var cs := reply.candidates;
          var n :| 0 <= n < |cs| && cs[n].url == u && !cs[n].healthy;
          AdmitAllBlames(cfg, p, cs, n);
        case _ =>
      }
    }
  }

  /** Event `k` touches `u`. */
  ghost predicate TouchedAt(cfg: Settings, run: seq<Event>, ps: seq<Pool>, u: Proxy, k: nat)
    requires k < |run| && k < |ps|
  {
    Touches(cfg, ps[k], run[k], u)
  }

  /** No event from `i` up to `j` touches `u`. */
  ghost predicate Untouched(cfg: Settings, run: seq<Event>, ps: seq<Pool>, u: Proxy, i: nat, j: nat)
    requires j <= |run| && j <= |ps|
  {
    forall k {:trigger TouchedAt(cfg, run, ps, u, k)} :: i <= k < j ==> !TouchedAt(cfg, run, ps, u, k)
  }

  /** A ban that ends at `until` is still set, or its time is over; the failures that led to it stand. */
  ghost predicate BanStands(p: Pool, u: Proxy, until: Time, failures: nat, clock: Time) {
    u in p.records && p.records[u].failures == failures &&
    (p.records[u].softBanUntil == Some(until) || until <= clock)
  }

  lemma {:induction false} BanLasts(cfg: Settings, clock: Time, run: seq<Event>, ps: seq<Pool>, u: Proxy, until: Time,
                                    failures: nat, i: nat, j: nat)
    requires Behaviour(cfg, clock, run, ps) && i <= j <= |run|
    requires BanStands(ps[i], u, until, failures, ClockAt(clock, run, i))
    requires Untouched(cfg, run, ps, u, i, j)
    ensures BanStands(ps[j], u, until, failures, ClockAt(clock, run, j))
  {
    hide Step, Touches;
    if i < j {
      BanLasts(cfg, clock, run, ps, u, until, failures, i, j - 1);
      assert ClockAt(clock, run, j - 1) <= run[j - 1].at;
      assert Follows(cfg, run, ps, j - 1) && !TouchedAt(cfg, run, ps, u, j - 1);
      StepLeavesRecord(cfg, ps[j - 1], run[j - 1], u);
    }
  }

  lemma {:induction false} HardBanLasts(cfg: Settings, clock: Time, run: seq<Event>, ps: seq<Pool>, u: Proxy, i: nat,
                                        j: nat)
    requires Behaviour(cfg, clock, run, ps) && i <= j <= |run|
    requires u in ps[i].records && ps[i].records[u].hardBanned
    requires Untouched(cfg, run, ps, u, i, j)
    ensures u in ps[j].records && ps[j].records[u].hardBanned
  {
    hide Step, Touches;
    if i < j {
      HardBanLasts(cfg, clock, run, ps, u, i, j - 1);
      assert Follows(cfg, run, ps, j - 1) && !TouchedAt(cfg, run, ps, u, j - 1);
      StepLeavesRecord(cfg, ps[j - 1], run[j - 1], u);
    }
  }

  lemma NotWhileBanned(p: Pool, now: Time, u: Proxy)
    requires u in p.records && Next(p, now).1 == Some(u)
    ensures Usable(p.records[u], now)
  {
    var q := Release(p, now);
    FirstUsableMeans(q.queue, q.records, now);
  }

  lemma NeverHardBanned(cfg: Settings, clock: Time, run: seq<Event>, ps: seq<Pool>, u: Proxy, j: nat)
    requires Behaviour(cfg, clock, run, ps) && ps[0] == EMPTY && j < |run|
    requires Next(ps[j], run[j].at).1 == Some(u)
    ensures u in ps[j].records && !ps[j].records[u].hardBanned
  {
    hide Next, RecordOk;
    EmptyInv(cfg, clock);
    RunKeepsInv(cfg, clock, run, ps, j);
    assert ClockAt(clock, run, j) <= run[j].at;
    HandedOutAfterTtl(cfg, ps[j], ClockAt(clock, run, j), run[j].at);
  }

  /** A soft ban holds: whatever event brought a proxy to the soft threshold, from then on the proxy is not handed out
      until the full time has passed since the failure last recorded, unless an event in between changes its record. */
  lemma SoftBanHolds(cfg: Settings, clock: Time, run: seq<Event>, ps: seq<Pool>, u: Proxy, i: nat, j: nat)
    requires Behaviour(cfg, clock, run, ps) && ps[0] == EMPTY && i <= j < |run|
    requires u in ps[i].records && ps[i].records[u].failures >= cfg.SoftThreshold()
    requires Untouched(cfg, run, ps, u, i, j)
    requires run[j].op.GetNext? && Next(ps[j], run[j].at).1 == Some(u)
    ensures ps[i].records[u].lastFailedAt.Some?
    ensures run[j].at >= ps[i].records[u].lastFailedAt.value + cfg.Ttl()
  {
    hide Step, Touches, Untouched, Next;
    assert ClockAt(clock, run, j) <= run[j].at;
    EmptyInv(cfg, clock);
    RunKeepsInv(cfg, clock, run, ps, i);
    NeverHardBanned(cfg, clock, run, ps, u, j);
    var r := ps[i].records[u];
    assert RecordOk(cfg, r, ClockAt(clock, run, i));
    if r.hardBanned {
      HardBanLasts(cfg, clock, run, ps, u, i, j);
    } else {
      BanLasts(cfg, clock, run, ps, u, r.lastFailedAt.value + cfg.Ttl(), r.failures, i, j);
      NotWhileBanned(ps[j], run[j].at, u);
    }
  }

  /** In particular after a failure recorded by a crawler. */
  lemma FailureBans(cfg: Settings, clock: Time, run: seq<Event>, ps: seq<Pool>, u: Proxy, i: nat, j: nat)
    requires Behaviour(cfg, clock, run, ps) && ps[0] == EMPTY && i < j < |run|
    requires run[i].op.RecordFailure? && run[i].op.url == u
    requires RecordOf(ps[i], u).failures + 1 >= cfg.SoftThreshold()
    requires Untouched(cfg, run, ps, u, i + 1, j)
    requires run[j].op.GetNext? && Next(ps[j], run[j].at).1 == Some(u)
    ensures run[j].at >= FailureTime(run[i].op, run[i].at) + cfg.Ttl()
  {
    hide Touches, Untouched, Next;
    assert Follows(cfg, run, ps, i);
    FailFields(cfg, ps[i], u, run[i].op.kind, FailureTime(run[i].op, run[i].at));
    SoftBanHolds(cfg, clock, run, ps, u, i + 1, j);
  }

  /** And after a collection whose page, free of repeats, lists the proxy as unhealthy when it is neither in the pool
      nor hard-banned. */
  lemma CollectionBans(cfg: Settings, clock: Time, run: seq<Event>, ps: seq<Pool>, n: nat, i: nat, j: nat)
    requires Behaviour(cfg, clock, run, ps) && ps[0] == EMPTY && i < j < |run|
    requires run[i].op.FetchProxies? && run[i].op.reply.Listing? && !OnCooldown(ps[i].source, run[i].at)
    requires var cs := run[i].op.reply.candidates;
      && DistinctUrls(cs) && n < |cs| && Judge(ps[i], cs[n]) == Unhealthy
      && RecordOf(ps[i], cs[n].url).failures + 1 >= cfg.SoftThreshold()
      && Untouched(cfg, run, ps, cs[n].url, i + 1, j)
      && Next(ps[j], run[j].at).1 == Some(cs[n].url)
    requires run[j].op.GetNext?
    ensures run[j].at >= run[i].op.reply.candidates[n].checkedAt + cfg.Ttl()
  {
    hide Touches, Untouched, Next, AdmitAll;
    var cs := run[i].op.reply.candidates;
    assert Follows(cfg, run, ps, i);
    AdmitAllBlames(cfg, ps[i], cs, n);
    SoftBanHolds(cfg, clock, run, ps, cs[n].url, i + 1, j);
  }
}
