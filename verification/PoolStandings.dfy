/** What the manager holds of one proxy, told from the events alone and in the numbers of the settings: how many
    failures count against it, which was the last, and whether it stands in line. */
module PoolStandings {
  import opened Options
  import opened ProxyPool
  import opened PoolInvariant
  import opened PoolLaws
  import opened PoolRuns
  import opened PoolSource

  datatype Failure = Failure(kind: FailureType, at: Time)

  datatype Standing = Standing(count: nat, last: Option<Failure>, inLine: bool)

  const NEWCOMER := Standing(0, None, false)

  /** From so many failures on a proxy rests after each, and from so many on it is out for good. */
  function RestsFrom(cfg: Settings): int {
    if cfg.softBanFailureThreshold < 1 then 1 else cfg.softBanFailureThreshold
  }

  function OutFrom(cfg: Settings): int {
    if cfg.hardBanFailureThreshold < RestsFrom(cfg) then RestsFrom(cfg) else cfg.hardBanFailureThreshold
  }

  /** A proxy at rest may be handed out again at this time. */
  function RestsUntil(cfg: Settings, f: Failure): Time {
    f.at + (if cfg.softBanTtlSeconds < 1 then 1 else cfg.softBanTtlSeconds) * 1_000_000
  }

  /** One more failure counts, is the last, and may be one too many. */
  function Charged(cfg: Settings, s: Standing, f: Failure): Standing {
    Standing(s.count + 1, Some(f), s.inLine && s.count + 1 < OutFrom(cfg))
  }

  /** A success takes away as many failures as configured, at least one, and with the last of them its memory. */
  function Forgiven(cfg: Settings, s: Standing): Standing {
    var n := s.count - (if cfg.successDecay < 1 then 1 else cfg.successDecay);
    if n > 0 then s.(count := n) else s.(count := 0, last := None)
  }

  /** What a page makes of one of its proxies: a healthy one that is not out joins the line, an unhealthy one that is
      neither out nor in line is charged with a network failure at the time of its check. */
  function Checked(cfg: Settings, s: Standing, c: Candidate): Standing {
    if s.count >= OutFrom(cfg) || s.inLine then s
    else if c.healthy then s.(inLine := true)
    else Charged(cfg, s, Failure(Network, c.checkedAt))
  }

  function OnPage(cfg: Settings, s: Standing, cs: seq<Candidate>, u: Proxy): Standing {
    if cs == [] then s else
    var before, c := OnPage(cfg, s, cs[..|cs| - 1], u), cs[|cs| - 1];
    if c.url == u then Checked(cfg, before, c) else before
  }

  /** What one event makes of it; `asked` tells whether a fetch asks the source. */
  function After(cfg: Settings, s: Standing, e: Event, u: Proxy, asked: bool): Standing {
    match e.op
    case RecordFailure(v, kind, failedAt) =>
      if v == u then Charged(cfg, s, Failure(kind, if failedAt.Some? then failedAt.value else e.at)) else s
    case RecordSuccess(v) => if v == u && s.count < OutFrom(cfg) then Forgiven(cfg, s) else s
    case RegisterProxy(v) => if v == u && s.count < OutFrom(cfg) then s.(inLine := true) else s
    case RehabilitateHistory(kinds) =>
      if s.last.Some? && s.last.value.kind in kinds then Standing(0, None, true) else s
    case FetchProxies(reply, _) => if asked && reply.Listing? then OnPage(cfg, s, reply.candidates, u) else s
    case ResetProxies(clear) => if clear then NEWCOMER else s.(inLine := false)
    case GetNext => s
    case StartBatch => s
    case GetMetrics => s
  }

  ghost function StandingAt(cfg: Settings, run: seq<Event>, ps: seq<Pool>, u: Proxy, n: nat): Standing
    requires |ps| == |run| + 1 && n <= |run|
  {
    if n == 0 then NEWCOMER
    else After(cfg, StandingAt(cfg, run, ps, u, n - 1), run[n - 1], u, Asks(cfg, run, ps, n - 1))
  }

  /** The pool holds this of `u`. */
  ghost predicate Holds(cfg: Settings, p: Pool, u: Proxy, s: Standing) {
    var r := RecordOf(p, u);
    && r.failures == s.count
    && r.lastType == (if s.last.Some? then Some(s.last.value.kind) else None)
    && r.lastFailedAt == (if s.last.Some? then Some(s.last.value.at) else None)
    && (r.hardBanned <==> s.count >= OutFrom(cfg))
    && (u in p.members <==> s.inLine)
  }

  lemma AdmitHolds(cfg: Settings, p: Pool, c: Candidate, u: Proxy, s: Standing, clock: Time)
    requires Inv(cfg, p, clock) && Holds(cfg, p, u, s)
    ensures Holds(cfg, Admit(cfg, p, c), u, if c.url == u then Checked(cfg, s, c) else s)
  {
    if c.url != u { AdmitLeavesOthers(cfg, p, c, u); }
  }

  lemma {:induction false} PageHolds(cfg: Settings, p: Pool, cs: seq<Candidate>, u: Proxy, s: Standing, clock: Time)
    requires Inv(cfg, p, clock) && Holds(cfg, p, u, s)
    ensures Holds(cfg, AdmitAll(cfg, p, cs).pool, u, OnPage(cfg, s, cs, u))
  {
    hide Inv, Holds, Admit, Checked;
    if cs != [] {
      var init := cs[..|cs| - 1];
      PageHolds(cfg, p, init, u, s, clock);
      AdmitAllKeepsInv(cfg, p, init, clock);
      AdmitHolds(cfg, AdmitAll(cfg, p, init).pool, cs[|cs| - 1], u, OnPage(cfg, s, init, u), clock);
    }
  }

  lemma RehabilitatedHolds(cfg: Settings, p: Pool, kinds: set<FailureType>, u: Proxy, s: Standing, clock: Time)
    requires Inv(cfg, p, clock) && Holds(cfg, p, u, s)
    ensures Holds(cfg, Rehabilitate(p, kinds), u,
                  if s.last.Some? && s.last.value.kind in kinds then Standing(0, None, true) else s)
  {
    ReturningElements(p, p.order, kinds);
  }

  lemma FailHolds(cfg: Settings, p: Pool, v: Proxy, kind: FailureType, at: Time, u: Proxy, s: Standing, clock: Time)
    requires Inv(cfg, p, clock) && Holds(cfg, p, u, s)
    ensures Holds(cfg, Fail(cfg, p, v, kind, at), u, if v == u then Charged(cfg, s, Failure(kind, at)) else s)
  {
  }

  lemma SucceedHolds(cfg: Settings, p: Pool, v: Proxy, u: Proxy, s: Standing, clock: Time)
    requires Inv(cfg, p, clock) && Holds(cfg, p, u, s)
    ensures Holds(cfg, Succeed(cfg, p, v), u, if v == u && s.count < OutFrom(cfg) then Forgiven(cfg, s) else s)
  {
    assert RecordOf(p, u).failures > 0 || RecordOf(p, u).lastType.None?;
  }

  lemma NextHolds(cfg: Settings, p: Pool, now: Time, u: Proxy, s: Standing)
    requires Holds(cfg, p, u, s)
    ensures Holds(cfg, Next(p, now).0, u, s)
  {
  }

  lemma StepHolds(cfg: Settings, run: seq<Event>, ps: seq<Pool>, n: nat, u: Proxy, s: Standing, clock: Time)
    requires |ps| == |run| + 1 && n < |run| && Inv(cfg, ps[n], clock) && Holds(cfg, ps[n], u, s)
    requires Follows(cfg, run, ps, n)
    requires run[n].op.FetchProxies? && !Asks(cfg, run, ps, n) ==> ps[n + 1] == ps[n]
    requires run[n].op.FetchProxies? && Asks(cfg, run, ps, n) ==>
               ps[n + 1] == Taken(cfg, ps[n], run[n].op.reply).pool.(source := ps[n + 1].source)
    ensures Holds(cfg, ps[n + 1], u, After(cfg, s, run[n], u, Asks(cfg, run, ps, n)))
  {
    hide Inv, AdmitAll, Asks, Next, Fail, Succeed, Rehabilitate, Charged, Forgiven, OnPage, Fetch;
    var p, e := ps[n], run[n];
    match e.op {
      case RecordFailure(v, kind, _) => FailHolds(cfg, p, v, kind, FailureTime(e.op, e.at), u, s, clock);
      case RecordSuccess(v) => SucceedHolds(cfg, p, v, u, s, clock);
      case RehabilitateHistory(kinds) => RehabilitatedHolds(cfg, p, kinds, u, s, clock);
      case FetchProxies(reply, _) => if reply.Listing? { PageHolds(cfg, p, reply.candidates, u, s, clock); }
      case GetNext => NextHolds(cfg, p, e.at, u, s);
      case _ =>
    }
  }

  /** In every run the manager holds of every proxy exactly what its events add up to. */
  lemma {:induction false} StandingHolds(cfg: Settings, clock: Time, run: seq<Event>, ps: seq<Pool>, u: Proxy, n: nat)
    requires Behaviour(cfg, clock, run, ps) && ps[0] == EMPTY && n <= |run|
    ensures Holds(cfg, ps[n], u, StandingAt(cfg, run, ps, u, n))
  {
    hide Inv, Holds, Step, After, Asks, Taken;
    if n == 0 {
      NobodyHeld(cfg, u);
    } else {
      StandingHolds(cfg, clock, run, ps, u, n - 1);
      EmptyInv(cfg, clock);
      RunKeepsInv(cfg, clock, run, ps, n - 1);
      assert Follows(cfg, run, ps, n - 1);
      if run[n - 1].op.FetchProxies? { FetchTakesIn(cfg, clock, run, ps, n - 1); }
      StepHolds(cfg, run, ps, n - 1, u, StandingAt(cfg, run, ps, u, n - 1), ClockAt(clock, run, n - 1));
    }
  }

  lemma NobodyHeld(cfg: Settings, u: Proxy)
    ensures Holds(cfg, EMPTY, u, NEWCOMER)
  {
  }

  // ---------- who may be handed out ----------

  /** `u` may be handed out: it stands in line, and is not at rest after a failure. */
  predicate Available(cfg: Settings, s: Standing, now: Time) {
    s.inLine && !(s.count >= RestsFrom(cfg) && s.last.Some? && now < RestsUntil(cfg, s.last.value))
  }

  lemma UsableIff(cfg: Settings, p: Pool, u: Proxy, s: Standing, clock: Time, now: Time)
    requires Inv(cfg, p, clock) && Holds(cfg, p, u, s) && clock <= now
    ensures u in ActiveSet(p, now) <==> Available(cfg, s, now)
    ensures u in SoftBannedSet(p, now) <==>
              RestsFrom(cfg) <= s.count < OutFrom(cfg) && s.last.Some? && now < RestsUntil(cfg, s.last.value)
    ensures u in HardBannedSet(p) <==> s.count >= OutFrom(cfg)
  {
    if u in p.records { assert RecordOk(cfg, p.records[u], clock); }
  }

  /** The metrics, from any moment of any run on: active are those that may be handed out, softly banned those at rest,
      hard-banned those that are out. */
  lemma {:induction false} MetricsMean(cfg: Settings, clock: Time, run: seq<Event>, ps: seq<Pool>, n: nat, now: Time,
                                       u: Proxy)
    requires Behaviour(cfg, clock, run, ps) && ps[0] == EMPTY && n <= |run| && ClockAt(clock, run, n) <= now
    ensures var s := StandingAt(cfg, run, ps, u, n);
      && (u in ActiveSet(ps[n], now) <==> Available(cfg, s, now))
      && (u in SoftBannedSet(ps[n], now) <==>
            RestsFrom(cfg) <= s.count < OutFrom(cfg) && s.last.Some? && now < RestsUntil(cfg, s.last.value))
      && (u in HardBannedSet(ps[n]) <==> s.count >= OutFrom(cfg))
  {
    hide Inv, Holds, Available, StandingAt, ActiveSet, SoftBannedSet, HardBannedSet;
    EmptyInv(cfg, clock);
    RunKeepsInv(cfg, clock, run, ps, n);
    StandingHolds(cfg, clock, run, ps, u, n);
    UsableIff(cfg, ps[n], u, StandingAt(cfg, run, ps, u, n), ClockAt(clock, run, n), now);
  }

  /** A question is answered with a proxy that may be handed out, or with none if and only if there is none. */
  lemma {:induction false} AnsweredIff(cfg: Settings, clock: Time, run: seq<Event>, ps: seq<Pool>, n: nat)
    requires Behaviour(cfg, clock, run, ps) && ps[0] == EMPTY && n < |run| && run[n].op.GetNext?
    ensures var answer := Next(ps[n], run[n].at).1;
      && (answer.Some? ==> Available(cfg, StandingAt(cfg, run, ps, answer.value, n), run[n].at))
      && (answer.None? <==> forall u :: !Available(cfg, StandingAt(cfg, run, ps, u, n), run[n].at))
  {
    hide Inv, Next, Available, StandingAt, ActiveSet, SoftBannedSet, HardBannedSet;
    var now := run[n].at;
    assert ClockAt(clock, run, n) <= now;
    EmptyInv(cfg, clock);
    RunKeepsInv(cfg, clock, run, ps, n);
    NothingIffNoneActive(cfg, ps[n], ClockAt(clock, run, n), now);
    forall u: Proxy ensures u in ActiveSet(ps[n], now) <==> Available(cfg, StandingAt(cfg, run, ps, u, n), now) {
      MetricsMean(cfg, clock, run, ps, n, now, u);
    }
    if |ActiveSet(ps[n], now)| != 0 {
      var u :| u in ActiveSet(ps[n], now);
    }
  }

  // ---------- the latest failure ----------

  /** The failure a page holds against `u`. */
  function FailureOn(cs: seq<Candidate>, u: Proxy): Option<Failure> {
    if cs == [] then None else
    var c := cs[|cs| - 1];
    if c.url == u && !c.healthy then Some(Failure(Network, c.checkedAt)) else FailureOn(cs[..|cs| - 1], u)
  }

  /** The failure of `u` that event `i` reports: one a crawler reports, or one that a page taken in holds against it
      while it is neither in line nor out. */
  ghost function FailureIn(cfg: Settings, run: seq<Event>, ps: seq<Pool>, u: Proxy, i: nat): Option<Failure>
    requires |ps| == |run| + 1 && i < |run|
  {
    match run[i].op
    case RecordFailure(v, kind, failedAt) =>
      if v == u then Some(Failure(kind, if failedAt.Some? then failedAt.value else run[i].at)) else None
    case FetchProxies(reply, _) =>
      if reply.Listing? && Asks(cfg, run, ps, i) && u !in ps[i].queue && !RecordOf(ps[i], u).hardBanned
      then FailureOn(reply.candidates, u) else None
    case _ => None
  }

  ghost predicate NoRepeats(run: seq<Event>) {
    forall i :: 0 <= i < |run| && run[i].op.FetchProxies? && run[i].op.reply.Listing? ==>
      DistinctUrls(run[i].op.reply.candidates)
  }

  lemma {:induction false} NotOnPage(cfg: Settings, s: Standing, cs: seq<Candidate>, u: Proxy)
    requires forall i :: 0 <= i < |cs| ==> cs[i].url != u
    ensures OnPage(cfg, s, cs, u) == s && FailureOn(cs, u) == None
  {
    if cs != [] { NotOnPage(cfg, s, cs[..|cs| - 1], u); }
  }

  lemma {:induction false} PageLatest(cfg: Settings, s: Standing, cs: seq<Candidate>, u: Proxy)
    requires DistinctUrls(cs)
    ensures var t := OnPage(cfg, s, cs, u);
      if s.inLine || s.count >= OutFrom(cfg) || FailureOn(cs, u).None? then t.last == s.last && t.count == s.count
      else t.last == FailureOn(cs, u)
  {
    if cs != [] {
      var init, c := cs[..|cs| - 1], cs[|cs| - 1];
      PageLatest(cfg, s, init, u);
      if c.url == u { NotOnPage(cfg, s, init, u); }
    }
  }

  lemma EventLatest(cfg: Settings, run: seq<Event>, ps: seq<Pool>, u: Proxy, i: nat)
    requires |ps| == |run| + 1 && i < |run| && NoRepeats(run)
    requires Shape(ps[i]) && Holds(cfg, ps[i], u, StandingAt(cfg, run, ps, u, i))
    ensures var s, t := StandingAt(cfg, run, ps, u, i), StandingAt(cfg, run, ps, u, i + 1);
      && (FailureIn(cfg, run, ps, u, i).Some? ==> t.last == FailureIn(cfg, run, ps, u, i))
      && (FailureIn(cfg, run, ps, u, i).None? ==> t.last == s.last || t.last.None?)
      && (run[i].op == ResetProxies(true) ==> t.last.None?)
  {
    hide OnPage, FailureOn, Asks, Forgiven;
    match run[i].op {
      case FetchProxies(reply, _) =>
        if reply.Listing? { PageLatest(cfg, StandingAt(cfg, run, ps, u, i), reply.candidates, u); }
      case RecordSuccess(_) => ForgivenLast(cfg, StandingAt(cfg, run, ps, u, i));
      case _ =>
    }
  }

  lemma ForgivenLast(cfg: Settings, s: Standing)
    ensures Forgiven(cfg, s).last == s.last || Forgiven(cfg, s).last.None?
  {
  }

  /** What is on record as the last failure of a proxy is the latest failure that was reported of it. */
  lemma {:induction false} LatestFailure(cfg: Settings, clock: Time, run: seq<Event>, ps: seq<Pool>, u: Proxy, n: nat)
    returns (i: nat)
    requires Behaviour(cfg, clock, run, ps) && ps[0] == EMPTY && n <= |run| && NoRepeats(run)
    requires u in ps[n].records && ps[n].records[u].failures > 0
    ensures i < n && FailureIn(cfg, run, ps, u, i).Some?
    ensures ps[n].records[u].lastType == Some(FailureIn(cfg, run, ps, u, i).value.kind)
    ensures ps[n].records[u].lastFailedAt == Some(FailureIn(cfg, run, ps, u, i).value.at)
    ensures forall j :: i < j < n ==> FailureIn(cfg, run, ps, u, j).None? && run[j].op != ResetProxies(true)
  {
    hide Inv, StandingAt, FailureIn;
    StandingHolds(cfg, clock, run, ps, u, n);
    EmptyInv(cfg, clock);
    RunKeepsInv(cfg, clock, run, ps, n);
    LastIsSet(cfg, ps[n], u, ClockAt(clock, run, n));
    i := LatestStanding(cfg, clock, run, ps, u, n);
  }

  lemma LastIsSet(cfg: Settings, p: Pool, u: Proxy, clock: Time)
    requires Inv(cfg, p, clock) && u in p.records && p.records[u].failures > 0
    ensures p.records[u].lastType.Some?
  {
    assert RecordOk(cfg, p.records[u], clock);
  }

  lemma {:induction false} LatestStanding(cfg: Settings, clock: Time, run: seq<Event>, ps: seq<Pool>, u: Proxy, n: nat)
    returns (i: nat)
    requires Behaviour(cfg, clock, run, ps) && ps[0] == EMPTY && n <= |run| && NoRepeats(run)
    requires StandingAt(cfg, run, ps, u, n).last.Some?
    ensures i < n && FailureIn(cfg, run, ps, u, i) == StandingAt(cfg, run, ps, u, n).last
    ensures forall j :: i < j < n ==> FailureIn(cfg, run, ps, u, j).None? && run[j].op != ResetProxies(true)
  {
    hide Inv, FailureIn, After, Holds, Step, NoRepeats, Asks;
    StandingHolds(cfg, clock, run, ps, u, n - 1);
    EmptyInv(cfg, clock);
    RunKeepsInv(cfg, clock, run, ps, n - 1);
    InvHasShape(cfg, ps[n - 1], ClockAt(clock, run, n - 1));
    EventLatest(cfg, run, ps, u, n - 1);
    if FailureIn(cfg, run, ps, u, n - 1).Some? {
      i := n - 1;
    } else {
      i := LatestStanding(cfg, clock, run, ps, u, n - 1);
    }
  }

  lemma InvHasShape(cfg: Settings, p: Pool, clock: Time)
    requires Inv(cfg, p, clock)
    ensures Shape(p)
  {
  }

  /** A rehabilitation clears a proxy with failures on record if and only if its latest failure was of a kind to be
      forgiven, and leaves its record as it is otherwise. */
  lemma {:induction false} RehabilitatesIff(cfg: Settings, clock: Time, run: seq<Event>, ps: seq<Pool>, u: Proxy,
                                            n: nat)
    returns (i: nat)
    requires Behaviour(cfg, clock, run, ps) && ps[0] == EMPTY && n < |run| && NoRepeats(run)
    requires run[n].op.RehabilitateHistory? && u in ps[n].records && ps[n].records[u].failures > 0
    ensures i < n && FailureIn(cfg, run, ps, u, i).Some?
    ensures forall j :: i < j < n ==> FailureIn(cfg, run, ps, u, j).None?
    ensures u in ps[n + 1].records
    ensures ps[n + 1].records[u] == if FailureIn(cfg, run, ps, u, i).value.kind in run[n].op.kinds
                                    then Record(0, None, None, None, false) else ps[n].records[u]
    ensures FailureIn(cfg, run, ps, u, i).value.kind in run[n].op.kinds ==> u in ps[n + 1].members
  {
    hide FailureIn, NoRepeats, Returning;
    i := LatestFailure(cfg, clock, run, ps, u, n);
    assert Follows(cfg, run, ps, n);
    StandingHolds(cfg, clock, run, ps, u, n);
    StandingHolds(cfg, clock, run, ps, u, n + 1);
  }
}
