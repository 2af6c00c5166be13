/** Exact accounts of what a collection and a rehabilitation do to the pool. */
module PoolLaws {
  import opened Sequences
  import opened ProxyPool
  import opened PoolInvariant

  // ---------- collecting new proxies ----------

  ghost predicate DistinctUrls(cs: seq<Candidate>) {
    forall i, j :: 0 <= i < j < |cs| ==> cs[i].url != cs[j].url
  }

  /** The candidates that the pool, as it is, gives the verdict `v`. */
  function Judged(p: Pool, cs: seq<Candidate>, v: Verdict): seq<Proxy> {
    if cs == [] then [] else
    var c := cs[|cs| - 1];
    Judged(p, cs[..|cs| - 1], v) + (if Judge(p, c) == v then [c.url] else [])
  }

  /** Admitting candidates touches nobody else, so a page without repeats is judged as the pool stood at the start. */
  lemma {:induction false} AdmitAllLeavesOthers(cfg: Settings, p: Pool, cs: seq<Candidate>, u: Proxy)
    requires forall i :: 0 <= i < |cs| ==> cs[i].url != u
    ensures var q := AdmitAll(cfg, p, cs).pool;
      RecordOf(q, u) == RecordOf(p, u) && (u in q.members <==> u in p.members)
  {
    if cs != [] {
      var init := cs[..|cs| - 1];
      AdmitAllLeavesOthers(cfg, p, init, u);
      AdmitLeavesOthers(cfg, AdmitAll(cfg, p, init).pool, cs[|cs| - 1], u);
    }
  }

  lemma AdmitLeavesOthers(cfg: Settings, p: Pool, c: Candidate, u: Proxy)
    requires c.url != u
    ensures RecordOf(Admit(cfg, p, c), u) == RecordOf(p, u)
    ensures u in Admit(cfg, p, c).members <==> u in p.members
  {
  }

  lemma AdmitLeavesMembers(cfg: Settings, p: Pool, c: Candidate)
    requires p.members <= p.records.Keys
    ensures forall u :: u in p.members ==>
              u in Admit(cfg, p, c).records && Admit(cfg, p, c).records[u] == p.records[u]
    ensures p.records.Keys <= Admit(cfg, p, c).records.Keys
    ensures Admit(cfg, p, c).members <= Admit(cfg, p, c).records.Keys
  {
    AdmitQueue(cfg, p, c);
  }

  lemma {:induction false} AdmitAllKeepsKeys(cfg: Settings, p: Pool, cs: seq<Candidate>)
    ensures p.records.Keys <= AdmitAll(cfg, p, cs).pool.records.Keys
  {
    if cs != [] {
      AdmitAllKeepsKeys(cfg, p, cs[..|cs| - 1]);
      AdmitKeepsKeys(cfg, AdmitAll(cfg, p, cs[..|cs| - 1]).pool, cs[|cs| - 1]);
    }
  }

  lemma AdmitKeepsKeys(cfg: Settings, p: Pool, c: Candidate)
    ensures p.records.Keys <= Admit(cfg, p, c).records.Keys
  {
  }

  /** A collection sorts the page into four exact parts; the line grows at its end by precisely the added ones. */
  lemma {:induction false} CollectionPartitions(cfg: Settings, p: Pool, cs: seq<Candidate>, clock: Time)
    requires Inv(cfg, p, clock) && DistinctUrls(cs)
    ensures var i := AdmitAll(cfg, p, cs);
      && i.added == |Judged(p, cs, Added)|
      && i.unhealthy == |Judged(p, cs, Unhealthy)|
      && i.existing == |Judged(p, cs, Existing)|
      && i.banned == |Judged(p, cs, HardBanned)|
      && i.added + i.unhealthy + i.existing + i.banned == |cs|
      && i.pool.queue == p.queue + Judged(p, cs, Added)
  {
    if cs != [] {
      var init, c := cs[..|cs| - 1], cs[|cs| - 1];
      CollectionPartitions(cfg, p, init, clock);
      AdmitAllKeepsInv(cfg, p, init, clock);
      AdmitAllLeavesOthers(cfg, p, init, c.url);
      assert Judge(AdmitAll(cfg, p, init).pool, c) == Judge(p, c);
      AdmitQueue(cfg, AdmitAll(cfg, p, init).pool, c);
      assert p.queue + Judged(p, cs, Added) ==
             p.queue + Judged(p, init, Added) + (if Judge(p, c) == Added then [c.url] else []);
    }
  }

  lemma AdmitQueue(cfg: Settings, p: Pool, c: Candidate)
    ensures Admit(cfg, p, c).queue == p.queue + (if Judge(p, c) == Added then [c.url] else [])
    ensures Admit(cfg, p, c).members == p.members + (if Judge(p, c) == Added then {c.url} else {})
  {
  }

  /** On any page, with or without repeats: nobody in the pool is dropped or touched, and it grows by `added`. */
  lemma {:induction false} CollectionOnlyAdds(cfg: Settings, p: Pool, cs: seq<Candidate>)
    requires p.members <= p.records.Keys
    ensures var i := AdmitAll(cfg, p, cs);
      && p.queue <= i.pool.queue
      && |i.pool.queue| == |p.queue| + i.added
      && p.members <= i.pool.members <= i.pool.records.Keys
      && (forall u :: u in p.members ==> u in i.pool.records && i.pool.records[u] == p.records[u])
      && i.added + i.unhealthy + i.existing + i.banned == |cs|
  {
    if cs != [] {
      var init, c := cs[..|cs| - 1], cs[|cs| - 1];
      CollectionOnlyAdds(cfg, p, init);
      AdmitQueue(cfg, AdmitAll(cfg, p, init).pool, c);
      AdmitLeavesMembers(cfg, AdmitAll(cfg, p, init).pool, c);
    }
  }

  /** A fetch never lowers the number of active proxies, whenever that number is taken. */
  lemma FetchKeepsActive(cfg: Settings, p: Pool, startedAt: Time, reply: Reply, finishedAt: Time,
                         clock: Time, now: Time)
    requires Inv(cfg, p, clock)
    ensures var q := Fetch(cfg, p, startedAt, reply, finishedAt);
      && p.queue <= q.queue
      && p.members <= q.members
      && ActiveSet(p, now) <= ActiveSet(q, now)
      && |ActiveSet(p, now)| <= |ActiveSet(q, now)|
      && |q.members| == |p.members| + (if OnCooldown(p.source, startedAt) then 0 else Taken(cfg, p, reply).added)
  {
    var q := Fetch(cfg, p, startedAt, reply, finishedAt);
    FetchKeepsInv(cfg, p, startedAt, reply, finishedAt, clock);
    if reply.Listing? {
      CollectionOnlyAdds(cfg, p, reply.candidates);
    }
    DistinctLength(p.queue, p.members);
    DistinctLength(q.queue, q.members);
    SubsetSize(ActiveSet(p, now), ActiveSet(q, now));
  }

  /** Taking `u` off the elements still to be seen uncovers it in `s`, if it is there. */
  lemma Uncovered<T>(s: set<T>, rest: set<T>, u: T)
    requires u in rest
    ensures |s - (rest - {u})| == |s - rest| + (if u in s then 1 else 0)
  {
    assert s - (rest - {u}) == (s - rest) + (if u in s then {u} else {});
  }

  lemma {:induction false} SubsetSize<T>(a: set<T>, b: set<T>)
    requires a <= b
    ensures |a| <= |b|
  {
    if a != {} {
      var x :| x in a;
      SubsetSize(a - {x}, b - {x});
    }
  }

  lemma RegisterEnsured(p: Pool, u: Proxy)
    ensures Register(Ensured(p, u), u) == Register(p, u)
  {
  }

  // ---------- rehabilitation ----------

  function TargetedSet(p: Pool, kinds: set<FailureType>): set<Proxy> {
    set u | u in p.records && Targeted(p.records[u], kinds)
  }

  datatype Summary = Summary(reset: nat, releasedSoftBans: nat, releasedHardBans: nat, requeued: nat)

  function One(b: bool): nat {
    if b then 1 else 0
  }

  /** What a rehabilitation reports when it has gone through `keys`. */
  function Summarised(p: Pool, keys: seq<Proxy>, kinds: set<FailureType>): Summary {
    if keys == [] then Summary(0, 0, 0, 0) else
    var s := Summarised(p, keys[..|keys| - 1], kinds);
    var u := keys[|keys| - 1];
    var r := RecordOf(p, u);
    if !Targeted(r, kinds) then s else
    Summary(s.reset + 1, s.releasedSoftBans + One(r.softBanUntil.Some?), s.releasedHardBans + One(r.hardBanned),
            s.requeued + One(u !in p.members))
  }

  lemma {:induction false} SummaryStep(p: Pool, keys: seq<Proxy>, u: Proxy, kinds: set<FailureType>)
    ensures var s := Summarised(p, keys, kinds);
      var r := RecordOf(p, u);
      Summarised(p, keys + [u], kinds) ==
      if !Targeted(r, kinds) then s else
      Summary(s.reset + 1, s.releasedSoftBans + One(r.softBanUntil.Some?), s.releasedHardBans + One(r.hardBanned),
              s.requeued + One(u !in p.members))
  {
    assert (keys + [u])[..|keys|] == keys;
  }

  lemma {:induction false} NoneReturning(p: Pool, keys: seq<Proxy>)
    ensures Returning(p, keys, {}) == []
  {
    if keys != [] { NoneReturning(p, keys[..|keys| - 1]); }
  }

  lemma {:induction false} NobodyTargeted(p: Pool)
    ensures Rehabilitate(p, {}) == p
    ensures Summarised(p, p.order, {}) == Summary(0, 0, 0, 0)
  {
    NoneReturning(p, p.order);
    NothingSummarised(p, p.order);
    assert Rehabilitate(p, {}).records == p.records;
  }

  lemma {:induction false} NothingSummarised(p: Pool, keys: seq<Proxy>)
    ensures Summarised(p, keys, {}) == Summary(0, 0, 0, 0)
  {
    if keys != [] { NothingSummarised(p, keys[..|keys| - 1]); }
  }

  /** The pool when a rehabilitation has gone through `keys`. */
  function RehabilitatedTo(p: Pool, keys: seq<Proxy>, kinds: set<FailureType>): Pool {
    var back := Returning(p, keys, kinds);
    p.(records := map u | u in p.records ::
                    if Targeted(p.records[u], kinds) && u in keys then CLEAN else p.records[u],
       queue := p.queue + back,
       members := p.members + set u | u in back)
  }

  lemma OrderPrefix(p: Pool, i: nat)
    requires Shape(p) && i < |p.order|
    ensures Distinct(p.order[..i]) && p.order[i] !in p.order[..i] && p.order[i] in p.records
    ensures p.order[..i + 1] == p.order[..i] + [p.order[i]]
  {
    assert p.order[i] in p.order;
  }

  lemma RehabilitationDone(p: Pool, kinds: set<FailureType>)
    requires Shape(p)
    ensures RehabilitatedTo(p, p.order, kinds) == Rehabilitate(p, kinds)
  {
    assert RehabilitatedTo(p, p.order, kinds).records == Rehabilitate(p, kinds).records;
  }

  lemma RehabilitationStepRecords(p: Pool, keys: seq<Proxy>, u: Proxy, kinds: set<FailureType>)
    requires u !in keys && u in p.records
    ensures var q, q' := RehabilitatedTo(p, keys, kinds), RehabilitatedTo(p, keys + [u], kinds);
      && q.records[u] == p.records[u]
      && q'.records == if Targeted(p.records[u], kinds) then q.records[u := CLEAN] else q.records
  {
  }

  /** Going past one more record changes the pool by that record alone. */
  lemma RehabilitationStep(p: Pool, keys: seq<Proxy>, u: Proxy, kinds: set<FailureType>)
    requires Distinct(keys) && u !in keys && u in p.records
    ensures var q, q' := RehabilitatedTo(p, keys, kinds), RehabilitatedTo(p, keys + [u], kinds);
      && q.records[u] == p.records[u]
      && (u in q.members <==> u in p.members)
      && (!Targeted(p.records[u], kinds) ==> q' == q)
      && (Targeted(p.records[u], kinds) ==> q' == Register(q.(records := q.records[u := CLEAN]), u))
  {
    hide Targeted, Distinct;
    ReturningElements(p, keys, kinds);
    var q, q' := RehabilitatedTo(p, keys, kinds), RehabilitatedTo(p, keys + [u], kinds);
    assert (keys + [u])[..|keys|] == keys;
    RehabilitationStepRecords(p, keys, u, kinds);
  }

  /** Rehabilitation clears exactly the targeted records and puts exactly the targeted outsiders back, at the end. */
  lemma RehabilitationExact(cfg: Settings, p: Pool, kinds: set<FailureType>, clock: Time)
    requires Inv(cfg, p, clock)
    ensures var q := Rehabilitate(p, kinds);
      && TargetedSet(q, kinds) == {}
      && q.records.Keys == p.records.Keys
      && (forall u :: u in p.records && u !in TargetedSet(p, kinds) ==> q.records[u] == p.records[u])
      && (forall u :: u in TargetedSet(p, kinds) ==> q.records[u] == CLEAN && u in q.queue)
      && p.queue <= q.queue && Distinct(q.queue)
      && (forall u :: u in q.queue[|p.queue|..] <==> u in TargetedSet(p, kinds) && u !in p.queue)
  {
    RehabilitateKeepsInv(cfg, p, kinds, clock);
    ReturningElements(p, p.order, kinds);
    assert Rehabilitate(p, kinds).queue[|p.queue|..] == Returning(p, p.order, kinds);
  }

  /** How many of `keys` are in `s`. */
  function CountIn(keys: seq<Proxy>, s: set<Proxy>): nat {
    if keys == [] then 0 else CountIn(keys[..|keys| - 1], s) + One(keys[|keys| - 1] in s)
  }

  lemma {:induction false} CountInAll(keys: seq<Proxy>, s: set<Proxy>)
    requires Distinct(keys) && forall u :: u in s ==> u in keys
    ensures CountIn(keys, s) == |s|
  {
    if keys == [] {
      assert s == {};
    } else {
      var init, last := keys[..|keys| - 1], keys[|keys| - 1];
      assert keys == init + [last] && last !in init;
      CountInAll(init, s - {last});
      CountInSame(init, s, s - {last});
    }
  }

  lemma {:induction false} CountInSame(keys: seq<Proxy>, s: set<Proxy>, t: set<Proxy>)
    requires forall u :: u in keys ==> (u in s <==> u in t)
    ensures CountIn(keys, s) == CountIn(keys, t)
  {
    if keys != [] {
      CountInSame(keys[..|keys| - 1], s, t);
      assert keys[|keys| - 1] in keys;
    }
  }

  lemma {:induction false} CountInSnoc(keys: seq<Proxy>, u: Proxy, s: set<Proxy>)
    ensures CountIn(keys + [u], s) == CountIn(keys, s) + One(u in s)
    ensures CountIn([], s) == 0
  {
    assert (keys + [u])[..|keys|] == keys;
  }

  /** The records when the expired bans of `done` have been cleared. */
  function ReleasedTo(records: map<Proxy, Record>, done: seq<Proxy>, now: Time): map<Proxy, Record> {
    map u | u in records :: if u in done then Released(records[u], now) else records[u]
  }

  lemma ReleaseDone(p: Pool, now: Time)
    requires Shape(p)
    ensures ReleasedTo(p.records, p.order, now) == Release(p, now).records
    ensures CountIn(p.order, ExpiredSet(p, now)) == |ExpiredSet(p, now)|
  {
    CountInAll(p.order, ExpiredSet(p, now));
  }

  function SoftReleased(p: Pool, kinds: set<FailureType>): set<Proxy> {
    set u | u in p.records && Targeted(p.records[u], kinds) && p.records[u].softBanUntil.Some?
  }

  function HardReleased(p: Pool, kinds: set<FailureType>): set<Proxy> {
    set u | u in p.records && Targeted(p.records[u], kinds) && p.records[u].hardBanned
  }

  lemma {:induction false} SummaryCountsIn(p: Pool, keys: seq<Proxy>, kinds: set<FailureType>)
    requires forall u :: u in keys ==> u in p.records
    ensures var s := Summarised(p, keys, kinds);
      && s.reset == CountIn(keys, TargetedSet(p, kinds))
      && s.releasedSoftBans == CountIn(keys, SoftReleased(p, kinds))
      && s.releasedHardBans == CountIn(keys, HardReleased(p, kinds))
      && s.requeued == |Returning(p, keys, kinds)|
  {
    if keys != [] {
      assert keys[|keys| - 1] in keys;
      SummaryCountsIn(p, keys[..|keys| - 1], kinds);
    }
  }

  /** The summary counts the targeted records, those of them with each kind of ban, and the proxies put back. */
  lemma {:induction false} SummaryCounts(p: Pool, kinds: set<FailureType>)
    requires Shape(p)
    ensures Summarised(p, p.order, kinds) ==
            Summary(|TargetedSet(p, kinds)|, |SoftReleased(p, kinds)|, |HardReleased(p, kinds)|,
                    |Rehabilitate(p, kinds).queue| - |p.queue|)
  {
    SummaryCountsIn(p, p.order, kinds);
    CountInAll(p.order, TargetedSet(p, kinds));
    CountInAll(p.order, SoftReleased(p, kinds));
    CountInAll(p.order, HardReleased(p, kinds));
  }

  /** Every lifted hard ban is a proxy put back, and every proxy put back was reset. */
  lemma {:induction false} RehabilitationCounts(cfg: Settings, p: Pool, kinds: set<FailureType>, clock: Time)
    requires Inv(cfg, p, clock)
    ensures var s := Summarised(p, p.order, kinds);
      && s.releasedHardBans <= s.requeued <= s.reset
      && s.releasedSoftBans + s.releasedHardBans <= s.reset
      && |Rehabilitate(p, kinds).queue| == |p.queue| + s.requeued
  {
    SummaryBounds(cfg, p, p.order, kinds, clock);
  }

  lemma {:induction false} SummaryBounds(cfg: Settings, p: Pool, keys: seq<Proxy>, kinds: set<FailureType>, clock: Time)
    requires Inv(cfg, p, clock) && forall u :: u in keys ==> u in p.records
    ensures var s := Summarised(p, keys, kinds);
      && s.releasedHardBans <= s.requeued <= s.reset
      && s.releasedSoftBans + s.releasedHardBans <= s.reset
      && s.requeued == |Returning(p, keys, kinds)|
  {
    if keys != [] {
      SummaryBounds(cfg, p, keys[..|keys| - 1], kinds, clock);
      var u := keys[|keys| - 1];
      assert u in keys && RecordOk(cfg, p.records[u], clock);
      assert u in p.members ==> !RecordOf(p, u).hardBanned;
    }
  }

  predicate NothingToReset(r: Record) {
    r.failures == 0 && r.softBanUntil.None? && !r.hardBanned
  }

  /** In a reachable pool a targeted failure type always comes with something to reset. */
  lemma TargetedHasFailures(cfg: Settings, p: Pool, kinds: set<FailureType>, clock: Time, u: Proxy)
    requires Inv(cfg, p, clock) && u in p.records && Targeted(p.records[u], kinds)
    ensures p.records[u].failures > 0 && !NothingToReset(p.records[u])
  {
    assert RecordOk(cfg, p.records[u], clock);
  }

  // ---------- reporting ----------

  /** The five failure rates are shares of one whole. */
  lemma RatesSumToOne(t: Tally)
    requires Total(t) > 0
    ensures Rate(t, Blocked) + Rate(t, Network) + Rate(t, Ssl) + Rate(t, Server) + Rate(t, Unknown) == 1.0
  {
    FiveShares(Count(t, Blocked) as real, Count(t, Network) as real, Count(t, Ssl) as real,
               Count(t, Server) as real, Count(t, Unknown) as real, Total(t) as real);
  }

  lemma FiveShares(a: real, b: real, c: real, d: real, e: real, n: real)
    requires n > 0.0 && a + b + c + d + e == n
    ensures a / n + b / n + c / n + d / n + e / n == 1.0
  {
    AddShares(a, b, n);
    AddShares(a + b, c, n);
    AddShares(a + b + c, d, n);
    AddShares(a + b + c + d, e, n);
  }

  lemma AddShares(a: real, b: real, n: real)
    requires n > 0.0
    ensures a / n + b / n == (a + b) / n
  {
  }
}
