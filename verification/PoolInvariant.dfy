/** What every operation on the proxy pool keeps. */
module PoolInvariant {
  import opened Options
  import opened Sequences
  import opened ProxyPool

  /** The line, its membership set and the record dictionary agree with one another. */
  ghost predicate Shape(p: Pool) {
    && Distinct(p.queue)
    && (forall u :: u in p.queue <==> u in p.members)
    && Distinct(p.order)
    && (forall u :: u in p.order <==> u in p.records)
    && p.members <= p.records.Keys
  }

  /** The fields of one record are coupled, and a soft ban that is no longer set has run its full time. */
  ghost predicate RecordOk(cfg: Settings, r: Record, clock: Time) {
    && (r.failures == 0 <==> r.lastType.None?)
    && (r.failures == 0 <==> r.lastFailedAt.None?)
    && (r.hardBanned <==> r.failures >= cfg.HardThreshold())
    && (r.softBanUntil.Some? ==>
          && cfg.SoftThreshold() <= r.failures < cfg.HardThreshold()
          && r.softBanUntil.value == r.lastFailedAt.value + cfg.Ttl())
    && (r.softBanUntil.None? && cfg.SoftThreshold() <= r.failures < cfg.HardThreshold() ==>
          r.lastFailedAt.value + cfg.Ttl() <= clock)
  }

  ghost predicate RecordsOk(cfg: Settings, p: Pool, clock: Time) {
    && (forall u :: u in p.records ==> RecordOk(cfg, p.records[u], clock))
    && (forall u :: u in p.members ==> !RecordOf(p, u).hardBanned)
  }

  ghost predicate TalliesOk(p: Pool) {
    forall kind: FailureType :: Count(p.batch, kind) <= Count(p.lifetime, kind)
  }

  ghost predicate SourceOk(cfg: Settings, p: Pool) {
    p.source.consecutiveFailures < cfg.SourceThreshold()
  }

  ghost predicate Inv(cfg: Settings, p: Pool, clock: Time) {
    Shape(p) && RecordsOk(cfg, p, clock) && TalliesOk(p) && SourceOk(cfg, p)
  }

  lemma InvLater(cfg: Settings, p: Pool, clock: Time, later: Time)
    requires Inv(cfg, p, clock) && clock <= later
    ensures Inv(cfg, p, later)
  {
  }

  lemma PutShape(p: Pool, u: Proxy, r: Record)
    requires Shape(p)
    ensures Shape(Put(p, u, r))
  {
    var q := Put(p, u, r);
    if u !in p.records {
      DistinctAppend(p.order, u);
    }
    forall v ensures v in q.order <==> v in q.records {
    }
  }

  lemma EnsuredKeepsInv(cfg: Settings, p: Pool, u: Proxy, clock: Time)
    requires Inv(cfg, p, clock)
    ensures Inv(cfg, Ensured(p, u), clock)
  {
    PutShape(p, u, CLEAN);
  }

  lemma RegisterKeepsInv(cfg: Settings, p: Pool, u: Proxy, clock: Time)
    requires Inv(cfg, p, clock)
    ensures Inv(cfg, Register(p, u), clock)
  {
    EnsuredKeepsInv(cfg, p, u, clock);
    if Admissible(p, u) {
      DistinctAppend(p.queue, u);
    }
  }

  lemma WithoutShape(p: Pool, u: Proxy)
    requires Shape(p)
    ensures Shape(Without(p, u))
  {
    RemovedElements(p.queue, u);
  }

  lemma FailedOk(cfg: Settings, r: Record, kind: FailureType, at: Time, clock: Time)
    requires RecordOk(cfg, r, clock)
    ensures RecordOk(cfg, Failed(cfg, r, kind, at), clock)
    ensures Failed(cfg, r, kind, at).failures == r.failures + 1
  {
  }

  lemma BumpedTallies(p: Pool, kind: FailureType)
    requires TalliesOk(p)
    ensures forall k: FailureType :: Count(Bumped(p.batch, kind), k) <= Count(Bumped(p.lifetime, kind), k)
  {
    forall k: FailureType ensures Count(Bumped(p.batch, kind), k) <= Count(Bumped(p.lifetime, kind), k) {
      assert Count(p.batch, k) <= Count(p.lifetime, k);
    }
  }

  lemma ChargeKeepsShape(cfg: Settings, p: Pool, u: Proxy, kind: FailureType)
    requires Shape(p)
    ensures Shape(Charge(cfg, p, u, kind))
  {
    WithoutShape(p.(lifetime := Bumped(p.lifetime, kind), batch := Bumped(p.batch, kind)), u);
  }

  lemma ChargeKeepsRecords(cfg: Settings, p: Pool, u: Proxy, kind: FailureType, clock: Time)
    requires forall v :: v in p.records ==> RecordOk(cfg, p.records[v], clock)
    requires forall v :: v in p.members && v != u ==> !RecordOf(p, v).hardBanned
    requires u in p.records
    ensures RecordsOk(cfg, Charge(cfg, p, u, kind), clock)
  {
    assert RecordOk(cfg, p.records[u], clock);
  }

  lemma ChargeKeepsRest(cfg: Settings, p: Pool, u: Proxy, kind: FailureType)
    requires TalliesOk(p) && SourceOk(cfg, p)
    ensures TalliesOk(Charge(cfg, p, u, kind)) && SourceOk(cfg, Charge(cfg, p, u, kind))
  {
    BumpedTallies(p, kind);
  }

  lemma FailKeepsInv(cfg: Settings, p: Pool, u: Proxy, kind: FailureType, at: Time, clock: Time)
    requires Inv(cfg, p, clock)
    ensures Inv(cfg, Fail(cfg, p, u, kind, at), clock)
  {
    hide Shape;
    var r := Failed(cfg, RecordOf(p, u), kind, at);
    FailedOk(cfg, RecordOf(p, u), kind, at, clock);
    var q := Put(p, u, r);
    PutShape(p, u, r);
    ChargeKeepsShape(cfg, q, u, kind);
    ChargeKeepsRecords(cfg, q, u, kind, clock);
    ChargeKeepsRest(cfg, q, u, kind);
  }

  lemma SucceedKeepsInv(cfg: Settings, p: Pool, u: Proxy, clock: Time)
    requires Inv(cfg, p, clock)
    ensures Inv(cfg, Succeed(cfg, p, u), clock)
  {
    var r := Succeeded(cfg, RecordOf(p, u));
    PutShape(p, u, r);
    assert RecordOk(cfg, RecordOf(p, u), clock);
    assert RecordOk(cfg, r, clock);
  }

  lemma ReleaseKeepsInv(cfg: Settings, p: Pool, clock: Time, now: Time)
    requires Inv(cfg, p, clock) && clock <= now
    ensures Inv(cfg, Release(p, now), now)
  {
    var q := Release(p, now);
    forall u | u in q.records ensures RecordOk(cfg, q.records[u], now) {
      assert RecordOk(cfg, p.records[u], clock);
    }
  }

  lemma RotatedElements(xs: seq<Proxy>, i: nat)
    requires Distinct(xs) && i <= |xs|
    ensures Distinct(xs[i..] + xs[..i])
    ensures forall u :: u in xs[i..] + xs[..i] <==> u in xs
  {
    assert xs == xs[..i] + xs[i..];
  }

  lemma NextKeepsInv(cfg: Settings, p: Pool, clock: Time, now: Time)
    requires Inv(cfg, p, clock) && clock <= now
    ensures Inv(cfg, Next(p, now).0, now)
  {
    ReleaseKeepsInv(cfg, p, clock, now);
    var q := Release(p, now);
    var i := FirstUsable(q.queue, q.records, now);
    if i < |q.queue| {
      RotatedElements(q.queue, i + 1);
    }
  }

  lemma {:induction false} ReturningElements(p: Pool, keys: seq<Proxy>, kinds: set<FailureType>)
    requires Distinct(keys)
    ensures Distinct(Returning(p, keys, kinds))
    ensures forall u :: u in Returning(p, keys, kinds) <==>
              u in keys && Targeted(RecordOf(p, u), kinds) && u !in p.members
  {
    if keys != [] {
      var init, u := keys[..|keys| - 1], keys[|keys| - 1];
      assert keys == init + [u];
      ReturningElements(p, init, kinds);
      assert u !in init;
      DistinctAppend(Returning(p, init, kinds), u);
    }
  }

  lemma DistinctConcat(xs: seq<Proxy>, ys: seq<Proxy>)
    requires Distinct(xs) && Distinct(ys) && forall u :: u in xs ==> u !in ys
    ensures Distinct(xs + ys)
  {
    forall i, j | 0 <= i < j < |xs + ys| ensures (xs + ys)[i] != (xs + ys)[j] {
      if i < |xs| <= j {
        assert xs[i] in xs && ys[j - |xs|] in ys;
      }
    }
  }

  lemma RehabilitateKeepsInv(cfg: Settings, p: Pool, kinds: set<FailureType>, clock: Time)
    requires Inv(cfg, p, clock)
    ensures Inv(cfg, Rehabilitate(p, kinds), clock)
  {
    var back := Returning(p, p.order, kinds);
    ReturningElements(p, p.order, kinds);
    DistinctConcat(p.queue, back);
    var q := Rehabilitate(p, kinds);
    forall u ensures u in q.queue <==> u in q.members {
      assert u in q.queue <==> u in p.queue || u in back;
    }
  }

  lemma AdmitKeepsShape(cfg: Settings, p: Pool, c: Candidate)
    requires Shape(p)
    ensures Shape(Admit(cfg, p, c))
  {
    var q := Ensured(p, c.url);
    PutShape(p, c.url, CLEAN);
    match Judge(p, c) {
      case Unhealthy =>
        var r := Failed(cfg, RecordOf(q, c.url), Network, c.checkedAt);
        PutShape(q, c.url, r);
        ChargeKeepsShape(cfg, Put(q, c.url, r), c.url, Network);
      case Added => DistinctAppend(p.queue, c.url);
      case _ =>
    }
  }

  lemma {:induction false} AdmitAllKeepsShape(cfg: Settings, p: Pool, cs: seq<Candidate>)
    requires Shape(p)
    ensures Shape(AdmitAll(cfg, p, cs).pool)
  {
    if cs != [] {
      AdmitAllKeepsShape(cfg, p, cs[..|cs| - 1]);
      AdmitKeepsShape(cfg, AdmitAll(cfg, p, cs[..|cs| - 1]).pool, cs[|cs| - 1]);
    }
  }

  lemma AdmitKeepsInv(cfg: Settings, p: Pool, c: Candidate, clock: Time)
    requires Inv(cfg, p, clock)
    ensures Inv(cfg, Admit(cfg, p, c), clock)
  {
    EnsuredKeepsInv(cfg, p, c.url, clock);
    match Judge(p, c) {
      case Unhealthy => FailKeepsInv(cfg, Ensured(p, c.url), c.url, Network, c.checkedAt, clock);
      case Added => RegisterKeepsInv(cfg, p, c.url, clock);
      case _ =>
    }
  }

  lemma {:induction false} AdmitAllKeepsInv(cfg: Settings, p: Pool, cs: seq<Candidate>, clock: Time)
    requires Inv(cfg, p, clock)
    ensures Inv(cfg, AdmitAll(cfg, p, cs).pool, clock)
    ensures AdmitAll(cfg, p, cs).pool.source == p.source
  {
    if cs != [] {
      AdmitAllKeepsInv(cfg, p, cs[..|cs| - 1], clock);
      AdmitKeepsInv(cfg, AdmitAll(cfg, p, cs[..|cs| - 1]).pool, cs[|cs| - 1], clock);
    }
  }

  lemma FetchKeepsInv(cfg: Settings, p: Pool, startedAt: Time, reply: Reply, finishedAt: Time, clock: Time)
    requires Inv(cfg, p, clock)
    ensures Inv(cfg, Fetch(cfg, p, startedAt, reply, finishedAt), clock)
  {
    if reply.Listing? {
      AdmitAllKeepsInv(cfg, p, reply.candidates, clock);
    }
  }

  lemma ResetKeepsInv(cfg: Settings, p: Pool, clearHistory: bool, clock: Time)
    requires Inv(cfg, p, clock)
    ensures Inv(cfg, Reset(p, clearHistory), clock)
  {
  }

  // ---------- single-operation facts the runs build on ----------

  lemma {:induction false} FirstUsableMeans(queue: seq<Proxy>, records: map<Proxy, Record>, now: Time)
    ensures var i := FirstUsable(queue, records, now);
      && (forall j :: 0 <= j < i ==> queue[j] !in records || !Usable(records[queue[j]], now))
      && (i < |queue| ==> queue[i] in records && Usable(records[queue[i]], now))
  {
    if queue == [] || (queue[0] in records && Usable(records[queue[0]], now)) {
    } else {
      FirstUsableMeans(queue[1..], records, now);
      var i := FirstUsable(queue, records, now);
      forall j | 0 <= j < i ensures queue[j] !in records || !Usable(records[queue[j]], now) {
        if j > 0 { assert queue[j] == queue[1..][j - 1]; }
      }
    }
  }

  lemma {:induction false} FirstUsableIs(queue: seq<Proxy>, records: map<Proxy, Record>, now: Time, i: nat)
    requires i <= |queue|
    requires forall j :: 0 <= j < i ==> queue[j] !in records || !Usable(records[queue[j]], now)
    requires i < |queue| ==> queue[i] in records && Usable(records[queue[i]], now)
    ensures FirstUsable(queue, records, now) == i
  {
    FirstUsableMeans(queue, records, now);
  }

  /** Asking for a proxy is dropping expired bans and then scanning the line. */
  lemma {:induction false} NextByScan(p: Pool, now: Time)
    requires p.queue != []
    ensures var i := FirstUsable(p.queue, Release(p, now).records, now);
      Next(p, now) == if i == |p.queue| then (Release(p, now), None)
                      else (Release(p, now).(queue := RotatedBy(p.queue, i + 1)), Some(p.queue[i]))
    ensures Release(p, now).queue == p.queue
  {
  }

  lemma NextOfNobody(p: Pool, now: Time)
    requires p.queue == []
    ensures Next(p, now) == (p, None)
  {
  }

  /** Nothing in the line is hard-banned, so the scheduler never meets a hard-banned proxy. */
  lemma NoHardBanInLine(cfg: Settings, p: Pool, clock: Time, now: Time)
    requires Inv(cfg, p, clock)
    ensures forall u :: u in p.queue ==>
              u in p.records && u in Release(p, now).records && !Release(p, now).records[u].hardBanned
  {
    forall u | u in p.queue ensures u in p.records && !Release(p, now).records[u].hardBanned {
      assert u in p.members && !RecordOf(p, u).hardBanned;
    }
  }

  /** Soft-ban spacing: a proxy handed out at or above the soft threshold has waited out its ban. */
  lemma HandedOutAfterTtl(cfg: Settings, p: Pool, clock: Time, now: Time)
    requires Inv(cfg, p, clock) && clock <= now
    requires Next(p, now).1.Some?
    ensures var u := Next(p, now).1.value;
      && u in p.members && u in p.records
      && (p.records[u].failures >= cfg.SoftThreshold() ==>
            && p.records[u].failures < cfg.HardThreshold()
            && p.records[u].lastFailedAt.Some?
            && now >= p.records[u].lastFailedAt.value + cfg.Ttl())
  {
    var q := Release(p, now);
    FirstUsableMeans(q.queue, q.records, now);
    var i := FirstUsable(q.queue, q.records, now);
    var u := q.queue[i];
    assert u in p.queue;
    assert RecordOk(cfg, p.records[u], clock);
  }

  /** The scheduler finds nothing exactly when the metrics count no active proxy, and then the line is as it was. */
  lemma NothingIffNoneActive(cfg: Settings, p: Pool, clock: Time, now: Time)
    requires Inv(cfg, p, clock)
    ensures Next(p, now).1.None? <==> |ActiveSet(p, now)| == 0
    ensures Next(p, now).1.None? ==> Next(p, now).0.queue == p.queue
    ensures Next(p, now).1.Some? ==> Next(p, now).1.value in ActiveSet(p, now)
    ensures ActiveSet(Next(p, now).0, now) == ActiveSet(p, now)
  {
    hide RecordOk, FirstUsable, Distinct;
    if p.queue == [] {
      assert p.members == {};
      assert ActiveSet(p, now) == {};
    } else {
      var q := Release(p, now);
      FirstUsableMeans(q.queue, q.records, now);
      var i := FirstUsable(q.queue, q.records, now);
      if i == |q.queue| {
        forall u | u in p.queue ensures u !in ActiveSet(p, now) {
          var j :| 0 <= j < |q.queue| && q.queue[j] == u;
        }
        assert ActiveSet(p, now) == {};
      } else {
        assert q.queue[i] in p.queue;
        assert q.queue[i] in ActiveSet(p, now);
      }
    }
  }
}
