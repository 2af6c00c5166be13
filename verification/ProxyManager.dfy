/** The proxy manager as the program runs it: one object whose methods update its line, its membership set,
    its dictionary of per-proxy states and its counters in place. Each method is tied to the operation of
    ProxyPool it performs; Valid() carries the invariant of PoolInvariant. */
module ProxyManagers {
  import opened Options
  import opened Sequences
  import opened AnchorCsv
  import opened ProxyPool
  import opened PoolInvariant
  import opened PoolLaws
  import opened PoolRuns

  // ---------- the source page ----------

  /** A row of the source page: the texts of its cells. */
  type TableRow = seq<string>

  /** What the program makes of texts: whether one is an internet address, and what number one spells, if any. */
  datatype Reading = Reading(isAddress: string -> bool, number: string -> Option<int>)

  const MAX_PORT := 65535

  function Digits(n: nat): string {
    if n < 10 then [DIGITS[n]] else Digits(n / 10) + [DIGITS[n % 10]]
  }

  const DIGITS := "0123456789"

  /** The host and port of a row, unless it is malformed. */
  function Endpoint(r: Reading, row: TableRow): (e: Option<(string, nat)>)
    ensures e.Some? ==> r.isAddress(e.value.0) && 1 <= e.value.1 <= MAX_PORT
  {
    if |row| < 2 then None else
    var host, portText := Strip(row[0]), Strip(row[1]);
    if host == "" || portText == "" || !r.isAddress(host) || r.number(portText).None? then None else
    var port := r.number(portText).value;
    if port < 1 || port > MAX_PORT then None else Some((host, port))
  }

  function Url(host: string, port: nat): Proxy {
    "http://" + host + ":" + Digits(port)
  }

  /** The number that decimal digits spell. */
  function Spelled(s: string): int {
    if s == "" then 0 else 10 * Spelled(s[..|s| - 1]) + (s[|s| - 1] as int - '0' as int)
  }

  /** The digits of a number spell it, without a zero in front. */
  lemma {:induction false} DigitsSpell(n: nat)
    ensures Spelled(Digits(n)) == n && Digits(n) != "" && (Digits(n)[0] == '0' ==> n == 0)
    ensures forall i :: 0 <= i < |Digits(n)| ==> '0' <= Digits(n)[i] <= '9'
  {
    if n < 10 {
      assert Digits(n)[..0] == "";
    } else {
      DigitsSpell(n / 10);
      assert Digits(n)[..|Digits(n)| - 1] == Digits(n / 10);
    }
  }

  /** Two addresses are the same exactly for the same host and port. */
  lemma UrlTells(host: string, port: nat, host': string, port': nat)
    ensures Url(host, port) == Url(host', port') <==> host == host' && port == port'
  {
    if Url(host, port) == Url(host', port') {
      var a, b := Digits(port), Digits(port');
      DigitsSpell(port);
      DigitsSpell(port');
      SameEnds("http://" + host, a, "http://" + host', b);
      assert ("http://" + host)[7..] == host && ("http://" + host')[7..] == host';
    }
  }

  lemma LastColon(x: string, a: string)
    requires ':' !in a
    ensures (x + ":" + a)[|x|] == ':' && forall i :: |x| < i < |x + ":" + a| ==> (x + ":" + a)[i] != ':'
  {
    forall i | |x| < i < |x + ":" + a| ensures (x + ":" + a)[i] != ':' {
      assert (x + ":" + a)[i] == a[i - |x| - 1] && a[i - |x| - 1] in a;
    }
  }

  /** What stands before and behind the last colon. */
  lemma SameEnds(x: string, a: string, y: string, b: string)
    requires x + ":" + a == y + ":" + b && ':' !in a && ':' !in b
    ensures x == y && a == b
  {
    var s := x + ":" + a;
    LastColon(x, a);
    LastColon(y, b);
    assert |x| == |y|;
    assert s[..|x|] == x && (y + ":" + b)[..|y|] == y;
    assert s[|x| + 1..] == a && (y + ":" + b)[|y| + 1..] == b;
  }

  /** The row names the proxy `u`. */
  predicate Names(r: Reading, row: TableRow, u: Proxy) {
    Endpoint(r, row).Some? && Url(Endpoint(r, row).value.0, Endpoint(r, row).value.1) == u
  }

  /** The proxies named by the rows, each where it is named first. */
  function FirstNamed(r: Reading, rows: seq<TableRow>): seq<Proxy> {
    if rows == [] then [] else
    var before := FirstNamed(r, rows[..|rows| - 1]);
    var e := Endpoint(r, rows[|rows| - 1]);
    if e.None? || Url(e.value.0, e.value.1) in before then before else before + [Url(e.value.0, e.value.1)]
  }

  function MalformedCount(r: Reading, rows: seq<TableRow>): nat {
    if rows == [] then 0 else
    MalformedCount(r, rows[..|rows| - 1]) + (if Endpoint(r, rows[|rows| - 1]).None? then 1 else 0)
  }

  lemma {:induction false} FirstNamedElements(r: Reading, rows: seq<TableRow>)
    ensures Distinct(FirstNamed(r, rows))
    ensures forall u :: u in FirstNamed(r, rows) <==> exists i :: 0 <= i < |rows| && Names(r, rows[i], u)
  {
    hide Endpoint, Url;
    if rows != [] {
      var n := |rows| - 1;
      var init := rows[..n];
      FirstNamedElements(r, init);
      forall u ensures u in FirstNamed(r, rows) <==> exists i :: 0 <= i < |rows| && Names(r, rows[i], u) {
        assert u in FirstNamed(r, rows) <==> u in FirstNamed(r, init) || Names(r, rows[n], u);
        if u in FirstNamed(r, init) {
          var i :| 0 <= i < n && Names(r, init[i], u);
          assert Names(r, rows[i], u);
        }
        if i :| 0 <= i < n && Names(r, rows[i], u) {
          assert Names(r, init[i], u);
        }
      }
    }
  }

  /** The candidates a page yields: every proxy named by a well-formed row, once, in page order. */
  method ExtractProxies(r: Reading, rows: seq<TableRow>) returns (urls: seq<Proxy>, skipped: nat)
    ensures Distinct(urls)
    ensures forall u :: u in urls <==> exists i :: 0 <= i < |rows| && Names(r, rows[i], u)
    ensures urls == FirstNamed(r, rows)
    ensures skipped == MalformedCount(r, rows)
  {
    urls, skipped := [], 0;
    var seen: set<Proxy> := {};
    for i := 0 to |rows|
      invariant urls == FirstNamed(r, rows[..i]) && forall u :: u in seen <==> u in urls
      invariant skipped == MalformedCount(r, rows[..i])
    {
      assert rows[..i + 1][..i] == rows[..i];
      var cells := rows[i];
      if |cells| < 2 {
        skipped := skipped + 1;
        continue;
      }
      var host, portText := Strip(cells[0]), Strip(cells[1]);
      if host == "" || portText == "" {
        skipped := skipped + 1;
        continue;
      }
      if !r.isAddress(host) || r.number(portText).None? {
        skipped := skipped + 1;
        continue;
      }
      var port := r.number(portText).value;
      if port < 1 || port > MAX_PORT {
        skipped := skipped + 1;
        continue;
      }
      var url := Url(host, port);
      if url !in seen {
        seen := seen + {url};
        urls := urls + [url];
      }
    }
    assert rows[..|rows|] == rows;
    FirstNamedElements(r, rows);
  }

  /** What the health check of a proxy answers, and when. */
  datatype Health = Health(healthy: bool, at: Time)

  /** The candidates of a page, each with what its health check would answer. */
  function CandidatesOn(urls: seq<Proxy>, health: Proxy -> Health): seq<Candidate> {
    seq(|urls|, i requires 0 <= i < |urls| => Candidate(urls[i], health(urls[i]).healthy, health(urls[i]).at))
  }

  /** What the source page comes to, unless it could not be had. */
  function ReplyOf(r: Reading, page: Option<seq<TableRow>>, health: Proxy -> Health): Reply {
    if page.None? then SourceError else Listing(CandidatesOn(FirstNamed(r, page.value), health))
  }

  /** No page makes candidates with repeats, whatever rows it repeats. */
  lemma {:induction false} PageHasNoRepeats(r: Reading, rows: seq<TableRow>, health: Proxy -> Health)
    ensures DistinctUrls(CandidatesOn(FirstNamed(r, rows), health))
  {
    FirstNamedElements(r, rows);
  }

  class ProxyState {
    var failureCount: nat
    var lastFailureType: Option<FailureType>
    var lastFailedAt: Option<Time>
    var softBanUntil: Option<Time>
    var isHardBanned: bool

    constructor ()
      ensures Value() == CLEAN
    {
      failureCount, lastFailureType, lastFailedAt, softBanUntil, isHardBanned := 0, None, None, None, false;
    }

    function Value(): Record
      reads this
    {
      Record(failureCount, lastFailureType, lastFailedAt, softBanUntil, isHardBanned)
    }

    function HasActiveSoftBan(now: Time): bool
      reads this
    {
      softBanUntil.Some? && softBanUntil.value > now
    }
  }

  class ProxySourceState {
    var consecutiveFailures: nat
    var cooldownUntil: Option<Time>

    constructor ()
      ensures Value() == FRESH_SOURCE
    {
      consecutiveFailures, cooldownUntil := 0, None;
    }

    function Value(): Source
      reads this
    {
      Source(consecutiveFailures, cooldownUntil)
    }
  }

  class ProxyManager {
    const cfg: Settings
    var proxies: seq<Proxy>
    var proxySet: set<Proxy>
    var proxyStates: map<Proxy, ProxyState>
    /** The keys of `proxyStates` in insertion order, which is the order a Python dictionary iterates in. */
    var stateOrder: seq<Proxy>
    var failureTypeCounts: Tally
    var batchFailureTypeCounts: Tally
    var sourceState: ProxySourceState
    /** The latest time any method has seen. */
    ghost var clock: Time

    ghost function Footprint(): set<object>
      reads this
    {
      {this, sourceState} + (set u | u in proxyStates :: proxyStates[u])
    }

    /** No two proxies share a state object. */
    ghost predicate Separate()
      reads this
    {
      forall u, v :: u in proxyStates && v in proxyStates && u != v ==> proxyStates[u] != proxyStates[v]
    }

    /** The values of the state objects. */
    ghost function Records(): map<Proxy, Record>
      reads this`proxyStates, set u | u in proxyStates :: proxyStates[u]
    {
      map u | u in proxyStates :: proxyStates[u].Value()
    }

    ghost function Snapshot(): Pool
      reads this, Footprint()
    {
      Pool(proxies, proxySet, stateOrder, Records(), failureTypeCounts, batchFailureTypeCounts, sourceState.Value())
    }

    ghost predicate Valid()
      reads this, Footprint()
    {
      Separate() && Inv(cfg, Snapshot(), clock)
    }

    constructor (settings: Settings, ghost now: Time)
      ensures Valid() && fresh(Footprint()) && cfg == settings && clock == now
      ensures Snapshot() == EMPTY
    {
      cfg := settings;
      proxies, proxySet, proxyStates, stateOrder := [], {}, map[], [];
      failureTypeCounts, batchFailureTypeCounts := map[], map[];
      sourceState := new ProxySourceState();
      clock := now;
      new;
      EmptyInv(cfg, now);
      assert Snapshot() == EMPTY;
    }

    method EnsureProxyState(u: Proxy) returns (state: ProxyState)
      requires Separate()
      modifies this`proxyStates, this`stateOrder
      ensures Separate() && fresh(Footprint() - old(Footprint()))
      ensures Snapshot() == Ensured(old(Snapshot()), u)
      ensures u in proxyStates && state == proxyStates[u] && state.Value() == RecordOf(old(Snapshot()), u)
      ensures u in old(proxyStates) ==> proxyStates == old(proxyStates)
    {
      if u in proxyStates {
        state := proxyStates[u];
      } else {
        state := new ProxyState();
        proxyStates := proxyStates[u := state];
        stateOrder := stateOrder + [u];
      }
      assert Records() == Ensured(old(Snapshot()), u).records;
    }

    method RegisterProxy(u: Proxy) returns (added: bool)
      requires Separate()
      modifies this
      ensures Separate() && fresh(Footprint() - old(Footprint())) && clock == old(clock)
      ensures Snapshot() == Register(old(Snapshot()), u)
      ensures added == Admissible(old(Snapshot()), u)
      ensures u in old(proxyStates) ==> proxyStates == old(proxyStates)
      ensures sourceState == old(sourceState)
    {
      hide Records;
      var state := EnsureProxyState(u);
      if state.isHardBanned {
        return false;
      }
      if u in proxySet {
        return false;
      }
      proxies := proxies + [u];
      proxySet := proxySet + {u};
      return true;
    }

    method RemoveFromPool(u: Proxy)
      modifies this`proxies, this`proxySet
      ensures u !in old(proxySet) ==> proxies == old(proxies) && proxySet == old(proxySet)
      ensures u in old(proxySet) ==> proxies == Removed(old(proxies), u) && proxySet == old(proxySet) - {u}
      ensures Snapshot() == Without(old(Snapshot()), u)
    {
      if u !in proxySet {
        return;
      }
      proxySet := proxySet - {u};
      var kept: seq<Proxy> := [];
      for i := 0 to |proxies|
        invariant proxies == old(proxies) && proxySet == old(proxySet) - {u}
        invariant kept == Removed(proxies[..i], u)
      {
        RemovedSnoc(proxies[..i], proxies[i], u);
        assert proxies[..i + 1] == proxies[..i] + [proxies[i]];
        if proxies[i] != u {
          kept := kept + [proxies[i]];
        }
      }
      assert proxies[..|proxies|] == proxies;
      proxies := kept;
    }

    /** The part of recording a failure that concerns the proxy's own state. */
    method MarkFailed(state: ProxyState, kind: FailureType, timestamp: Time)
      modifies state
      ensures state.Value() == Failed(cfg, old(state.Value()), kind, timestamp)
      ensures state.lastFailureType == Some(kind) && state.lastFailedAt == Some(timestamp)
    {
      state.failureCount := state.failureCount + 1;
      state.lastFailureType := Some(kind);
      state.lastFailedAt := Some(timestamp);
      var softThreshold := Max(1, cfg.softBanFailureThreshold);
      var hardThreshold := Max(softThreshold, cfg.hardBanFailureThreshold);
      if state.failureCount >= hardThreshold {
        state.isHardBanned := true;
        state.softBanUntil := None;
      } else if state.failureCount >= softThreshold {
        var ttlSeconds := Max(1, cfg.softBanTtlSeconds);
        state.softBanUntil := Some(timestamp + ttlSeconds * MICROS_PER_SECOND);
      }
    }

    /** When one state object has changed, so has one record. */
    twostate lemma OneStateChanged(u: Proxy)
      requires old(Separate()) && u in proxyStates && unchanged(this)
      requires forall v :: v in proxyStates && proxyStates[v] != proxyStates[u] ==> unchanged(proxyStates[v])
      ensures Separate() && Records() == old(Records())[u := proxyStates[u].Value()]
    {
    }

    /** The state update of a failure, before the counters and the line hear of it. */
    method NoteFailure(u: Proxy, kind: FailureType, timestamp: Time) returns (state: ProxyState)
      requires Separate()
      modifies Footprint()
      ensures Separate() && fresh(Footprint() - old(Footprint())) && clock == old(clock)
      ensures Snapshot() == Put(old(Snapshot()), u, Failed(cfg, RecordOf(old(Snapshot()), u), kind, timestamp))
      ensures u in proxyStates && state == proxyStates[u]
      ensures state.lastFailureType == Some(kind) && state.lastFailedAt == Some(timestamp)
    {
      hide Failed, Shape, Records, Separate;
      state := EnsureProxyState(u);
      label ensured:
      MarkFailed(state, kind, timestamp);
      OneStateChanged@ensured(u);
    }

    lemma RecordOfState(u: Proxy)
      requires u in proxyStates
      ensures RecordOf(Snapshot(), u) == proxyStates[u].Value()
    {
    }

    method ChargeFailure(u: Proxy, kind: FailureType)
      requires Separate() && u in proxyStates
      modifies this`failureTypeCounts, this`batchFailureTypeCounts, this`proxies, this`proxySet
      ensures Snapshot() == Charge(cfg, old(Snapshot()), u, kind)
    {
      hide Bumped, Without, RecordOf, Records, Separate;
      RecordOfState(u);
      failureTypeCounts := Bumped(failureTypeCounts, kind);
      batchFailureTypeCounts := Bumped(batchFailureTypeCounts, kind);
      assert Records() == old(Records());
      if proxyStates[u].failureCount >= cfg.HardThreshold() {
        RemoveFromPool(u);
      }
    }

    method RecordProxyFailure(u: Proxy, kind: FailureType, failedAt: Option<Time>, now: Time)
      returns (state: ProxyState)
      requires Separate()
      modifies Footprint()
      ensures Separate() && fresh(Footprint() - old(Footprint())) && clock == old(clock)
      ensures Snapshot() == Fail(cfg, old(Snapshot()), u, kind, if failedAt.Some? then failedAt.value else now)
      ensures u in proxyStates && state == proxyStates[u]
      ensures state.lastFailureType == Some(kind)
      ensures state.lastFailedAt == Some(if failedAt.Some? then failedAt.value else now)
    {
      var timestamp := if failedAt.Some? then failedAt.value else now;
      state := NoteFailure(u, kind, timestamp);
      ChargeFailure(u, kind);
    }

    /** The part of recording a success that concerns the proxy's own state. */
    method MarkSucceeded(state: ProxyState)
      modifies state
      ensures state.Value() == Succeeded(cfg, old(state.Value()))
    {
      if state.isHardBanned {
        return;
      }
      var decay := Max(1, cfg.successDecay);
      state.failureCount := Max(0, state.failureCount - decay);
      if state.failureCount < Max(1, cfg.softBanFailureThreshold) {
        state.softBanUntil := None;
      }
      if state.failureCount == 0 {
        state.lastFailureType := None;
        state.lastFailedAt := None;
      }
    }

    method RecordProxySuccess(u: Proxy) returns (state: ProxyState)
      requires Separate()
      modifies Footprint()
      ensures Separate() && fresh(Footprint() - old(Footprint())) && clock == old(clock)
      ensures Snapshot() == Succeed(cfg, old(Snapshot()), u)
      ensures u in proxyStates && state == proxyStates[u]
    {
      hide Succeeded, Shape, Records, Separate;
      state := EnsureProxyState(u);
      label ensured:
      MarkSucceeded(state);
      OneStateChanged@ensured(u);
    }

    /** Drop one soft ban if it has run out. */
    method ReleaseIfExpired(u: Proxy, now: Time, ghost before: map<Proxy, Record>, ghost done: seq<Proxy>)
      returns (gone: bool)
      requires Separate() && u in proxyStates && u in before && u !in done
      requires Records() == ReleasedTo(before, done, now)
      modifies proxyStates[u]
      ensures Records() == ReleasedTo(before, done + [u], now) && gone == Expired(before[u], now)
    {
      var state := proxyStates[u];
      assert state.Value() == Records()[u] == before[u];
      gone := state.softBanUntil.Some? && state.softBanUntil.value <= now;
      if gone {
        state.softBanUntil := None;
      }
    }

    /** Drop every soft ban that has run out, and count them. */
    method ReleaseExpiredSoftBans(now: Time) returns (released: nat)
      requires Separate() && Shape(Snapshot())
      modifies set u | u in proxyStates :: proxyStates[u]
      ensures Separate() && Snapshot() == Release(old(Snapshot()), now)
      ensures released == |ExpiredSet(old(Snapshot()), now)|
    {
      hide Shape, Expired, Released, CountIn, Distinct;
      ghost var p := Snapshot();
      CountInSnoc([], "", ExpiredSet(p, now));
      ghost var expired := ExpiredSet(p, now);
      released := 0;
      for i := 0 to |stateOrder|
        invariant Records() == ReleasedTo(p.records, p.order[..i], now)
        invariant released == CountIn(p.order[..i], expired)
      {
        OrderPrefix(p, i);
        CountInSnoc(p.order[..i], p.order[i], expired);
        var gone := ReleaseIfExpired(stateOrder[i], now, p.records, p.order[..i]);
        if gone {
          released := released + 1;
        }
      }
      assert p.order[..|p.order|] == p.order;
      ReleaseDone(p, now);
    }

    method GetNextProxy(now: Time) returns (proxy: Option<Proxy>)
      requires Valid()
      modifies Footprint()
      ensures Separate() && Footprint() == old(Footprint()) && clock == old(clock)
      ensures (Snapshot(), proxy) == Next(old(Snapshot()), now)
    {
      hide FirstUsable, RecordsOk, Shape, TalliesOk, SourceOk, Release, Records, RotatedBy, Next;
      if proxies == [] {
        NextOfNobody(Snapshot(), now);
        return None;
      }
      NoHardBanInLine(cfg, Snapshot(), clock, now);
      NextByScan(Snapshot(), now);
      var _ := ReleaseExpiredSoftBans(now);
      proxy := Rotate(now);
    }

    /** The scan of the line: each proxy looked at goes to the back, until one may be handed out. */
    method Rotate(now: Time) returns (proxy: Option<Proxy>)
      requires Separate()
      requires forall u :: u in proxies ==> u in Records() && !Records()[u].hardBanned
      modifies this`proxies
      ensures Separate() && Snapshot() == old(Snapshot()).(queue := proxies)
      ensures var i := FirstUsable(old(proxies), Records(), now);
        if i == |old(proxies)| then proxy == None && proxies == old(proxies)
        else proxy == Some(old(proxies)[i]) && proxies == RotatedBy(old(proxies), i + 1)
    {
      hide FirstUsable;
      ghost var line, records := proxies, Records();
      var n := |proxies|;
      for k := 0 to n
        invariant proxies == RotatedBy(line, k) && Records() == records
        invariant forall j :: 0 <= j < k ==> !Usable(records[line[j]], now)
      {
        var candidate := proxies[0];
        assert candidate == line[k] && line[k] in line;
        var state := proxyStates[candidate];
        assert records[candidate] == state.Value();
        if state.isHardBanned {
          assert false;
        }
        proxies := proxies[1..] + [candidate];
        OneFurther(line, k);
        if !state.HasActiveSoftBan(now) {
          FirstUsableIs(line, records, now, k);
          return Some(candidate);
        }
      }
      FirstUsableIs(line, records, now, n);
      assert RotatedBy(line, n) == line;
      return None;
    }

    method GetMetrics(now: Time) returns (active: nat, softBanned: nat, hardBanned: nat)
      requires Shape(Snapshot())
      ensures active == |ActiveSet(Snapshot(), now)|
      ensures softBanned == |SoftBannedSet(Snapshot(), now)|
      ensures hardBanned == |HardBannedSet(Snapshot())|
    {
      hide Distinct, CountIn, ActiveSet;
      assert forall u :: u in proxyStates ==> Records()[u] == proxyStates[u].Value();
      forall i | 0 <= i < |stateOrder| ensures stateOrder[i] in proxyStates {
        assert stateOrder[i] in Snapshot().order && stateOrder[i] in Snapshot().records;
      }
      softBanned, hardBanned := CountBanned(now, SoftBannedSet(Snapshot(), now), HardBannedSet(Snapshot()));
      CountInAll(stateOrder, SoftBannedSet(Snapshot(), now));
      CountInAll(stateOrder, HardBannedSet(Snapshot()));
      active := CountActive(now);
    }

    method CountBanned(now: Time, ghost soft: set<Proxy>, ghost hard: set<Proxy>)
      returns (softBanned: nat, hardBanned: nat)
      requires forall i :: 0 <= i < |stateOrder| ==> stateOrder[i] in proxyStates
      requires forall u :: u in proxyStates ==> (u in hard <==> proxyStates[u].isHardBanned)
      requires forall u :: u in proxyStates ==>
                 (u in soft <==> !proxyStates[u].isHardBanned && proxyStates[u].HasActiveSoftBan(now))
      ensures softBanned == CountIn(stateOrder, soft) && hardBanned == CountIn(stateOrder, hard)
    {
      softBanned, hardBanned := 0, 0;
      for i := 0 to |stateOrder|
        invariant softBanned == CountIn(stateOrder[..i], soft) && hardBanned == CountIn(stateOrder[..i], hard)
      {
        assert stateOrder[..i + 1][..i] == stateOrder[..i];
        var state := proxyStates[stateOrder[i]];
        if state.isHardBanned {
          hardBanned := hardBanned + 1;
        } else if state.HasActiveSoftBan(now) {
          softBanned := softBanned + 1;
        }
      }
      assert stateOrder[..|stateOrder|] == stateOrder;
    }

    method CountActive(now: Time) returns (active: nat)
      requires proxySet <= proxyStates.Keys
      ensures active == |ActiveSet(Snapshot(), now)|
    {
      active := 0;
      ghost var usable := ActiveSet(Snapshot(), now);
      assert forall u :: u in proxySet ==> u in proxyStates && Records()[u] == proxyStates[u].Value();
      var rest := proxySet;
      while rest != {}
        invariant rest <= proxySet
        invariant active == |usable - rest|
        decreases rest
      {
        var u :| u in rest;
        var state := proxyStates[u];
        Uncovered(usable, rest, u);
        rest := rest - {u};
        if !state.isHardBanned && !state.HasActiveSoftBan(now) {
          active := active + 1;
        }
      }
      assert usable - rest == usable;
    }

    method ResetProxies(clearHistory: bool)
      requires Separate()
      modifies this
      ensures Separate() && fresh(Footprint() - old(Footprint())) && clock == old(clock)
      ensures Snapshot() == Reset(old(Snapshot()), clearHistory)
    {
      proxies, proxySet := [], {};
      if clearHistory {
        proxyStates, stateOrder := map[], [];
        failureTypeCounts, batchFailureTypeCounts := map[], map[];
        sourceState := new ProxySourceState();
        assert Records() == map[];
      }
    }

    method StartBatch()
      modifies this`batchFailureTypeCounts
      ensures Snapshot() == old(Snapshot()).(batch := map[])
    {
      batchFailureTypeCounts := map[];
    }

    method GetFailureRates(batchOnly: bool) returns (rates: map<FailureType, real>)
      ensures var counts := if batchOnly then batchFailureTypeCounts else failureTypeCounts;
        rates == map[Blocked := Rate(counts, Blocked), Network := Rate(counts, Network), Ssl := Rate(counts, Ssl),
                     Server := Rate(counts, Server), Unknown := Rate(counts, Unknown)]
    {
      var counts := if batchOnly then batchFailureTypeCounts else failureTypeCounts;
      var total := Total(counts);
      if total == 0 {
        return map[Blocked := 0.0, Network := 0.0, Ssl := 0.0, Server := 0.0, Unknown := 0.0];
      }
      var n := total as real;
      return map[Blocked := Count(counts, Blocked) as real / n, Network := Count(counts, Network) as real / n,
                 Ssl := Count(counts, Ssl) as real / n, Server := Count(counts, Server) as real / n,
                 Unknown := Count(counts, Unknown) as real / n];
    }

    /** Wipe one targeted state and put its proxy back in line. */
    method Pardon(u: Proxy) returns (requeued: bool)
      requires Separate() && u in proxyStates
      modifies Footprint()
      ensures Separate() && proxyStates == old(proxyStates) && stateOrder == old(stateOrder)
      ensures sourceState == old(sourceState) && clock == old(clock)
      ensures var p := old(Snapshot());
        Snapshot() == Register(p.(records := p.records[u := CLEAN]), u) && requeued == (u !in p.members)
    {
      var state := proxyStates[u];
      state.failureCount, state.lastFailureType, state.lastFailedAt := 0, None, None;
      state.softBanUntil, state.isHardBanned := None, false;
      assert Records() == old(Records())[u := CLEAN];
      requeued := RegisterProxy(u);
    }

    /** Forget the failures of the targeted types and put their proxies back in line, in dictionary order. */
    method RehabilitateProxyHistory(kinds: set<FailureType>) returns (summary: Summary)
      requires Valid()
      modifies Footprint()
      ensures Separate() && proxyStates == old(proxyStates) && sourceState == old(sourceState) && clock == old(clock)
      ensures Snapshot() == Rehabilitate(old(Snapshot()), kinds)
      ensures summary == Summarised(old(Snapshot()), old(Snapshot()).order, kinds)
    {
      if kinds == {} {
        NobodyTargeted(Snapshot());
        return Summary(0, 0, 0, 0);
      }
      ghost var p := Snapshot();
      forall u | u in p.records && Targeted(p.records[u], kinds) ensures !NothingToReset(p.records[u]) {
        TargetedHasFailures(cfg, p, kinds, clock, u);
      }
      summary := RehabilitateEach(kinds);
      RehabilitationDone(p, kinds);
    }

    /** One turn of the loop. The guard for states with nothing to reset is kept; it never fires. */
    method RehabilitateOne(u: Proxy, kinds: set<FailureType>, sofar: Summary, ghost p: Pool, ghost keys: seq<Proxy>)
      returns (summary: Summary)
      requires Separate() && u in proxyStates && u in p.records && Distinct(keys) && u !in keys
      requires Targeted(p.records[u], kinds) ==> !NothingToReset(p.records[u])
      requires Snapshot() == RehabilitatedTo(p, keys, kinds) && sofar == Summarised(p, keys, kinds)
      modifies Footprint()
      ensures Separate() && proxyStates == old(proxyStates) && stateOrder == old(stateOrder)
      ensures sourceState == old(sourceState) && clock == old(clock)
      ensures Snapshot() == RehabilitatedTo(p, keys + [u], kinds) && summary == Summarised(p, keys + [u], kinds)
    {
      hide RehabilitatedTo, Summarised, Register, Distinct;
      summary := sofar;
      var state := proxyStates[u];
      RehabilitationStep(p, keys, u, kinds);
      SummaryStep(p, keys, u, kinds);
      assert state.Value() == Records()[u] == p.records[u];
      if Targeted(state.Value(), kinds) {
        if NothingToReset(state.Value()) {
          assert false;
        }
        summary := summary.(
          reset := summary.reset + 1,
          releasedSoftBans := summary.releasedSoftBans + One(state.softBanUntil.Some?),
          releasedHardBans := summary.releasedHardBans + One(state.isHardBanned));
        var requeued := Pardon(u);
        if requeued {
          summary := summary.(requeued := summary.requeued + 1);
        }
      }
    }

    method RehabilitateEach(kinds: set<FailureType>) returns (summary: Summary)
      requires Separate() && Shape(Snapshot())
      requires forall u :: u in Records() && Targeted(Records()[u], kinds) ==> !NothingToReset(Records()[u])
      modifies Footprint()
      ensures Separate() && proxyStates == old(proxyStates) && sourceState == old(sourceState) && clock == old(clock)
      ensures Snapshot() == RehabilitatedTo(old(Snapshot()), old(Snapshot()).order, kinds)
      ensures summary == Summarised(old(Snapshot()), old(Snapshot()).order, kinds)
    {
      hide Targeted;
      summary := Summary(0, 0, 0, 0);
      ghost var p := Snapshot();
      assert RehabilitatedTo(p, [], kinds).records == p.records;
      for i := 0 to |stateOrder|
        invariant stateOrder == p.order && proxyStates == old(proxyStates) && sourceState == old(sourceState)
        invariant Separate() && clock == old(clock)
        invariant Snapshot() == RehabilitatedTo(p, p.order[..i], kinds)
        invariant summary == Summarised(p, p.order[..i], kinds)
      {
        OrderPrefix(p, i);
        summary := RehabilitateOne(stateOrder[i], kinds, summary, p, p.order[..i]);
      }
      assert p.order[..|p.order|] == p.order;
    }

    method MarkSourceFailure(now: Time)
      modifies sourceState
      ensures sourceState.Value() == SourceFailed(cfg, old(sourceState.Value()), now)
    {
      sourceState.consecutiveFailures := sourceState.consecutiveFailures + 1;
      var threshold := Max(1, cfg.sourceFailureThreshold);
      if sourceState.consecutiveFailures >= threshold {
        var cooldownSeconds := Max(1, cfg.sourceCooldownSeconds);
        sourceState.cooldownUntil := Some(now + cooldownSeconds * MICROS_PER_SECOND);
        sourceState.consecutiveFailures := 0;
      }
    }

    method MarkSourceSuccess()
      modifies sourceState
      ensures sourceState.Value() == FRESH_SOURCE
    {
      sourceState.consecutiveFailures, sourceState.cooldownUntil := 0, None;
    }

    /** The body of the candidate loop. */
    method Consider(c: Candidate) returns (verdict: Verdict)
      requires Separate()
      modifies Footprint()
      ensures Separate() && fresh(Footprint() - old(Footprint())) && clock == old(clock)
      ensures Snapshot() == Admit(cfg, old(Snapshot()), c) && verdict == Judge(old(Snapshot()), c)
    {
      hide Shape, Register, Fail, Records, Separate;
      ghost var p := Snapshot();
      var state := EnsureProxyState(c.url);
      RegisterEnsured(p, c.url);
      if state.isHardBanned {
        return HardBanned;
      }
      if c.url in proxySet {
        return Existing;
      }
      if !c.healthy {
        var _ := RecordProxyFailure(c.url, Network, None, c.checkedAt);
        return Unhealthy;
      }
      var added := RegisterProxy(c.url);
      return Added;
    }

    method AdmitCandidates(cs: seq<Candidate>) returns (added: nat)
      requires Separate()
      modifies Footprint()
      ensures Separate() && fresh(Footprint() - old(Footprint())) && clock == old(clock)
      ensures Snapshot() == AdmitAll(cfg, old(Snapshot()), cs).pool
      ensures added == AdmitAll(cfg, old(Snapshot()), cs).added
    {
      hide Admit, Separate;
      ghost var p := Snapshot();
      var unhealthy, existing, banned := 0, 0, 0;
      added := 0;
      for i := 0 to |cs|
        invariant Separate() && fresh(Footprint() - old(Footprint())) && clock == old(clock)
        invariant AdmitAll(cfg, p, cs[..i]) == Intake(Snapshot(), added, unhealthy, existing, banned)
      {
        assert cs[..i + 1][..i] == cs[..i];
        var verdict := Consider(cs[i]);
        match verdict {
          case Added => added := added + 1;
          case Unhealthy => unhealthy := unhealthy + 1;
          case Existing => existing := existing + 1;
          case HardBanned => banned := banned + 1;
        }
      }
      assert cs[..|cs|] == cs;
    }

    method FetchProxies(startedAt: Time, reply: Reply, finishedAt: Time) returns (line: seq<Proxy>)
      requires Separate()
      modifies Footprint()
      ensures Separate() && fresh(Footprint() - old(Footprint())) && clock == old(clock)
      ensures Snapshot() == Fetch(cfg, old(Snapshot()), startedAt, reply, finishedAt)
      ensures line == proxies
      ensures var resting := old(sourceState.cooldownUntil);
        if resting.Some? && resting.value > startedAt then Snapshot() == old(Snapshot())
        else line == Taken(cfg, old(Snapshot()), reply).pool.queue
    {
      hide Records, Separate;
      if sourceState.cooldownUntil.Some? && sourceState.cooldownUntil.value > startedAt {
        return proxies;
      }
      if reply.SourceError? || reply.candidates == [] {
        MarkSourceFailure(finishedAt);
        return proxies;
      }
      var added := AdmitCandidates(reply.candidates);
      if added > 0 {
        MarkSourceSuccess();
      } else {
        MarkSourceFailure(finishedAt);
      }
      return proxies;
    }

    /** A whole collection, from the rows of the source page: what is well-formed and new to the page is judged by the
        pool as it was, the well ones join the line in page order, and nothing else does. */
    method FetchFromPage(r: Reading, page: Option<seq<TableRow>>, health: Proxy -> Health, startedAt: Time,
                         finishedAt: Time)
      returns (line: seq<Proxy>)
      requires Valid()
      modifies Footprint()
      ensures Separate() && fresh(Footprint() - old(Footprint())) && clock == old(clock) && line == proxies
      ensures Snapshot() == Fetch(cfg, old(Snapshot()), startedAt, ReplyOf(r, page, health), finishedAt)
      ensures page.Some? && !OnCooldown(old(Snapshot()).source, startedAt) ==>
                var cs := CandidatesOn(FirstNamed(r, page.value), health);
                && line == old(proxies) + Judged(old(Snapshot()), cs, Added)
                && |cs| == |Judged(old(Snapshot()), cs, Added)| + |Judged(old(Snapshot()), cs, Unhealthy)| +
                           |Judged(old(Snapshot()), cs, Existing)| + |Judged(old(Snapshot()), cs, HardBanned)|
    {
      hide RecordsOk, Shape, TalliesOk, SourceOk, Separate, Records, AdmitAll, Judged, FirstNamed;
      if page.None? {
        line := FetchProxies(startedAt, SourceError, finishedAt);
      } else {
        var urls, _ := ExtractProxies(r, page.value);
        PageHasNoRepeats(r, page.value, health);
        CollectionPartitions(cfg, Snapshot(), CandidatesOn(urls, health), clock);
        line := FetchProxies(startedAt, Listing(CandidatesOn(urls, health)), finishedAt);
      }
    }

    /** Any operation, as one event of a run. */
    method Perform(e: Event) returns (handedOut: Option<Proxy>)
      requires Valid() && clock <= e.at
      modifies Footprint()
      ensures Valid() && fresh(Footprint() - old(Footprint())) && clock == Ends(e)
      ensures Snapshot() == Step(cfg, old(Snapshot()), e)
      ensures handedOut == if e.op.GetNext? then Next(old(Snapshot()), e.at).1 else None
    {
      hide Step, Inv, Next;
      StepKeepsInv(cfg, Snapshot(), e, clock);
      handedOut := Dispatch(e);
      clock := Ends(e);
    }

    method Dispatch(e: Event) returns (handedOut: Option<Proxy>)
      requires Valid()
      modifies Footprint()
      ensures Separate() && fresh(Footprint() - old(Footprint())) && clock == old(clock)
      ensures Snapshot() == Step(cfg, old(Snapshot()), e)
      ensures handedOut == if e.op.GetNext? then Next(old(Snapshot()), e.at).1 else None
    {
      hide Next, Register, Fail, Succeed, Rehabilitate, Fetch, RecordsOk, TalliesOk, SourceOk, Records;
      handedOut := None;
      match e.op {
        case GetNext => handedOut := GetNextProxy(e.at);
        case RegisterProxy(u) => var _ := RegisterProxy(u);
        case RecordFailure(u, kind, failedAt) => var _ := RecordProxyFailure(u, kind, failedAt, e.at);
        case RecordSuccess(u) => var _ := RecordProxySuccess(u);
        case RehabilitateHistory(kinds) => var _ := RehabilitateProxyHistory(kinds);
        case FetchProxies(reply, _) => var _ := FetchProxies(e.at, reply, Ends(e));
        case ResetProxies(clear) => ResetProxies(clear);
        case StartBatch => StartBatch();
        case GetMetrics => var _, _, _ := GetMetrics(e.at);
      }
    }

    /** Fetch until enough proxies are active, at most the configured number of times. `fetches` says when each
        fetch would run and what the source would answer. */
    method EnsureMinAvailableProxies(minAvailable: Option<int>, now: Time, fetches: seq<Event>)
      returns (enough: bool, made: nat, ghost ps: seq<Pool>)
      requires Valid() && clock <= now && |fetches| == cfg.Attempts()
      requires Timely(now, fetches) && forall i :: 0 <= i < |fetches| ==> fetches[i].op.FetchProxies?
      modifies Footprint()
      ensures Valid() && fresh(Footprint() - old(Footprint()))
      ensures made <= cfg.Attempts() && (!enough ==> made == cfg.Attempts())
      ensures var most := if cfg.replenishAttempts < 1 then 1 else cfg.replenishAttempts;
        made <= most && (!enough ==> made == most)
      ensures var active := |ActiveSet(Snapshot(), ClockAt(now, fetches, made))|;
        enough <==> active >= 1 && active >= if minAvailable in {None, Some(0)} then cfg.minAvailableProxies
                                             else minAvailable.value
      ensures Behaviour(cfg, now, fetches[..made], ps) && ps[0] == old(Snapshot()) && Snapshot() == ps[made]
      ensures enough <==>
                |ActiveSet(Snapshot(), ClockAt(now, fetches, made))| >= RequiredProxies(cfg, minAvailable)
      ensures TooFewBefore(RequiredProxies(cfg, minAvailable), now, fetches, ps, made)
      ensures old(Snapshot()).queue <= Snapshot().queue
      ensures ActiveSet(old(Snapshot()), ClockAt(now, fetches, made)) <=
              ActiveSet(Snapshot(), ClockAt(now, fetches, made))
    {
      enough, made, ps := Replenish(RequiredProxies(cfg, minAvailable), now, fetches);
      ChainIsBehaviour(cfg, now, fetches, made, ps);
      InvLater(cfg, ps[0], old(clock), now);
      FetchesKeepActive(cfg, now, fetches[..made], ps, made, ClockAt(now, fetches, made));
    }

    method Replenish(required: int, now: Time, fetches: seq<Event>)
      returns (enough: bool, made: nat, ghost ps: seq<Pool>)
      requires Valid() && clock <= now && Timely(now, fetches)
      modifies Footprint()
      ensures Valid() && fresh(Footprint() - old(Footprint()))
      ensures made <= |fetches| && (!enough ==> made == |fetches|)
      ensures |ps| == made + 1 && ps[0] == old(Snapshot()) && ps[made] == Snapshot()
      ensures Chain(cfg, fetches, ps, made)
      ensures enough <==> |ActiveSet(Snapshot(), ClockAt(now, fetches, made))| >= required
      ensures TooFewBefore(required, now, fetches, ps, made)
    {
      hide ActiveSet, Records, Separate, Shape;
      ps, made := [Snapshot()], 0;
      var available, _, _ := GetMetrics(now);
      enough := available >= required;
      while !enough && made < |fetches|
        invariant made <= |fetches| && Valid() && fresh(Footprint() - old(Footprint()))
        invariant clock <= ClockAt(now, fetches, made)
        invariant |ps| == made + 1 && ps[0] == old(Snapshot()) && ps[made] == Snapshot()
        invariant Chain(cfg, fetches, ps, made)
        invariant enough <==> |ActiveSet(ps[made], ClockAt(now, fetches, made))| >= required
        invariant TooFewBefore(required, now, fetches, ps, made)
        decreases |fetches| - made
      {
        assert ClockAt(now, fetches, made) <= fetches[made].at;
        var availableNow := FetchAndCount(fetches, made, ps);
        TooFewLonger(required, now, fetches, ps, made, Snapshot());
        ps, made := ps + [Snapshot()], made + 1;
        enough := availableNow >= required;
      }
    }

    method FetchAndCount(fetches: seq<Event>, i: nat, ghost ps: seq<Pool>) returns (available: nat)
      requires Valid() && i < |fetches| && clock <= fetches[i].at
      requires |ps| == i + 1 && Chain(cfg, fetches, ps, i) && Snapshot() == ps[i]
      modifies Footprint()
      ensures Valid() && fresh(Footprint() - old(Footprint())) && clock == Ends(fetches[i])
      ensures Chain(cfg, fetches, ps + [Snapshot()], i + 1)
      ensures available == |ActiveSet(Snapshot(), Ends(fetches[i]))|
    {
      hide Records, Separate;
      var _ := Perform(fetches[i]);
      LongerChain(cfg, fetches, ps, i, Snapshot());
      var active, _, _ := GetMetrics(Ends(fetches[i]));
      return active;
    }
  }
}
