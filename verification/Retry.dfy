/** Fetching a page: one direct request, then up to fifteen through proxies, under a budget for all waiting. */
module Retry {
  import opened Options
  import opened ProxyPool
  import opened PoolRuns
  import opened ProxyManagers

  datatype CrawlSettings = CrawlSettings(
    blockBackoff: real,
    blockBackoffMax: real,
    backoffBudget: real,
    blockedSeconds: real,
    networkSeconds: real,
    sslSeconds: real,
    serverSeconds: real,
    unknownSeconds: real)

  /** The Retry-After header (section 10.2.3 of RFC 9110): absent, not understood, or a number of seconds from now. */
  datatype RetryAfter = Absent | Garbled | Seconds(s: real)

  /** How one request ends. Only a response or a request error is handled; anything else propagates. */
  datatype Outcome = Response(status: int, retryAfter: RetryAfter) | RequestError(message: string) | OtherError

  function RMax(a: real, b: real): real {
    if a >= b then a else b
  }

  function RMin(a: real, b: real): real {
    if a <= b then a else b
  }

  // ---------- how long to wait ----------

  function Base(c: CrawlSettings): real { RMax(0.5, c.blockBackoff) }

  function Cap(c: CrawlSettings): real { RMax(Base(c), c.blockBackoffMax) }

  function Budget(c: CrawlSettings): real { RMax(Base(c), c.backoffBudget) }

  function Parsed(h: RetryAfter): Option<real> {
    if h.Seconds? then Some(RMax(0.0, h.s)) else None
  }

  function BlockWait(c: CrawlSettings, h: RetryAfter): real {
    match Parsed(h)
    case None => Base(c)
    case Some(s) => RMin(Cap(c), RMax(Base(c), s))
  }

  function Policy(c: CrawlSettings, kind: FailureType): real {
    RMax(0.0,
      match kind
      case Blocked => c.blockedSeconds
      case Network => c.networkSeconds
      case Ssl => c.sslSeconds
      case Server => c.serverSeconds
      case Unknown => c.unknownSeconds)
  }

  predicate IsBlockedStatus(status: int) {
    status == 403 || status == 429 || status == 430
  }

  predicate Contains(text: string, token: string) {
    exists i {:trigger text[i..]} :: 0 <= i <= |text| - |token| && token <= text[i..]
  }

  /** `message` is the lower-cased type and text of the error. */
  function ClassifyFailure(outcome: Outcome): FailureType {
    match outcome
    case Response(status, _) =>
      if IsBlockedStatus(status) then Blocked
      else if 500 <= status <= 599 then Server
      else Unknown
    case RequestError(m) =>
      if Contains(m, "ssl") || Contains(m, "certificate") || Contains(m, "tls") || Contains(m, "verify") then Ssl
      else if Contains(m, "connection") || Contains(m, "connect") || Contains(m, "disconnect")
           || Contains(m, "timeout") || Contains(m, "timed out") then Network
      else Unknown
    case OtherError => Unknown
  }

  function ProxyWait(c: CrawlSettings, outcome: Outcome): real {
    var policy := Policy(c, ClassifyFailure(outcome));
    if outcome.Response? && ClassifyFailure(outcome) == Blocked then RMax(policy, BlockWait(c, outcome.retryAfter))
    else policy
  }

  predicate Exceeded(c: CrawlSettings, accumulated: real, next: real) {
    accumulated + next > Budget(c)
  }

  function Sum(xs: seq<real>): real {
    if xs == [] then 0.0 else Sum(xs[..|xs| - 1]) + xs[|xs| - 1]
  }

  /** A wait for a blocked response lies between the base and the larger of the cap and the policy value; any
      other wait is the policy value, and no wait is negative. */
  lemma WaitBounds(c: CrawlSettings, outcome: Outcome)
    ensures var w := ProxyWait(c, outcome);
      && w >= 0.0
      && (outcome.Response? && IsBlockedStatus(outcome.status) ==>
            Base(c) <= w <= RMax(Cap(c), Policy(c, Blocked)))
      && (!(outcome.Response? && IsBlockedStatus(outcome.status)) ==> w == Policy(c, ClassifyFailure(outcome)))
  {
  }

  /** A server may lengthen the wait by its Retry-After header, never shorten it below the base or past the cap. */
  lemma RetryAfterIsClamped(c: CrawlSettings, h: RetryAfter)
    ensures Base(c) <= BlockWait(c, h) <= Cap(c)
    ensures h.Seconds? && Base(c) <= h.s <= Cap(c) ==> BlockWait(c, h) == h.s
    ensures !h.Seconds? ==> BlockWait(c, h) == Base(c)
  {
  }

  // ---------- the shared manager ----------

  /** What the manager has been through since `start`: the events, and the pools before, between and after them. */
  ghost predicate Recorded(m: ProxyManager, start: Time, run: seq<Event>, ps: seq<Pool>)
    reads m, m.Footprint()
  {
    && m.Valid() && |ps| == |run| + 1 && ps[|run|] == m.Snapshot()
    && Behaviour(m.cfg, start, run, ps) && m.clock == ClockAt(start, run, |run|)
  }

  lemma RecordedLength(m: ProxyManager, start: Time, run: seq<Event>, ps: seq<Pool>)
    requires Recorded(m, start, run, ps)
    ensures |ps| == |run| + 1
  {
  }

  lemma LongerBehaviour(cfg: Settings, start: Time, run: seq<Event>, ps: seq<Pool>, e: Event, p: Pool)
    requires Behaviour(cfg, start, run, ps) && ClockAt(start, run, |run|) <= e.at && p == Step(cfg, ps[|run|], e)
    ensures Behaviour(cfg, start, run + [e], ps + [p])
    ensures ClockAt(start, run + [e], |run| + 1) == Ends(e)
  {
    var longer, pools := run + [e], ps + [p];
    forall i | 0 <= i < |longer| ensures Follows(cfg, longer, pools, i) {
      if i < |run| { assert Follows(cfg, run, ps, i); }
    }
    forall i | 0 <= i < |longer| ensures ClockAt(start, longer, i) <= longer[i].at {
      assert ClockAt(start, run, i) == ClockAt(start, longer, i);
    }
  }

  /** One operation on the shared manager. */
  method Do(m: ProxyManager, e: Event, ghost start: Time, ghost run: seq<Event>, ghost ps: seq<Pool>)
    returns (handedOut: Option<Proxy>)
    requires Recorded(m, start, run, ps) && m.clock <= e.at
    modifies m.Footprint()
    ensures fresh(m.Footprint() - old(m.Footprint()))
    ensures Recorded(m, start, run + [e], ps + [m.Snapshot()]) && m.clock == Ends(e)
    ensures handedOut == if e.op.GetNext? then Next(ps[|run|], e.at).1 else None
  {
    handedOut := m.Perform(e);
    LongerBehaviour(m.cfg, start, run, ps, e, m.Snapshot());
  }

  /** An operation by somebody else, some time after the previous event. */
  datatype Delayed = Delayed(delay: nat, op: Op)

  /** What happens around one attempt: what others do before it and while it is under way, and how it ends. */
  datatype Attempt = Attempt(before: seq<Delayed>, during: seq<Delayed>, outcome: Outcome)

  datatype Ending =
    | Text          // a proxy answered with status 200
    | NoProxy       // the manager had nothing to hand out
    | BudgetSpent   // the next wait would exceed the budget
    | Exhausted     // fifteen attempts were not enough
    | Raised        // an error nobody handles here

  const MAX_ATTEMPTS := 15

  predicate IsSuccess(outcome: Outcome) {
    outcome.Response? && outcome.status == 200
  }

  /** The attempt failed in a way that leads to another one. */
  predicate IsRetried(outcome: Outcome) {
    !outcome.OtherError? && !IsSuccess(outcome)
  }

  /** What an attempt through `u` makes the crawler record. */
  function RecordOp(u: Proxy, outcome: Outcome): Op
    requires !outcome.OtherError?
  {
    if IsSuccess(outcome) then RecordSuccess(u)
    else RecordFailure(u, ClassifyFailure(outcome), None)
  }

  // ---------- the account of a fetch ----------

  function OpsOf(run: seq<Event>): seq<Op> {
    seq(|run|, i requires 0 <= i < |run| => run[i].op)
  }

  function WorkOps(work: seq<Delayed>): seq<Op> {
    seq(|work|, i requires 0 <= i < |work| => work[i].op)
  }

  /** The crawler's record of an attempt through `u`: one, or none when the error propagates. */
  function Records(u: Proxy, outcome: Outcome): seq<Op> {
    if outcome.OtherError? then [] else [RecordOp(u, outcome)]
  }

  /** An attempt up to the hand-out. */
  function Asking(a: Attempt): seq<Op> {
    WorkOps(a.before) + [GetNext]
  }

  /** All that happens to the manager around an attempt through `u`. */
  function AttemptOps(a: Attempt, u: Proxy): seq<Op> {
    Asking(a) + WorkOps(a.during) + Records(u, a.outcome)
  }

  /** All that happens to the manager while the first attempts are made through the proxies `used`. */
  function FetchOps(attempts: seq<Attempt>, used: seq<Proxy>): seq<Op>
    requires |used| <= |attempts|
  {
    if used == [] then [] else
    FetchOps(attempts, used[..|used| - 1]) + AttemptOps(attempts[|used| - 1], used[|used| - 1])
  }

  /** The place in the run of the question that got `used[k]` handed out. */
  function AskedAt(attempts: seq<Attempt>, used: seq<Proxy>, k: nat): nat
    requires k < |used| <= |attempts|
  {
    |FetchOps(attempts, used[..k])| + |attempts[k].before|
  }

  /** Event `i` asks for a proxy, and the manager answers with `u`. */
  ghost predicate HandedOut(run: seq<Event>, ps: seq<Pool>, i: nat, u: Option<Proxy>) {
    |ps| == |run| + 1 && i < |run| && run[i].op.GetNext? && Next(ps[i], run[i].at).1 == u
  }

  /** The exact account of a run: nothing but the attempts through `used`, one after another, and then `rest`; and
      each proxy used is the one the manager handed out for its attempt. */
  ghost predicate Accounted(attempts: seq<Attempt>, used: seq<Proxy>, rest: seq<Op>, run: seq<Event>, ps: seq<Pool>) {
    && |used| <= |attempts| && |ps| == |run| + 1
    && OpsOf(run) == FetchOps(attempts, used) + rest
    && forall k :: 0 <= k < |used| ==> HandedOut(run, ps, AskedAt(attempts, used, k), Some(used[k]))
  }

  lemma OpsSnoc(run: seq<Event>, e: Event)
    ensures OpsOf(run + [e]) == OpsOf(run) + [e.op]
  {
  }

  lemma WorkSnoc(work: seq<Delayed>, i: nat)
    requires i < |work|
    ensures WorkOps(work[..i + 1]) == WorkOps(work[..i]) + [work[i].op]
  {
  }

  lemma LaterHandedOut(run: seq<Event>, ps: seq<Pool>, run': seq<Event>, ps': seq<Pool>, i: nat, u: Option<Proxy>)
    requires HandedOut(run, ps, i, u) && run <= run' && ps <= ps' && |ps'| == |run'| + 1
    ensures HandedOut(run', ps', i, u)
  {
    assert run'[i] == run[i] && ps'[i] == ps[i];
  }

  lemma StillHandedOut(attempts: seq<Attempt>, used: seq<Proxy>, run: seq<Event>, ps: seq<Pool>,
                       run': seq<Event>, ps': seq<Pool>)
    requires Accounted(attempts, used, [], run, ps) && run <= run' && ps <= ps' && |ps'| == |run'| + 1
    ensures forall k :: 0 <= k < |used| ==> HandedOut(run', ps', AskedAt(attempts, used, k), Some(used[k]))
  {
    forall k | 0 <= k < |used| ensures HandedOut(run', ps', AskedAt(attempts, used, k), Some(used[k])) {
      LaterHandedOut(run, ps, run', ps', AskedAt(attempts, used, k), Some(used[k]));
    }
  }

  lemma {:induction false} FetchOpsSnoc(attempts: seq<Attempt>, used: seq<Proxy>, u: Proxy)
    requires |used| < |attempts|
    ensures FetchOps(attempts, used + [u]) == FetchOps(attempts, used) + AttemptOps(attempts[|used|], u)
  {
    assert (used + [u])[..|used|] == used;
  }

  /** One more attempt in the account. */
  lemma LongerAccount(attempts: seq<Attempt>, used: seq<Proxy>, u: Proxy, run: seq<Event>, ps: seq<Pool>,
                      run': seq<Event>, ps': seq<Pool>)
    requires Accounted(attempts, used, [], run, ps) && |used| < |attempts|
    requires run <= run' && ps <= ps' && |ps'| == |run'| + 1 && |OpsOf(run)| == |run|
    requires OpsOf(run') == OpsOf(run) + AttemptOps(attempts[|used|], u)
    requires HandedOut(run', ps', |run| + |attempts[|used|].before|, Some(u))
    ensures Accounted(attempts, used + [u], [], run', ps')
  {
    hide OpsOf, FetchOps, AttemptOps, HandedOut;
    var longer := used + [u];
    StillHandedOut(attempts, used, run, ps, run', ps');
    FetchOpsSnoc(attempts, used, u);
    forall k | 0 <= k < |longer| ensures HandedOut(run', ps', AskedAt(attempts, longer, k), Some(longer[k])) {
      assert k < |used| ==> longer[..k] == used[..k];
      assert k == |used| ==> longer[..k] == used;
    }
  }

  /** A last question, to which the manager had no answer. */
  lemma VainAccount(attempts: seq<Attempt>, used: seq<Proxy>, run: seq<Event>, ps: seq<Pool>,
                    run': seq<Event>, ps': seq<Pool>)
    requires Accounted(attempts, used, [], run, ps) && |used| < |attempts|
    requires run <= run' && ps <= ps' && |ps'| == |run'| + 1
    requires OpsOf(run') == OpsOf(run) + Asking(attempts[|used|])
    ensures Accounted(attempts, used, Asking(attempts[|used|]), run', ps')
  {
    StillHandedOut(attempts, used, run, ps, run', ps');
  }

  /** Each pause is the one its attempt's outcome calls for. */
  ghost predicate Paused(c: CrawlSettings, attempts: seq<Attempt>, waits: seq<real>) {
    && |waits| <= |attempts|
    && forall k :: 0 <= k < |waits| ==>
         IsRetried(attempts[k].outcome) && waits[k] == ProxyWait(c, attempts[k].outcome)
  }

  lemma {:induction false} SumSnoc(xs: seq<real>, x: real)
    ensures Sum(xs + [x]) == Sum(xs) + x
  {
    assert (xs + [x])[..|xs|] == xs;
  }

  // ---------- the fetch ----------

  /** Others use the manager while this fetch is waiting for something: they do their work, and nothing else is done. */
  method Others(m: ProxyManager, work: seq<Delayed>, now: Time,
                ghost start: Time, ghost run: seq<Event>, ghost ps: seq<Pool>)
    returns (later: Time, ghost run': seq<Event>, ghost ps': seq<Pool>)
    requires Recorded(m, start, run, ps) && m.clock <= now
    modifies m.Footprint()
    ensures fresh(m.Footprint() - old(m.Footprint()))
    ensures Recorded(m, start, run', ps') && run <= run' && ps <= ps'
    ensures OpsOf(run') == OpsOf(run) + WorkOps(work)
    ensures m.clock <= later && now <= later
  {
    hide Recorded;
    later, run', ps' := now, run, ps;
    for i := 0 to |work|
      invariant fresh(m.Footprint() - old(m.Footprint()))
      invariant Recorded(m, start, run', ps') && run <= run' && ps <= ps'
      invariant OpsOf(run') == OpsOf(run) + WorkOps(work[..i])
      invariant m.clock <= later && now <= later
    {
      var e := Event(later + work[i].delay, work[i].op);
      OpsSnoc(run', e);
      WorkSnoc(work, i);
      var _ := Do(m, e, start, run', ps');
      run', ps' := run' + [e], ps' + [m.Snapshot()];
      later := Ends(e);
    }
    assert work[..|work|] == work;
  }

  /** Ask the manager for a proxy, after others have had their turns. */
  method Ask(m: ProxyManager, a: Attempt, now: Time, ghost start: Time, ghost run: seq<Event>, ghost ps: seq<Pool>)
    returns (proxy: Option<Proxy>, later: Time, ghost run': seq<Event>, ghost ps': seq<Pool>)
    requires Recorded(m, start, run, ps) && m.clock <= now
    modifies m.Footprint()
    ensures fresh(m.Footprint() - old(m.Footprint()))
    ensures Recorded(m, start, run', ps') && run <= run' && ps <= ps' && m.clock <= later
    ensures OpsOf(run') == OpsOf(run) + Asking(a)
    ensures HandedOut(run', ps', |run| + |a.before|, proxy) && |run'| == |run| + |a.before| + 1
  {
    hide Recorded, Next;
    later, run', ps' := Others(m, a.before, now, start, run, ps);
    assert |ps'| == |run'| + 1 by { RecordedLength(m, start, run', ps'); }
    var e := Event(later, GetNext);
    OpsSnoc(run', e);
    assert |OpsOf(run')| == |run| + |a.before|;
    proxy := Do(m, e, start, run', ps');
    run', ps' := run' + [e], ps' + [m.Snapshot()];
  }

  /** Record the result of an attempt, unless its error propagates, after others have had their turns. */
  method Note(m: ProxyManager, a: Attempt, u: Proxy, now: Time,
              ghost start: Time, ghost run: seq<Event>, ghost ps: seq<Pool>)
    returns (later: Time, ghost run': seq<Event>, ghost ps': seq<Pool>)
    requires Recorded(m, start, run, ps) && m.clock <= now
    modifies m.Footprint()
    ensures fresh(m.Footprint() - old(m.Footprint()))
    ensures Recorded(m, start, run', ps') && run <= run' && ps <= ps' && m.clock <= later
    ensures |ps'| == |run'| + 1
    ensures OpsOf(run') == OpsOf(run) + (WorkOps(a.during) + Records(u, a.outcome))
  {
    hide Recorded;
    later, run', ps' := Others(m, a.during, now, start, run, ps);
    assert |ps'| == |run'| + 1 by { RecordedLength(m, start, run', ps'); }
    if !a.outcome.OtherError? {
      var e := Event(later, RecordOp(u, a.outcome));
      OpsSnoc(run', e);
      var _ := Do(m, e, start, run', ps');
      run', ps' := run' + [e], ps' + [m.Snapshot()];
    }
  }

  /** One attempt up to its outcome: ask for a proxy; if there is one, use it and record the result. */
  method Attempted(m: ProxyManager, a: Attempt, now: Time,
                   ghost start: Time, ghost run: seq<Event>, ghost ps: seq<Pool>)
    returns (proxy: Option<Proxy>, later: Time, ghost run': seq<Event>, ghost ps': seq<Pool>)
    requires Recorded(m, start, run, ps) && m.clock <= now
    modifies m.Footprint()
    ensures fresh(m.Footprint() - old(m.Footprint()))
    ensures Recorded(m, start, run', ps') && run <= run' && ps <= ps' && m.clock <= later
    ensures OpsOf(run') == OpsOf(run) + if proxy.Some? then AttemptOps(a, proxy.value) else Asking(a)
    ensures HandedOut(run', ps', |run| + |a.before|, proxy)
    ensures proxy.None? ==> |run'| == |run| + |a.before| + 1
  {
    hide Recorded;
    proxy, later, run', ps' := Ask(m, a, now, start, run, ps);
    if proxy.Some? {
      ghost var asked, pools := run', ps';
      later, run', ps' := Note(m, a, proxy.value, later, start, run', ps');
      LaterHandedOut(asked, pools, run', ps', |run| + |a.before|, proxy);
      assert OpsOf(run) + Asking(a) + (WorkOps(a.during) + Records(proxy.value, a.outcome)) ==
             OpsOf(run) + AttemptOps(a, proxy.value);
    }
  }

  /** What each ending says: how many tries there were, how the last one went, and whether it was waited after. */
  ghost predicate Conclusive(c: CrawlSettings, ending: Ending, attempts: seq<Attempt>, tries: nat,
                             waits: seq<real>, accumulated: real)
  {
    match ending
    case Exhausted => tries == |waits| == MAX_ATTEMPTS
    case NoProxy => tries == |waits| < MAX_ATTEMPTS
    case Text => |waits| + 1 == tries <= |attempts| && IsSuccess(attempts[tries - 1].outcome)
    case Raised => |waits| + 1 == tries <= |attempts| && attempts[tries - 1].outcome.OtherError?
    case BudgetSpent =>
      && |waits| + 1 == tries <= |attempts| && IsRetried(attempts[tries - 1].outcome)
      && Exceeded(c, accumulated + Sum(waits), ProxyWait(c, attempts[tries - 1].outcome))
  }

  /** An ending reached in turn `i`, when `total` seconds had been waited. */
  predicate Stops(c: CrawlSettings, ending: Ending, attempts: seq<Attempt>, tries: nat, i: nat, total: real) {
    i < |attempts| &&
    var last := attempts[i].outcome;
    match ending
    case NoProxy => tries == i
    case Text => tries == i + 1 && IsSuccess(last)
    case Raised => tries == i + 1 && last.OtherError?
    case BudgetSpent => tries == i + 1 && IsRetried(last) && Exceeded(c, total, ProxyWait(c, last))
    case Exhausted => false
  }

  /** What happens after the last try: when the manager has no proxy, one more question, asked in vain. */
  function LastOps(attempts: seq<Attempt>, tries: nat, ending: Ending): seq<Op> {
    if ending.NoProxy? && tries < |attempts| then Asking(attempts[tries]) else []
  }

  /** The last event asked for a proxy in vain. */
  ghost predicate FoundNothing(run: seq<Event>, ps: seq<Pool>) {
    run != [] && HandedOut(run, ps, |run| - 1, None)
  }

  /** One turn of the proxy loop: an attempt, and either an ending or the pause before the next turn. */
  method Turn(c: CrawlSettings, m: ProxyManager, attempts: seq<Attempt>, i: nat, total: real, now: Time,
              ghost used: seq<Proxy>, ghost start: Time, ghost run: seq<Event>, ghost ps: seq<Pool>)
    returns (stop: Option<Ending>, wait: real, later: Time,
             ghost used': seq<Proxy>, ghost run': seq<Event>, ghost ps': seq<Pool>)
    requires Recorded(m, start, run, ps) && m.clock <= now && |attempts| == MAX_ATTEMPTS
    requires |used| == i < MAX_ATTEMPTS && Accounted(attempts, used, [], run, ps)
    modifies m.Footprint()
    ensures fresh(m.Footprint() - old(m.Footprint()))
    ensures Recorded(m, start, run', ps') && run <= run' && ps <= ps' && m.clock <= later
    ensures wait == ProxyWait(c, attempts[i].outcome)
    ensures stop.Some? ==>
              && Accounted(attempts, used', LastOps(attempts, |used'|, stop.value), run', ps')
              && Stops(c, stop.value, attempts, |used'|, i, total)
    ensures stop == Some(NoProxy) ==> FoundNothing(run', ps')
    ensures stop.None? ==>
              && |used'| == i + 1 && Accounted(attempts, used', [], run', ps')
              && IsRetried(attempts[i].outcome) && !Exceeded(c, total, wait)
  {
    hide Recorded, Accounted, HandedOut, ProxyWait, Exceeded;
    assert |ps| == |run| + 1 && |OpsOf(run)| == |run| by { RecordedLength(m, start, run, ps); }
    var outcome := attempts[i].outcome;
    wait := ProxyWait(c, outcome);
    var proxy;
    proxy, later, run', ps' := Attempted(m, attempts[i], now, start, run, ps);
    assert |ps'| == |run'| + 1 by { RecordedLength(m, start, run', ps'); }
    if proxy.None? {
      VainAccount(attempts, used, run, ps, run', ps');
      return Some(NoProxy), wait, later, used, run', ps';
    }
    LongerAccount(attempts, used, proxy.value, run, ps, run', ps');
    used' := used + [proxy.value];
    if outcome.OtherError? {
      stop := Some(Raised);
    } else if IsSuccess(outcome) {
      stop := Some(Text);
    } else if Exceeded(c, total, wait) {
      stop := Some(BudgetSpent);
    } else {
      stop := None;
    }
  }

  lemma LongerPauses(c: CrawlSettings, attempts: seq<Attempt>, waits: seq<real>)
    requires Paused(c, attempts, waits) && |waits| < |attempts| && IsRetried(attempts[|waits|].outcome)
    ensures Paused(c, attempts, waits + [ProxyWait(c, attempts[|waits|].outcome)])
  {
  }

  lemma RecordedAtStart(m: ProxyManager)
    requires m.Valid()
    ensures Recorded(m, m.clock, [], [m.Snapshot()])
  {
  }

  lemma NothingYet(attempts: seq<Attempt>, ps: seq<Pool>)
    requires |ps| == 1
    ensures Accounted(attempts, [], [], [], ps)
  {
  }

  lemma {:induction false} StopIsConclusive(c: CrawlSettings, ending: Ending, attempts: seq<Attempt>, tries: nat,
                                            waits: seq<real>, accumulated: real)
    requires |attempts| == MAX_ATTEMPTS && Stops(c, ending, attempts, tries, |waits|, accumulated + Sum(waits))
    ensures Conclusive(c, ending, attempts, tries, waits, accumulated)
  {
  }

  /** The proxy loop. `attempts` says how each of the fifteen attempts would go, were it made; `waits` lists the
      pauses that were slept, `used` the proxies the attempts were made through. */
  method FetchWithProxy(c: CrawlSettings, m: ProxyManager, attempts: seq<Attempt>, now: Time, accumulated: real)
    returns (ending: Ending, waits: seq<real>, ghost used: seq<Proxy>, ghost run: seq<Event>, ghost ps: seq<Pool>)
    requires m.Valid() && m.clock <= now && |attempts| == MAX_ATTEMPTS && accumulated <= Budget(c)
    modifies m.Footprint()
    ensures fresh(m.Footprint() - old(m.Footprint()))
    ensures Recorded(m, old(m.clock), run, ps) && ps[0] == old(m.Snapshot())
    ensures Accounted(attempts, used, LastOps(attempts, |used|, ending), run, ps)
    ensures Paused(c, attempts, waits) && accumulated + Sum(waits) <= Budget(c)
    ensures Conclusive(c, ending, attempts, |used|, waits, accumulated)
    ensures ending == NoProxy ==> FoundNothing(run, ps)
    ensures ending == Text <==>
              |used| > 0 && attempts[|used| - 1].outcome.Response? && attempts[|used| - 1].outcome.status == 200
  {
    hide Recorded, HandedOut, FoundNothing, Stops, ProxyManager.Valid, ProxyManager.Snapshot, FetchOps;
    waits, used, run, ps := [], [], [], [m.Snapshot()];
    ghost var start := m.clock;
    var total, later := accumulated, now;
    RecordedAtStart(m);
    NothingYet(attempts, ps);
    for i := 0 to MAX_ATTEMPTS
      invariant fresh(m.Footprint() - old(m.Footprint()))
      invariant Recorded(m, start, run, ps) && [old(m.Snapshot())] <= ps && m.clock <= later
      invariant |used| == |waits| == i && Accounted(attempts, used, [], run, ps) && Paused(c, attempts, waits)
      invariant total == accumulated + Sum(waits) && total <= Budget(c)
    {
      var stop, wait;
      stop, wait, later, used, run, ps := Turn(c, m, attempts, i, total, later, used, start, run, ps);
      if stop.Some? {
        StopIsConclusive(c, stop.value, attempts, |used|, waits, accumulated);
        return stop.value, waits, used, run, ps;
      }
      SumSnoc(waits, wait);
      LongerPauses(c, attempts, waits);
      waits := waits + [wait];
      total := total + wait;
    }
    ending := Exhausted;
  }

  // ---------- one hand-out and one record for each try ----------

  /** What the fetch itself has the manager do for its tries: for each, ask once and record once, or not at all. */
  function OwnOps(attempts: seq<Attempt>, used: seq<Proxy>): seq<Op>
    requires |used| <= |attempts|
  {
    if used == [] then [] else
    var n := |used| - 1;
    OwnOps(attempts, used[..n]) + ([GetNext] + Records(used[n], attempts[n].outcome))
  }

  /** What others have it do around those tries. */
  function OthersOps(attempts: seq<Attempt>, tries: nat): seq<Op>
    requires tries <= |attempts|
  {
    if tries == 0 then [] else
    OthersOps(attempts, tries - 1) + (WorkOps(attempts[tries - 1].before) + WorkOps(attempts[tries - 1].during))
  }

  /** Everything done to the manager is the fetch's own or somebody else's. */
  lemma {:induction false} FetchOpsSplit(attempts: seq<Attempt>, used: seq<Proxy>)
    requires |used| <= |attempts|
    ensures multiset(FetchOps(attempts, used)) ==
            multiset(OwnOps(attempts, used)) + multiset(OthersOps(attempts, |used|))
  {
    if used != [] {
      FetchOpsSplit(attempts, used[..|used| - 1]);
    }
  }

  /** How many of the first tries ended in an error nobody handles. */
  function Unhandled(attempts: seq<Attempt>, tries: nat): nat
    requires tries <= |attempts|
  {
    if tries == 0 then 0 else
    Unhandled(attempts, tries - 1) + (if attempts[tries - 1].outcome.OtherError? then 1 else 0)
  }

  lemma {:induction false} OwnCounts(attempts: seq<Attempt>, used: seq<Proxy>)
    requires |used| <= |attempts|
    ensures multiset(OwnOps(attempts, used))[GetNext] == |used|
    ensures |OwnOps(attempts, used)| == 2 * |used| - Unhandled(attempts, |used|)
  {
    if used != [] {
      OwnCounts(attempts, used[..|used| - 1]);
    }
  }

  lemma {:induction false} UnhandledInPauses(c: CrawlSettings, attempts: seq<Attempt>, waits: seq<real>, n: nat)
    requires Paused(c, attempts, waits) && n <= |waits|
    ensures Unhandled(attempts, n) == 0
  {
    if n > 0 { UnhandledInPauses(c, attempts, waits, n - 1); }
  }

  /** All that the fetch itself has the manager do: a question without an answer ends it. */
  function Own(attempts: seq<Attempt>, used: seq<Proxy>, ending: Ending): seq<Op>
    requires |used| <= |attempts|
  {
    OwnOps(attempts, used) + (if ending.NoProxy? then [GetNext] else [])
  }

  /** All that others have it do meanwhile. */
  function Foreign(attempts: seq<Attempt>, tries: nat, ending: Ending): seq<Op>
    requires tries <= |attempts| && (ending.NoProxy? ==> tries < |attempts|)
  {
    OthersOps(attempts, tries) + (if ending.NoProxy? then WorkOps(attempts[tries].before) else [])
  }

  lemma {:induction false} RunSplit(attempts: seq<Attempt>, used: seq<Proxy>, ending: Ending)
    requires |used| <= |attempts| && (ending.NoProxy? ==> |used| < |attempts|)
    ensures multiset(FetchOps(attempts, used) + LastOps(attempts, |used|, ending)) ==
            multiset(Own(attempts, used, ending)) + multiset(Foreign(attempts, |used|, ending))
  {
    hide FetchOps, OwnOps, OthersOps, WorkOps;
    FetchOpsSplit(attempts, used);
  }

  lemma {:induction false} UnhandledInAll(c: CrawlSettings, attempts: seq<Attempt>, tries: nat, waits: seq<real>,
                                          ending: Ending, accumulated: real)
    requires Paused(c, attempts, waits) && Conclusive(c, ending, attempts, tries, waits, accumulated)
    requires tries <= |attempts|
    ensures Unhandled(attempts, tries) == if ending.Raised? then 1 else 0
  {
    UnhandledInPauses(c, attempts, waits, |waits|);
  }

  lemma {:induction false} OwnTotals(attempts: seq<Attempt>, used: seq<Proxy>, ending: Ending)
    requires |used| <= |attempts|
    ensures var own := Own(attempts, used, ending);
      var vain := if ending.NoProxy? then 1 else 0;
      && multiset(own)[GetNext] == |used| + vain
      && |own| == multiset(own)[GetNext] + |used| - Unhandled(attempts, |used|)
  {
    OwnCounts(attempts, used);
  }

  /** Of everything the manager went through during a fetch, the fetch's own part is one question for each try, at
      most fifteen, one more if it was in vain, and one record for each try, none for one whose error propagated. */
  lemma OnceEach(c: CrawlSettings, attempts: seq<Attempt>, used: seq<Proxy>, waits: seq<real>, ending: Ending,
                 accumulated: real, run: seq<Event>, ps: seq<Pool>)
    requires |attempts| == MAX_ATTEMPTS
    requires Accounted(attempts, used, LastOps(attempts, |used|, ending), run, ps)
    requires Paused(c, attempts, waits) && Conclusive(c, ending, attempts, |used|, waits, accumulated)
    ensures var own := Own(attempts, used, ending);
      && multiset(OpsOf(run)) == multiset(own) + multiset(Foreign(attempts, |used|, ending))
      && multiset(own)[GetNext] == |used| + (if ending.NoProxy? then 1 else 0) <= MAX_ATTEMPTS
      && |own| - multiset(own)[GetNext] == |used| - (if ending.Raised? then 1 else 0)
  {
    hide Own, Foreign, LastOps, FetchOps, OpsOf;
    RunSplit(attempts, used, ending);
    UnhandledInAll(c, attempts, |used|, waits, ending, accumulated);
    OwnTotals(attempts, used, ending);
  }

  /** How a whole fetch ends: by the direct request alone, or by the proxy loop. */
  datatype FetchEnding = DirectText | DirectFailed | DirectRaised | FirstWaitTooLong | ViaProxies(ending: Ending)

  /** The direct request, and the proxy loop when it is answered with a block. */
  method FetchWithHttpx(c: CrawlSettings, m: ProxyManager, direct: Outcome, attempts: seq<Attempt>, now: Time)
    returns (ending: FetchEnding, waits: seq<real>, ghost used: seq<Proxy>, ghost run: seq<Event>, ghost ps: seq<Pool>)
    requires m.Valid() && m.clock <= now && |attempts| == MAX_ATTEMPTS
    modifies m.Footprint()
    ensures fresh(m.Footprint() - old(m.Footprint()))
    ensures Recorded(m, old(m.clock), run, ps) && ps[0] == old(m.Snapshot())
    ensures Sum(waits) <= Budget(c)
    ensures ending == DirectText <==> direct.Response? && 200 <= direct.status <= 299
    ensures ending == DirectFailed <==> direct.RequestError?
    ensures ending == FirstWaitTooLong <==>
              direct.Response? && IsBlockedStatus(direct.status) && BlockWait(c, direct.retryAfter) > Budget(c)
    ensures ending == DirectRaised <==>
              direct.OtherError? ||
              (direct.Response? && !IsBlockedStatus(direct.status) && !(200 <= direct.status <= 299))
    ensures !ending.ViaProxies? ==> waits == [] && run == [] && used == []
    ensures ending.ViaProxies? ==>
              && waits != [] && waits[0] == BlockWait(c, direct.retryAfter)
              && Accounted(attempts, used, LastOps(attempts, |used|, ending.ending), run, ps)
              && Paused(c, attempts, waits[1..])
              && Conclusive(c, ending.ending, attempts, |used|, waits[1..], waits[0])
  {
    waits, used, run, ps := [], [], [], [m.Snapshot()];
    match direct {
      case OtherError => ending := DirectRaised;
      case RequestError(_) => ending := DirectFailed;
      case Response(status, retryAfter) =>
        if IsBlockedStatus(status) {
          var backoff := BlockWait(c, retryAfter);
          if Exceeded(c, 0.0, backoff) {
            return FirstWaitTooLong, waits, used, run, ps;
          }
          var inner, rest;
          inner, rest, used, run, ps := FetchWithProxy(c, m, attempts, now, backoff);
          waits := [backoff] + rest;
          SumCons(backoff, rest);
          assert waits[1..] == rest;
          ending := ViaProxies(inner);
        } else if 200 <= status <= 299 {
          ending := DirectText;
        } else {
          ending := DirectRaised;
        }
    }
  }

  lemma {:induction false} SumCons(x: real, xs: seq<real>)
    ensures Sum([x] + xs) == x + Sum(xs)
  {
    if xs == [] {
      assert [x] + xs == [x];
    } else {
      SumCons(x, xs[..|xs| - 1]);
      assert ([x] + xs)[..|xs|] == [x] + xs[..|xs| - 1];
    }
  }
}
