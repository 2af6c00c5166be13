/** What a fetch does with each answer, told from the answers themselves and in the numbers of the settings. */
module RetryLaws {
  import opened Options
  import opened ProxyPool
  import opened PoolRuns
  import opened Retry

  // ---------- which answer is which ----------

  predicate Answered(outcome: Outcome, status: int) {
    outcome.Response? && outcome.status == status
  }

  /** `token` stands somewhere in `text`. */
  ghost predicate Mentions(text: string, token: string) {
    exists i, j :: 0 <= i <= j <= |text| && text[i..j] == token
  }

  ghost predicate MentionsTls(m: string) {
    Mentions(m, "ssl") || Mentions(m, "certificate") || Mentions(m, "tls") || Mentions(m, "verify")
  }

  ghost predicate MentionsConnection(m: string) {
    Mentions(m, "connection") || Mentions(m, "connect") || Mentions(m, "disconnect") || Mentions(m, "timeout") ||
    Mentions(m, "timed out")
  }

  /** What is to be recorded about `u` for one outcome. */
  ghost predicate Calls(u: Proxy, outcome: Outcome, op: Op) {
    match outcome
    case Response(status, _) =>
      && (status == 200 <==> op == RecordSuccess(u))
      && (status in {403, 429, 430} <==> op == RecordFailure(u, Blocked, None))
      && (500 <= status <= 599 <==> op == RecordFailure(u, Server, None))
      && (status != 200 && status !in {403, 429, 430} && !(500 <= status <= 599) <==>
            op == RecordFailure(u, Unknown, None))
    case RequestError(m) =>
      && (MentionsTls(m) <==> op == RecordFailure(u, Ssl, None))
      && (!MentionsTls(m) && MentionsConnection(m) <==> op == RecordFailure(u, Network, None))
      && (!MentionsTls(m) && !MentionsConnection(m) <==> op == RecordFailure(u, Unknown, None))
    case OtherError => false
  }

  lemma ContainsIff(text: string, token: string)
    ensures Contains(text, token) <==> Mentions(text, token)
  {
    if Contains(text, token) {
      var i :| 0 <= i <= |text| - |token| && token <= text[i..];
      assert text[i..i + |token|] == token;
    }
    if i, j :| 0 <= i <= j <= |text| && text[i..j] == token {
      assert text[i..][..|token|] == token;
      assert token <= text[i..];
    }
  }

  lemma RecordOpIs(u: Proxy, outcome: Outcome)
    requires !outcome.OtherError?
    ensures Calls(u, outcome, RecordOp(u, outcome))
  {
    if outcome.RequestError? {
      var m := outcome.message;
      ContainsIff(m, "ssl");
      ContainsIff(m, "certificate");
      ContainsIff(m, "tls");
      ContainsIff(m, "verify");
      ContainsIff(m, "connection");
      ContainsIff(m, "connect");
      ContainsIff(m, "disconnect");
      ContainsIff(m, "timeout");
      ContainsIff(m, "timed out");
    }
  }

  // ---------- the records of a run ----------

  lemma {:induction false} FetchOpsPrefix(attempts: seq<Attempt>, used: seq<Proxy>, k: nat)
    requires k <= |used| <= |attempts|
    ensures FetchOps(attempts, used[..k]) <= FetchOps(attempts, used)
  {
    if k < |used| {
      var init := used[..|used| - 1];
      FetchOpsPrefix(attempts, init, k);
      assert init[..k] == used[..k];
    } else {
      assert used[..k] == used;
    }
  }

  /** The place in the run of the record of the k-th try. */
  function RecordedAt(attempts: seq<Attempt>, used: seq<Proxy>, k: nat): nat
    requires k < |used| <= |attempts|
  {
    AskedAt(attempts, used, k) + 1 + |attempts[k].during|
  }

  /** The k-th try was handed its proxy and recorded, about that proxy, what its answer calls for: a success for 200 and
      for nothing else, and otherwise a failure of the kind its status or error names. */
  lemma {:induction false} TryRecords(attempts: seq<Attempt>, used: seq<Proxy>, rest: seq<Op>, run: seq<Event>,
                                      ps: seq<Pool>, k: nat)
    requires Accounted(attempts, used, rest, run, ps) && k < |used|
    ensures HandedOut(run, ps, AskedAt(attempts, used, k), Some(used[k]))
    ensures !attempts[k].outcome.OtherError? ==>
              && RecordedAt(attempts, used, k) < |run|
              && Calls(used[k], attempts[k].outcome, run[RecordedAt(attempts, used, k)].op)
  {
    hide FetchOps, Calls, RecordOp, HandedOut, WorkOps;
    var a, u := attempts[k], used[k];
    if !a.outcome.OtherError? {
      var before := FetchOps(attempts, used[..k]);
      FetchOpsPrefix(attempts, used, k + 1);
      assert used[..k + 1] == used[..k] + [u] && used[..k + 1][..k] == used[..k];
      FetchOpsSnoc(attempts, used[..k], u);
      OpAt(OpsOf(run), before, Asking(a), WorkOps(a.during), RecordOp(u, a.outcome));
      WorkLengths(a);
      RecordOpIs(u, a.outcome);
    }
  }

  lemma WorkLengths(a: Attempt)
    ensures |WorkOps(a.before)| == |a.before| && |WorkOps(a.during)| == |a.during|
  {
  }

  lemma OpAt(all: seq<Op>, before: seq<Op>, asking: seq<Op>, during: seq<Op>, op: Op)
    requires before + (asking + during + [op]) <= all
    ensures |before| + |asking| + |during| < |all| && all[|before| + |asking| + |during|] == op
  {
    var part := before + (asking + during + [op]);
    assert part[|before| + |asking| + |during|] == op;
  }

  /** The fetch ends with a text if and only if the last try was answered with 200, and with an error of its own if and
      only if the last try ended in one nobody catches; no earlier try went either way. It gives up after fifteen tries,
      or when the next wait would go over the budget. */
  lemma {:induction false} EndingIs(c: CrawlSettings, ending: Ending, attempts: seq<Attempt>, tries: nat,
                                    waits: seq<real>, accumulated: real)
    requires tries <= |attempts| && Paused(c, attempts, waits)
    requires Conclusive(c, ending, attempts, tries, waits, accumulated)
    ensures ending == Text <==> tries > 0 && Answered(attempts[tries - 1].outcome, 200)
    ensures ending == Raised <==> tries > 0 && attempts[tries - 1].outcome.OtherError?
    ensures forall k :: 0 <= k < tries - 1 ==>
              !Answered(attempts[k].outcome, 200) && !attempts[k].outcome.OtherError?
    ensures ending == Exhausted ==> tries == 15
    ensures ending == BudgetSpent ==>
              tries > 0 && accumulated + Sum(waits) + ProxyWait(c, attempts[tries - 1].outcome) > Budget(c)
  {
    forall k | 0 <= k < |waits| ensures !Answered(attempts[k].outcome, 200) && !attempts[k].outcome.OtherError? {
      assert IsRetried(attempts[k].outcome);
    }
  }

  // ---------- the waits, in the numbers of the settings ----------

  function AtLeast(x: real, least: real): real {
    if x < least then least else x
  }

  /** The time to wait after a block: what Retry-After asks for, kept between the base, at least half a second, and the
      cap, at least the base; the base itself when it asks for nothing understood. */
  lemma BlockWaitIs(c: CrawlSettings, h: RetryAfter)
    ensures var base := AtLeast(c.blockBackoff, 0.5);
      var cap := AtLeast(c.blockBackoffMax, base);
      BlockWait(c, h) == if !h.Seconds? || h.s <= base then base else if h.s <= cap then h.s else cap
  {
  }

  /** The time to wait after a try: the configured seconds of its kind, never negative, and after a block at least what
      the block calls for. */
  lemma ProxyWaitIs(c: CrawlSettings, outcome: Outcome)
    requires !outcome.OtherError?
    ensures outcome.Response? && outcome.status in {403, 429, 430} ==>
              ProxyWait(c, outcome) == AtLeast(BlockWait(c, outcome.retryAfter), AtLeast(c.blockedSeconds, 0.0))
    ensures outcome.Response? && 500 <= outcome.status <= 599 ==> ProxyWait(c, outcome) == AtLeast(c.serverSeconds, 0.0)
    ensures outcome.Response? && outcome.status !in {403, 429, 430} && !(500 <= outcome.status <= 599) ==>
              ProxyWait(c, outcome) == AtLeast(c.unknownSeconds, 0.0)
    ensures outcome.RequestError? ==>
              ProxyWait(c, outcome) == AtLeast(if MentionsTls(outcome.message) then c.sslSeconds
                                               else if MentionsConnection(outcome.message) then c.networkSeconds
                                               else c.unknownSeconds, 0.0)
  {
    RecordOpIs("", outcome);
  }

  /** All waiting of one fetch stays within the configured budget, or the base if that is more. */
  lemma BudgetIs(c: CrawlSettings)
    ensures Budget(c) == AtLeast(c.backoffBudget, AtLeast(c.blockBackoff, 0.5))
  {
  }
}
