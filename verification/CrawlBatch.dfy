/** One crawl batch: the two concurrency limits, and the keywords and site visits that run under them. */
module CrawlBatch {
  import opened Options
  import opened Sequences

  datatype BatchSettings = BatchSettings(
    siteConcurrency: int,
    siteConcurrencyMax: int,
    keywordConcurrency: int,
    keywordConcurrencyMax: int,
    protectionSiteConcurrency: int,
    protectionKeywordConcurrency: int,
    protectionKeywordRatio: Option<real>)

  // ---------- the limits ----------

  function Clamp(requested: int, maxAllowed: int): int {
    Max(1, Min(requested, Max(1, maxAllowed)))
  }

  datatype Limits = Limits(site: int, keyword: int)

  function ResolveConcurrency(s: BatchSettings): Limits {
    var site := Clamp(s.siteConcurrency, s.siteConcurrencyMax);
    var keyword := Clamp(s.keywordConcurrency, s.keywordConcurrencyMax);
    Limits(site, if keyword < site then site else keyword)
  }

  function Protected(s: BatchSettings, l: Limits): Limits {
    var site := Clamp(s.protectionSiteConcurrency, l.site);
    var keyword := Clamp(s.protectionKeywordConcurrency, l.keyword);
    Limits(site, if keyword < site then site else keyword)
  }

  /** The configured share, or one half when it is not a number, kept between a tenth and the whole. */
  function KeywordRatio(s: BatchSettings): real {
    var r := if s.protectionKeywordRatio.Some? then s.protectionKeywordRatio.value else 0.5;
    if r > 1.0 then 1.0 else if r < 0.1 then 0.1 else r
  }

  /** How many keywords a protected batch keeps: the share, rounded down, but at least one. */
  function KeptCount(s: BatchSettings, n: nat): int {
    Max(1, (n as real * KeywordRatio(s)).Floor)
  }

  ghost predicate WellLimited(l: Limits) {
    1 <= l.site <= l.keyword
  }

  /** Both ways of setting the limits leave at least one site slot and no fewer keyword slots than site slots, and
      protection never raises either limit. */
  lemma LimitsAreSound(s: BatchSettings)
    ensures WellLimited(ResolveConcurrency(s))
    ensures WellLimited(Protected(s, ResolveConcurrency(s)))
    ensures Protected(s, ResolveConcurrency(s)).site <= ResolveConcurrency(s).site
    ensures Protected(s, ResolveConcurrency(s)).keyword <= ResolveConcurrency(s).keyword
  {
  }

  /** A protected batch keeps between one and all of its keywords, and no more than its share once the share is a
      whole keyword. */
  lemma KeptCountInRange(s: BatchSettings, n: nat)
    requires n > 0
    ensures 1 <= KeptCount(s, n) <= n
    ensures n >= 10 ==> KeptCount(s, n) as real <= n as real * KeywordRatio(s)
  {
    hide KeywordRatio;
    RatioRange(s);
    var share := n as real * KeywordRatio(s);
    ShareBounds(n as real, KeywordRatio(s), share);
    WholeShare(share, n);
  }

  lemma RatioRange(s: BatchSettings)
    ensures 0.1 <= KeywordRatio(s) <= 1.0
  {
  }

  lemma WholeShare(share: real, n: nat)
    requires n > 0 && 0.1 * n as real <= share <= n as real
    ensures 1 <= Max(1, share.Floor) <= n
    ensures n >= 10 ==> Max(1, share.Floor) as real <= share
  {
    assert share.Floor as real <= share;
  }

  lemma ShareBounds(n: real, r: real, share: real)
    requires n >= 0.0 && 0.1 <= r <= 1.0 && share == n * r
    ensures 0.1 * n <= share <= n
  {
    assert n * (1.0 - r) >= 0.0;
    assert n * (r - 0.1) >= 0.0;
  }

  // ---------- keywords and their site visits ----------

  /** One keyword on one site: waiting for a site slot, holding one, or finished, well or badly. */
  datatype SitePhase = Waiting | Holding | Finished

  /** One keyword: waiting for a keyword slot, holding it while its sites are crawled, or done. */
  datatype KeywordPhase = Queued | Active(sites: seq<SitePhase>) | Done

  type Batch = seq<KeywordPhase>

  /** A keyword takes a free slot; a site visit of an active keyword takes a free slot of its site; a visit ends and
      gives its slot back; a keyword whose visits have all ended gives its slot back. */
  datatype Step = StartKeyword(k: nat) | StartSite(k: nat, j: nat) | EndSite(k: nat, j: nat) | EndKeyword(k: nat)

  function ActiveCount(b: Batch): nat {
    if b == [] then 0 else (if b[0].Active? then 1 else 0) + ActiveCount(b[1..])
  }

  function HolderCount(b: Batch, j: nat): nat {
    if b == [] then 0
    else (if b[0].Active? && j < |b[0].sites| && b[0].sites[j].Holding? then 1 else 0) + HolderCount(b[1..], j)
  }

  function AllWaiting(sites: nat): seq<SitePhase> {
    seq(sites, _ => Waiting)
  }

  predicate Enabled(l: Limits, sites: nat, b: Batch, s: Step) {
    match s
    case StartKeyword(k) => k < |b| && b[k].Queued? && ActiveCount(b) < l.keyword
    case StartSite(k, j) =>
      k < |b| && b[k].Active? && j < |b[k].sites| && b[k].sites[j].Waiting? && HolderCount(b, j) < l.site
    case EndSite(k, j) => k < |b| && b[k].Active? && j < |b[k].sites| && b[k].sites[j].Holding?
    case EndKeyword(k) => k < |b| && b[k].Active? && forall j :: 0 <= j < |b[k].sites| ==> b[k].sites[j].Finished?
  }

  function After(l: Limits, sites: nat, b: Batch, s: Step): Batch
    requires Enabled(l, sites, b, s)
  {
    match s
    case StartKeyword(k) => b[k := Active(AllWaiting(sites))]
    case StartSite(k, j) => b[k := Active(b[k].sites[j := Holding])]
    case EndSite(k, j) => b[k := Active(b[k].sites[j := Finished])]
    case EndKeyword(k) => b[k := Done]
  }

  ghost predicate WithinLimits(l: Limits, sites: nat, b: Batch) {
    && ActiveCount(b) <= l.keyword
    && (forall j :: 0 <= j < sites ==> HolderCount(b, j) <= l.site)
    && (forall k :: 0 <= k < |b| && b[k].Active? ==> |b[k].sites| == sites)
  }

  /** What is still to be done for a site visit, for a keyword, for the batch: one unit for each step. */
  function SiteWork(p: SitePhase): nat {
    match p case Waiting => 2 case Holding => 1 case Finished => 0
  }

  function SitesWork(ps: seq<SitePhase>): nat {
    if ps == [] then 0 else SiteWork(ps[0]) + SitesWork(ps[1..])
  }

  function KeywordWork(t: KeywordPhase, sites: nat): nat {
    match t case Queued => 2 + 2 * sites case Active(ps) => 1 + SitesWork(ps) case Done => 0
  }

  function Work(b: Batch, sites: nat): nat {
    if b == [] then 0 else KeywordWork(b[0], sites) + Work(b[1..], sites)
  }

  // ---------- counting after one change ----------

  lemma {:induction false} ActiveCountUpdate(b: Batch, k: nat, t: KeywordPhase)
    requires k < |b|
    ensures ActiveCount(b[k := t]) == ActiveCount(b) - (if b[k].Active? then 1 else 0) + (if t.Active? then 1 else 0)
  {
    if k > 0 {
      assert b[k := t][1..] == b[1..][k - 1 := t];
      ActiveCountUpdate(b[1..], k - 1, t);
    } else {
      assert b[k := t][1..] == b[1..];
    }
  }

  function Holds(t: KeywordPhase, j: nat): nat {
    if t.Active? && j < |t.sites| && t.sites[j].Holding? then 1 else 0
  }

  lemma {:induction false} HolderCountUpdate(b: Batch, k: nat, t: KeywordPhase, j: nat)
    requires k < |b|
    ensures HolderCount(b[k := t], j) == HolderCount(b, j) - Holds(b[k], j) + Holds(t, j)
  {
    if k > 0 {
      assert b[k := t][1..] == b[1..][k - 1 := t];
      HolderCountUpdate(b[1..], k - 1, t, j);
    } else {
      assert b[k := t][1..] == b[1..];
    }
  }

  lemma {:induction false} WorkUpdate(b: Batch, k: nat, t: KeywordPhase, sites: nat)
    requires k < |b|
    ensures Work(b[k := t], sites) == Work(b, sites) - KeywordWork(b[k], sites) + KeywordWork(t, sites)
  {
    if k > 0 {
      assert b[k := t][1..] == b[1..][k - 1 := t];
      WorkUpdate(b[1..], k - 1, t, sites);
    } else {
      assert b[k := t][1..] == b[1..];
    }
  }

  lemma {:induction false} SitesWorkUpdate(ps: seq<SitePhase>, j: nat, p: SitePhase)
    requires j < |ps|
    ensures SitesWork(ps[j := p]) == SitesWork(ps) - SiteWork(ps[j]) + SiteWork(p)
  {
    if j > 0 {
      assert ps[j := p][1..] == ps[1..][j - 1 := p];
      SitesWorkUpdate(ps[1..], j - 1, p);
    } else {
      assert ps[j := p][1..] == ps[1..];
    }
  }

  lemma {:induction false} SitesWorkAll(ps: seq<SitePhase>, p: SitePhase)
    requires forall j :: 0 <= j < |ps| ==> ps[j] == p
    ensures SitesWork(ps) == |ps| * SiteWork(p)
  {
    if ps != [] { SitesWorkAll(ps[1..], p); }
  }

  // ---------- what every step keeps ----------

  /** The new state of the keyword that a step moves. */
  function Moved(l: Limits, sites: nat, b: Batch, s: Step): KeywordPhase
    requires Enabled(l, sites, b, s)
  {
    After(l, sites, b, s)[s.k]
  }

  /** No step takes more keyword or site slots than there are, and each uses up exactly one unit of work. */
  lemma {:induction false} StepKeepsLimits(l: Limits, sites: nat, b: Batch, s: Step)
    requires WithinLimits(l, sites, b) && Enabled(l, sites, b, s)
    ensures WithinLimits(l, sites, After(l, sites, b, s))
    ensures Work(After(l, sites, b, s), sites) == Work(b, sites) - 1
    ensures |After(l, sites, b, s)| == |b|
  {
    var k := s.k;
    var t := Moved(l, sites, b, s);
    var next := After(l, sites, b, s);
    assert next == b[k := t];
    ActiveCountUpdate(b, k, t);
    WorkUpdate(b, k, t, sites);
    forall j | 0 <= j < sites ensures HolderCount(next, j) <= l.site {
      HolderCountUpdate(b, k, t, j);
    }
    match s {
      case StartKeyword(_) => SitesWorkAll(AllWaiting(sites), Waiting);
      case StartSite(_, j) => SitesWorkUpdate(b[k].sites, j, Holding);
      case EndSite(_, j) => SitesWorkUpdate(b[k].sites, j, Finished);
      case EndKeyword(_) => SitesWorkAll(b[k].sites, Finished);
    }
  }

  /** No deadlock: as long as anything is unfinished some step can be taken. Either an active keyword can end a
      visit or itself, or every visit that waits for a site slot can have one, or every keyword in the queue can. */
  lemma SomeStepEnabled(l: Limits, sites: nat, b: Batch) returns (s: Step)
    requires WellLimited(l) && WithinLimits(l, sites, b)
    requires exists k :: 0 <= k < |b| && !b[k].Done?
    ensures Enabled(l, sites, b, s)
  {
    if k, j :| 0 <= k < |b| && b[k].Active? && 0 <= j < |b[k].sites| && b[k].sites[j].Holding? {
      return EndSite(k, j);
    }
    if k :| 0 <= k < |b| && b[k].Active? {
      if j :| 0 <= j < |b[k].sites| && b[k].sites[j].Waiting? {
        NobodyHolds(b, j);
        return StartSite(k, j);
      }
      return EndKeyword(k);
    }
    var k :| 0 <= k < |b| && !b[k].Done?;
    NobodyActive(b);
    return StartKeyword(k);
  }

  /** Whatever order the slots are given out in: if no active keyword can end a visit or itself, then every visit that
      waits may have a slot, and with no keyword active every queued keyword may. */
  lemma AnyWaiterMayProceed(l: Limits, sites: nat, b: Batch)
    requires WellLimited(l)
    requires forall k, j :: !Enabled(l, sites, b, EndSite(k, j))
    requires forall k :: !Enabled(l, sites, b, EndKeyword(k))
    ensures forall k, j :: 0 <= k < |b| && b[k].Active? && 0 <= j < |b[k].sites| && b[k].sites[j].Waiting? ==>
              Enabled(l, sites, b, StartSite(k, j))
    ensures forall k :: 0 <= k < |b| && b[k].Active? ==> exists j :: 0 <= j < |b[k].sites| && b[k].sites[j].Waiting?
    ensures (forall k :: 0 <= k < |b| ==> !b[k].Active?) ==>
              forall k :: 0 <= k < |b| && b[k].Queued? ==> Enabled(l, sites, b, StartKeyword(k))
  {
    forall k, j | 0 <= k < |b| && b[k].Active? && 0 <= j < |b[k].sites| ensures !b[k].sites[j].Holding? {
      assert !Enabled(l, sites, b, EndSite(k, j));
    }
    forall k, j | 0 <= k < |b| && b[k].Active? && 0 <= j < |b[k].sites| && b[k].sites[j].Waiting?
      ensures Enabled(l, sites, b, StartSite(k, j))
    {
      NobodyHolds(b, j);
    }
    forall k | 0 <= k < |b| && b[k].Active? ensures exists j :: 0 <= j < |b[k].sites| && b[k].sites[j].Waiting? {
      assert !Enabled(l, sites, b, EndKeyword(k));
    }
    if forall k :: 0 <= k < |b| ==> !b[k].Active? {
      NobodyActive(b);
    }
  }

  lemma {:induction false} NobodyHolds(b: Batch, j: nat)
    requires forall k :: 0 <= k < |b| && b[k].Active? && j < |b[k].sites| ==> !b[k].sites[j].Holding?
    ensures HolderCount(b, j) == 0
  {
    if b != [] {
      forall k | 0 <= k < |b[1..]| && b[1..][k].Active? && j < |b[1..][k].sites| ensures !b[1..][k].sites[j].Holding? {
        assert b[k + 1] == b[1..][k];
      }
      NobodyHolds(b[1..], j);
    }
  }

  lemma {:induction false} NobodyActive(b: Batch)
    requires forall k :: 0 <= k < |b| ==> !b[k].Active?
    ensures ActiveCount(b) == 0
  {
    if b != [] { NobodyActive(b[1..]); }
  }

  // ---------- whole runs ----------

  function Fresh(keywords: nat): Batch {
    seq(keywords, _ => Queued)
  }

  ghost predicate Takes(l: Limits, sites: nat, bs: seq<Batch>, ss: seq<Step>, i: nat)
    requires i < |ss| && |bs| == |ss| + 1
  {
    Enabled(l, sites, bs[i], ss[i]) && bs[i + 1] == After(l, sites, bs[i], ss[i])
  }

  /** `bs` is a run of the batch under the steps `ss`, with all keywords in the queue at the start. */
  ghost predicate Run(l: Limits, sites: nat, bs: seq<Batch>, ss: seq<Step>) {
    && |bs| == |ss| + 1 && bs[0] == Fresh(|bs[0]|)
    && forall i {:trigger Takes(l, sites, bs, ss, i)} :: 0 <= i < |ss| ==> Takes(l, sites, bs, ss, i)
  }

  /** Two steps for each keyword, and two for each of its sites. */
  function TotalSteps(keywords: nat, sites: nat): nat {
    keywords * (2 + 2 * sites)
  }

  lemma {:induction false} FreshBatch(l: Limits, keywords: nat, sites: nat)
    requires WellLimited(l)
    ensures WithinLimits(l, sites, Fresh(keywords))
    ensures Work(Fresh(keywords), sites) == TotalSteps(keywords, sites)
  {
    NobodyActive(Fresh(keywords));
    forall j: nat ensures HolderCount(Fresh(keywords), j) == 0 { NobodyHolds(Fresh(keywords), j); }
    if keywords > 0 {
      FreshBatch(l, keywords - 1, sites);
      assert Fresh(keywords)[1..] == Fresh(keywords - 1);
    }
  }

  /** In every state of every run the limits hold, and the work left is what the steps so far have not done. */
  lemma {:induction false} RunKeepsLimits(l: Limits, sites: nat, bs: seq<Batch>, ss: seq<Step>, i: nat)
    requires WellLimited(l) && Run(l, sites, bs, ss) && i <= |ss|
    ensures WithinLimits(l, sites, bs[i]) && |bs[i]| == |bs[0]|
    ensures Work(bs[i], sites) + i == TotalSteps(|bs[0]|, sites)
  {
    if i == 0 {
      FreshBatch(l, |bs[0]|, sites);
    } else {
      RunKeepsLimits(l, sites, bs, ss, i - 1);
      assert Takes(l, sites, bs, ss, i - 1);
      StepKeepsLimits(l, sites, bs[i - 1], ss[i - 1]);
    }
  }

  lemma {:induction false} NoWorkLeft(b: Batch, sites: nat)
    ensures Work(b, sites) == 0 <==> forall k :: 0 <= k < |b| ==> b[k].Done?
  {
    if b != [] {
      NoWorkLeft(b[1..], sites);
      assert (forall k :: 0 <= k < |b| ==> b[k].Done?) <==>
             b[0].Done? && forall k :: 0 <= k < |b[1..]| ==> b[1..][k].Done? by {
        if b[0].Done? && forall k :: 0 <= k < |b[1..]| ==> b[1..][k].Done? {
          forall k | 0 <= k < |b| ensures b[k].Done? { if k > 0 { assert b[k] == b[1..][k - 1]; } }
        }
        if forall k :: 0 <= k < |b| ==> b[k].Done? {
          forall k | 0 <= k < |b[1..]| ensures b[1..][k].Done? { assert b[1..][k] == b[k + 1]; }
        }
      }
    }
  }

  /** Progress: a run can always go on until all keywords are done, and it has then taken exactly two steps for
      each keyword and two for each of its sites; no run is longer. */
  lemma BatchFinishes(l: Limits, sites: nat, bs: seq<Batch>, ss: seq<Step>)
    requires WellLimited(l) && Run(l, sites, bs, ss)
    ensures |ss| <= TotalSteps(|bs[0]|, sites)
    ensures |ss| == TotalSteps(|bs[0]|, sites) <==> forall k :: 0 <= k < |bs[|ss|]| ==> bs[|ss|][k].Done?
    ensures |ss| == TotalSteps(|bs[0]|, sites) <==> forall s :: !Enabled(l, sites, bs[|ss|], s)
  {
    RunKeepsLimits(l, sites, bs, ss, |ss|);
    var last := bs[|ss|];
    NoWorkLeft(last, sites);
    if exists k :: 0 <= k < |last| && !last[k].Done? {
      var s := SomeStepEnabled(l, sites, last);
    }
  }
}
