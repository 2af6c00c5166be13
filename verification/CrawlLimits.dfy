/** The limits of a batch told from the settings, and its slots counted as sets. */
module CrawlLimits {
  import opened Options
  import opened CrawlBatch

  function Distance(x: int, y: int): nat {
    if x < y then y - x else x - y
  }

  /** `r` is the number nearest to `x` among those from `lo` to `hi`. */
  ghost predicate IsNearest(x: int, lo: int, hi: int, r: int) {
    lo <= r <= hi && forall y {:trigger Distance(x, y)} :: lo <= y <= hi ==> Distance(x, r) <= Distance(x, y)
  }

  /** The larger of the two, said without computing it. */
  ghost predicate IsLarger(a: int, b: int, r: int) {
    r >= a && r >= b && (r == a || r == b)
  }

  /** The site limit is the number nearest to the one asked for, from one to the maximum, or one where the maximum
      allows none; the keyword limit is found in the same way, and raised to the site limit where it is lower. */
  ghost predicate LimitsFor(site: int, siteMax: int, keyword: int, keywordMax: int, l: Limits) {
    exists top, keywordTop, near ::
      && IsLarger(1, siteMax, top) && IsNearest(site, 1, top, l.site)
      && IsLarger(1, keywordMax, keywordTop) && IsNearest(keyword, 1, keywordTop, near)
      && IsLarger(near, l.site, l.keyword)
  }

  /** What limits a batch has, and what limits protection leaves it. */
  lemma LimitsAreNearest(s: BatchSettings)
    ensures LimitsFor(s.siteConcurrency, s.siteConcurrencyMax, s.keywordConcurrency, s.keywordConcurrencyMax,
                      ResolveConcurrency(s))
    ensures var l := ResolveConcurrency(s);
      LimitsFor(s.protectionSiteConcurrency, l.site, s.protectionKeywordConcurrency, l.keyword, Protected(s, l))
  {
    var l := ResolveConcurrency(s);
    ClampedLimits(s.siteConcurrency, s.siteConcurrencyMax, s.keywordConcurrency, s.keywordConcurrencyMax, l);
    ClampedLimits(s.protectionSiteConcurrency, l.site, s.protectionKeywordConcurrency, l.keyword, Protected(s, l));
  }

  lemma ClampedLimits(site: int, siteMax: int, keyword: int, keywordMax: int, l: Limits)
    requires l.site == Clamp(site, siteMax)
    requires var near := Clamp(keyword, keywordMax); l.keyword == if near < l.site then l.site else near
    ensures LimitsFor(site, siteMax, keyword, keywordMax, l)
  {
    var top, keywordTop := if siteMax > 1 then siteMax else 1, if keywordMax > 1 then keywordMax else 1;
    assert IsLarger(1, siteMax, top) && IsNearest(site, 1, top, l.site);
    assert IsLarger(1, keywordMax, keywordTop) && IsNearest(keyword, 1, keywordTop, Clamp(keyword, keywordMax));
  }

  /** The largest whole number of keywords within the share, but at least one. */
  lemma KeptCountIs(s: BatchSettings, n: nat)
    ensures KeptCount(s, n) >= 1
    ensures var share := n as real * KeywordRatio(s);
      if share < 1.0 then KeptCount(s, n) == 1
      else KeptCount(s, n) as real <= share < KeptCount(s, n) as real + 1.0
  {
    hide KeywordRatio;
    WholePart(n as real * KeywordRatio(s));
  }

  lemma WholePart(share: real)
    ensures share.Floor as real <= share < share.Floor as real + 1.0
    ensures share < 1.0 <==> share.Floor < 1
  {
  }

  /** The share is the configured one where it lies between a tenth and the whole, the nearer end where it does not,
      and one half where none is given. */
  lemma RatioIs(s: BatchSettings)
    ensures var given := if s.protectionKeywordRatio == None then 0.5 else s.protectionKeywordRatio.value;
      && (0.1 <= given <= 1.0 <==> KeywordRatio(s) == given)
      && (given <= 0.1 <==> KeywordRatio(s) == 0.1)
      && (given >= 1.0 <==> KeywordRatio(s) == 1.0)
  {
  }

  // ---------- slots ----------

  predicate HoldsKeyword(t: KeywordPhase) {
    t.Active?
  }

  /** The keywords that hold a keyword slot. */
  ghost function ActiveKeywords(b: Batch): set<int> {
    set k | 0 <= k < |b| && HoldsKeyword(b[k])
  }

  predicate HoldsSite(t: KeywordPhase, j: nat) {
    t.Active? && j < |t.sites| && t.sites[j].Holding?
  }

  /** The keywords that hold a slot of site `j`. */
  ghost function Holders(b: Batch, j: nat): set<int> {
    set k | 0 <= k < |b| && HoldsSite(b[k], j)
  }

  function OneIf(c: bool): nat {
    if c then 1 else 0
  }

  lemma {:induction false} CountsSnoc(b: Batch, t: KeywordPhase, j: nat)
    ensures ActiveCount(b + [t]) == ActiveCount(b) + OneIf(HoldsKeyword(t))
    ensures HolderCount(b + [t], j) == HolderCount(b, j) + OneIf(HoldsSite(t, j))
  {
    if b == [] {
      assert [t][1..] == [] && b + [t] == [t];
    } else {
      CountsSnoc(b[1..], t, j);
      assert (b + [t])[1..] == b[1..] + [t];
    }
  }

  lemma {:induction false} CountsAreSizes(b: Batch, j: nat)
    ensures ActiveCount(b) == |ActiveKeywords(b)| && HolderCount(b, j) == |Holders(b, j)|
  {
    if b == [] {
      assert ActiveKeywords(b) == {} && Holders(b, j) == {};
    } else {
      var n := |b| - 1;
      var init, t := b[..n], b[n];
      CountsAreSizes(init, j);
      CountsSnoc(init, t, j);
      assert b == init + [t];
      ActiveSnoc(init, t);
      HoldersSnoc(init, t, j);
    }
  }

  lemma ActiveSnoc(b: Batch, t: KeywordPhase)
    ensures |ActiveKeywords(b + [t])| == |ActiveKeywords(b)| + OneIf(HoldsKeyword(t))
  {
    hide HoldsKeyword;
    var longer := b + [t];
    assert longer[|b|] == t && forall k :: 0 <= k < |b| ==> longer[k] == b[k];
    OneMore(ActiveKeywords(b), ActiveKeywords(longer), |b|, HoldsKeyword(t));
  }

  lemma HoldersSnoc(b: Batch, t: KeywordPhase, j: nat)
    ensures |Holders(b + [t], j)| == |Holders(b, j)| + OneIf(HoldsSite(t, j))
  {
    hide HoldsSite;
    var longer := b + [t];
    assert longer[|b|] == t && forall k :: 0 <= k < |b| ==> longer[k] == b[k];
    OneMore(Holders(b, j), Holders(longer, j), |b|, HoldsSite(t, j));
  }

  lemma OneMore(xs: set<int>, ys: set<int>, x: int, more: bool)
    requires x !in xs && ys == xs + if more then {x} else {}
    ensures |ys| == |xs| + OneIf(more)
  {
  }

  /** A waiting keyword or visit may go ahead exactly when fewer hold slots than there are. */
  lemma SlotIsFreeIff(l: Limits, sites: nat, b: Batch, k: nat, j: nat)
    requires k < |b|
    ensures b[k].Queued? ==> (Enabled(l, sites, b, StartKeyword(k)) <==> |ActiveKeywords(b)| < l.keyword)
    ensures b[k].Active? && j < |b[k].sites| && b[k].sites[j].Waiting? ==>
              (Enabled(l, sites, b, StartSite(k, j)) <==> |Holders(b, j)| < l.site)
  {
    CountsAreSizes(b, j);
  }

  /** In every state of every run no more keywords, and for no site more keywords, hold slots than there are. */
  lemma SlotsHold(l: Limits, sites: nat, bs: seq<Batch>, ss: seq<Step>, i: nat, j: nat)
    requires WellLimited(l) && Run(l, sites, bs, ss) && i <= |ss| && j < sites
    ensures |ActiveKeywords(bs[i])| <= l.keyword && |Holders(bs[i], j)| <= l.site
  {
    RunKeepsLimits(l, sites, bs, ss, i);
    CountsAreSizes(bs[i], j);
  }
}
