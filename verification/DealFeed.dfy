/** Exactly-once reporting: what repeated visits to a changing newest-first listing add up to.
    Every deal ever posted has a rank, its place in `history`; a larger rank is a newer deal. */
module DealFeed {
  import opened Options
  import opened Sequences
  import opened AnchorCsv
  import opened DealDetection

  /** The site at one visit: how many deals have been posted so far, which of them are still up, and how many
      the page shows (none, when it could not be fetched or parsed). */
  datatype View = View(posted: nat, live: set<nat>, shown: nat)

  /** The live ranks below `n`, newest first. */
  function Newest(live: set<nat>, n: nat): seq<nat> {
    if n == 0 then [] else (if n - 1 in live then [n - 1] else []) + Newest(live, n - 1)
  }

  /** The ranks on the page. */
  function Listed(v: View): seq<nat> {
    Take(Newest(v.live, v.posted), v.shown)
  }

  /** Posting only adds at the new end, and what is taken down stays down. */
  ghost predicate Feed(views: seq<View>) {
    && (forall i, x :: 0 <= i < |views| && x in views[i].live ==> x < views[i].posted)
    && (forall i :: 0 < i < |views| ==> views[i - 1].posted <= views[i].posted)
    && (forall i, x :: 0 < i < |views| && x in views[i].live && x < views[i - 1].posted ==> x in views[i - 1].live)
  }

  // ---------- the run, on ranks ----------

  /** Where a run of visits has got to: the anchors held, the newest deal of the first page that showed any, all
      that was reported, in order, and all that pages have shown. */
  datatype Tracker = Tracker(anchors: Option<seq<nat>>, first: Option<nat>, reported: seq<nat>, seen: set<nat>)

  function Report(t: Tracker, page: seq<nat>): seq<nat> {
    page[..NewCount(t.anchors, page)]
  }

  function Visit(t: Tracker, page: seq<nat>): Tracker {
    Tracker(
      if Report(t, page) == [] then t.anchors else Some(Take(page, 3)),
      if t.first.Some? || page == [] then t.first else Some(page[0]),
      t.reported + Report(t, page),
      t.seen + set x | x in page)
  }

  /** After the first `i` visits. */
  function Track(views: seq<View>, i: nat): Tracker
    requires i <= |views|
  {
    if i == 0 then Tracker(None, None, [], {}) else Visit(Track(views, i - 1), Listed(views[i - 1]))
  }

  /** What ought to have been reported: the newest deal of the first page, and every deal newer than it that a
      page has shown. */
  ghost predicate Owed(t: Tracker, x: nat) {
    t.first.Some? && x >= t.first.value && x in t.seen
  }

  /** A stored anchor is still listed, or nothing listed is as old as the newest anchor. */
  ghost predicate Anchored(anchors: Option<seq<nat>>, page: seq<nat>) {
    anchors.None? || anchors.value == [] ||
    (exists a :: a in anchors.value && a in page) ||
    (forall x :: x in page ==> x > anchors.value[0])
  }

  /** The page passes over no news: nothing is stored yet, or it shows nothing, or it shows every live deal newer than
      the newest anchor. How much of the older part of the listing it shows does not matter. */
  ghost predicate Gapless(anchors: Option<seq<nat>>, page: seq<nat>, live: set<nat>) {
    anchors.None? || anchors.value == [] || page == [] ||
    forall x :: x in live && x > anchors.value[0] ==> x in page
  }

  // ---------- pages are newest first ----------

  ghost predicate Descending(xs: seq<nat>) {
    forall i, j :: 0 <= i < j < |xs| ==> xs[i] > xs[j]
  }

  lemma {:induction false} NewestIsOrdered(live: set<nat>, n: nat)
    ensures Descending(Newest(live, n))
    ensures forall x :: x in Newest(live, n) <==> x in live && x < n
  {
    if n > 0 {
      NewestIsOrdered(live, n - 1);
      var rest := Newest(live, n - 1);
      forall i | 0 <= i < |rest| ensures rest[i] < n - 1 { assert rest[i] in rest; }
    }
  }

  /** A page is in order, shows live deals only, and shows a live deal whenever it shows an older one. */
  ghost predicate NewestFirst(page: seq<nat>, live: set<nat>) {
    && Descending(page)
    && (forall x :: x in page ==> x in live)
    && (forall x, y :: x in live && y in page && y <= x ==> x in page)
  }

  lemma ListedNewestFirst(v: View)
    requires forall x :: x in v.live ==> x < v.posted
    ensures NewestFirst(Listed(v), v.live)
  {
    var all := Newest(v.live, v.posted);
    NewestIsOrdered(v.live, v.posted);
    forall x, y | x in v.live && y in Listed(v) && y <= x ensures x in Listed(v) {
      var i :| 0 <= i < |all| && all[i] == x;
      var j :| 0 <= j < |Listed(v)| && Listed(v)[j] == y;
      assert all[j] == y;
    }
  }

  // ---------- one visit ----------

  /** The anchors are in order, and no live deal stands between them: each is an anchor, newer than all of them,
      or older than all of them. */
  ghost predicate Contiguous(anchors: seq<nat>, live: set<nat>) {
    && anchors != [] && Descending(anchors)
    && forall x :: x in live && x <= anchors[0] ==> x in anchors || x < anchors[|anchors| - 1]
  }

  /** How many of a page's deals are newer than `w`; they come first. */
  function CountAbove(page: seq<nat>, w: nat): (n: nat)
    ensures n <= |page|
    ensures forall j :: 0 <= j < n ==> page[j] > w
    ensures n < |page| ==> page[n] <= w
  {
    if page == [] || page[0] <= w then 0 else 1 + CountAbove(page[1..], w)
  }

  lemma {:induction false} AtOrBelow(page: seq<nat>, w: nat, j: nat)
    requires Descending(page) && CountAbove(page, w) <= j < |page|
    ensures page[j] <= w
  {
  }

  lemma {:induction false} FirstListedIsNewest(page: seq<nat>, anchors: seq<nat>)
    requires Descending(anchors)
    ensures var r := FirstListed(page, anchors);
      r.Some? ==> forall a :: a in anchors && a > page[r.value] ==> a !in page
  {
    if anchors != [] && anchors[0] !in page {
      FirstListedIsNewest(page, anchors[1..]);
      var r := FirstListed(page, anchors);
      forall a | r.Some? && a in anchors && a > page[r.value] ensures a !in page {
        if a != anchors[0] {
          var i :| 0 <= i < |anchors| && anchors[i] == a;
          assert anchors[1..][i - 1] == a;
        }
      }
    } else if anchors != [] {
      forall a | a in anchors ensures a <= anchors[0] {}
    }
  }

  /** A visit reports exactly the listed deals that are newer than the newest anchor, if and only if the page is
      anchored. */
  lemma {:induction false} VisitReportsNewer(anchors: seq<nat>, page: seq<nat>, live: set<nat>)
    requires Contiguous(anchors, live) && NewestFirst(page, live)
    ensures Anchored(Some(anchors), page) <==> NewCount(Some(anchors), page) == CountAbove(page, anchors[0])
  {
    var w := anchors[0];
    var n := CountAbove(page, w);
    FirstListedIsNewest(page, anchors);
    match FirstListed(page, anchors) {
      case Some(i) =>
        var a := page[i];
        assert a in anchors && a <= w && a >= anchors[|anchors| - 1];
        assert a in page;
        forall j | 0 <= j < i ensures page[j] > w {
          var x := page[j];
          assert x in page && x > a;
        }
        assert n == i;
      case None =>
        if n < |page| { assert page[n] in page; }
    }
  }

  lemma NewerStandsBefore(page: seq<nat>, i: nat, j: nat)
    requires Descending(page) && i < |page| && j < |page| && page[i] >= page[j]
    ensures i <= j
  {
  }

  lemma TakenIsContiguous(page: seq<nat>, live: set<nat>)
    requires page != [] && NewestFirst(page, live)
    ensures Contiguous(Take(page, 3), live) && Take(page, 3)[0] == page[0]
  {
    var a := Take(page, 3);
    var oldest := a[|a| - 1];
    assert oldest in page;
    forall x | x in live && oldest <= x <= a[0] ensures x in a {
      assert x in page;
      var j :| 0 <= j < |page| && page[j] == x;
      NewerStandsBefore(page, j, |a| - 1);
      assert a[j] == x;
    }
  }

  // ---------- the whole run ----------

  /** What an anchored run keeps, where `live` and `posted` are the site's at the last visit: the anchors are the
      newest of their time, everything reported lies between the first deal and the newest anchor, and nothing was
      reported twice. */
  ghost predicate Good(t: Tracker, live: set<nat>, posted: nat) {
    match t.anchors
    case None => t.first.None? && t.reported == [] && t.seen == {}
    case Some(a) =>
      && Contiguous(a, live) && a[0] < posted
      && t.first.Some? && t.first.value <= a[0]
      && t.first.value in t.reported
      && Distinct(t.reported)
      && forall x :: x in t.reported ==> t.first.value <= x <= a[0]
  }

  /** Exactly what is owed has been reported, and no live deal was passed over. */
  ghost predicate Settled(t: Tracker, live: set<nat>) {
    && (forall x :: x in t.reported <==> Owed(t, x))
    && (t.anchors.Some? && t.anchors.value != [] && t.first.Some? ==>
          forall x :: x in live && t.first.value <= x <= t.anchors.value[0] ==> x in t.reported)
  }

  /** The site between two visits. */
  ghost predicate Moves(live: set<nat>, posted: nat, live': set<nat>, posted': nat) {
    && posted <= posted'
    && (forall x :: x in live' ==> x < posted')
    && (forall x :: x in live' && x < posted ==> x in live)
  }

  lemma Waiting(t: Tracker, live: set<nat>, posted: nat, live': set<nat>, posted': nat)
    requires Moves(live, posted, live', posted')
    ensures Good(t, live, posted) ==> Good(t, live', posted')
    ensures Good(t, live, posted) && Settled(t, live) ==> Settled(t, live')
  {
    if t.anchors.Some? && Good(t, live, posted) {
      var a := t.anchors.value;
      forall x | x in live' && x <= a[0] ensures x in live { assert x < posted; }
    }
  }

  lemma FirstVisit(t: Tracker, page: seq<nat>, live: set<nat>, posted: nat)
    requires Good(t, live, posted) && t.anchors.None? && NewestFirst(page, live)
    requires forall x :: x in live ==> x < posted
    ensures Good(Visit(t, page), live, posted) && Settled(Visit(t, page), live)
  {
    if page != [] {
      TakenIsContiguous(page, live);
      assert Report(t, page) == [page[0]];
      assert page[0] in page;
      forall x | x in page ensures x <= page[0] {}
    } else {
      assert Visit(t, page) == t;
    }
  }

  lemma AppendNewer(older: seq<nat>, newer: seq<nat>, w: nat)
    requires Distinct(older) && Descending(newer)
    requires (forall x :: x in older ==> x <= w) && (forall x :: x in newer ==> x > w)
    ensures Distinct(older + newer)
  {
    var all := older + newer;
    forall i, j | 0 <= i < j < |all| ensures all[i] != all[j] {
      if i < |older| <= j {
        assert older[i] in older && newer[j - |older|] in newer;
      }
    }
  }

  /** On an anchored page the report is what is newer than the newest anchor. */
  lemma AnchoredReport(t: Tracker, page: seq<nat>, live: set<nat>)
    requires t.anchors.Some? && Contiguous(t.anchors.value, live) && NewestFirst(page, live)
    requires Anchored(t.anchors, page)
    ensures forall x :: x in Report(t, page) <==> x in page && x > t.anchors.value[0]
    ensures Descending(Report(t, page))
  {
    var w := t.anchors.value[0];
    VisitReportsNewer(t.anchors.value, page, live);
    forall x | x in page && x > w ensures x in Report(t, page) {
      var j :| 0 <= j < |page| && page[j] == x;
      if j >= CountAbove(page, w) { AtOrBelow(page, w, j); }
      assert Report(t, page)[j] == x;
    }
  }

  lemma LaterVisit(t: Tracker, page: seq<nat>, live: set<nat>, posted: nat)
    requires Good(t, live, posted) && t.anchors.Some? && NewestFirst(page, live)
    requires forall x :: x in live ==> x < posted
    requires Anchored(t.anchors, page)
    ensures Good(Visit(t, page), live, posted)
  {
    AnchoredReport(t, page, live);
    AppendNewer(t.reported, Report(t, page), t.anchors.value[0]);
    if Report(t, page) != [] {
      TakenIsContiguous(page, live);
      assert Report(t, page)[0] == page[0];
      assert page[0] in Report(t, page) && page[0] in page;
      forall x | x in page ensures x <= page[0] {}
    }
  }

  lemma LaterVisitSettles(t: Tracker, page: seq<nat>, live: set<nat>, posted: nat)
    requires Good(t, live, posted) && Settled(t, live) && t.anchors.Some?
    requires NewestFirst(page, live) && Gapless(t.anchors, page, live) && Anchored(t.anchors, page)
    ensures Settled(Visit(t, page), live)
  {
    AnchoredReport(t, page, live);
    var t' := Visit(t, page);
    forall x ensures x in t'.reported <==> Owed(t', x) {
      assert x in t'.reported <==> x in t.reported || x in Report(t, page);
    }
  }

  /** An unanchored page makes the visit report something twice, or something from before the first page. */
  ghost predicate Erred(t: Tracker) {
    t.first.Some? && (!Distinct(t.reported) || exists x :: x in t.reported && x < t.first.value)
  }

  lemma UnanchoredVisitErrs(t: Tracker, page: seq<nat>, live: set<nat>, posted: nat)
    requires Good(t, live, posted) && Settled(t, live) && NewestFirst(page, live)
    requires !Anchored(t.anchors, page)
    ensures Erred(Visit(t, page))
  {
    var a := t.anchors.value;
    var x :| x in page && x <= a[0];
    assert FirstListed(page, a).None?;
    assert Report(t, page) == page;
    var all := Visit(t, page).reported;
    assert all == t.reported + page && x in all;
    if x >= t.first.value {
      assert x in t.reported;
      var j :| 0 <= j < |t.reported| && t.reported[j] == x;
      var k :| 0 <= k < |page| && page[k] == x;
      assert all[j] == all[|t.reported| + k];
    }
  }

  lemma ErrorStays(t: Tracker, page: seq<nat>)
    requires Erred(t)
    ensures Erred(Visit(t, page))
  {
    var all := Visit(t, page).reported;
    if !Distinct(t.reported) {
      var i, j :| 0 <= i < j < |t.reported| && t.reported[i] == t.reported[j];
      assert all[i] == all[j];
    } else {
      var x :| x in t.reported && x < t.first.value;
      assert x in all;
    }
  }

  ghost predicate AnchoredAt(views: seq<View>, k: nat)
    requires k < |views|
  {
    Anchored(Track(views, k).anchors, Listed(views[k]))
  }

  /** No page passes over any news. */
  ghost predicate NoGaps(views: seq<View>) {
    forall k {:trigger GaplessAt(views, k)} :: 0 <= k < |views| ==> GaplessAt(views, k)
  }

  ghost predicate GaplessAt(views: seq<View>, k: nat)
    requires k < |views|
  {
    Gapless(Track(views, k).anchors, Listed(views[k]), views[k].live)
  }

  /** The site as the last of the first `i` visits found it. */
  function SiteAt(views: seq<View>, i: nat): (set<nat>, nat)
    requires i <= |views|
  {
    if i == 0 then ({}, 0) else (views[i - 1].live, views[i - 1].posted)
  }

  lemma SiteMoves(views: seq<View>, i: nat)
    requires Feed(views) && i < |views|
    ensures Moves(SiteAt(views, i).0, SiteAt(views, i).1, views[i].live, views[i].posted)
    ensures NewestFirst(Listed(views[i]), views[i].live)
  {
    ListedNewestFirst(views[i]);
  }

  /** One visit of an anchored run, the site having moved on since the last. */
  lemma VisitKeepsGood(t: Tracker, page: seq<nat>, live: set<nat>, posted: nat, live': set<nat>, posted': nat)
    requires Good(t, live, posted) && Moves(live, posted, live', posted')
    requires NewestFirst(page, live') && Anchored(t.anchors, page)
    ensures Good(Visit(t, page), live', posted')
  {
    hide Good, NewestFirst, Anchored, Visit;
    Waiting(t, live, posted, live', posted');
    if t.anchors.None? {
      FirstVisit(t, page, live', posted');
    } else {
      LaterVisit(t, page, live', posted');
    }
  }

  lemma VisitKeepsSettled(t: Tracker, page: seq<nat>, live: set<nat>, posted: nat, live': set<nat>, posted': nat)
    requires Good(t, live, posted) && Settled(t, live) && Moves(live, posted, live', posted')
    requires NewestFirst(page, live') && Anchored(t.anchors, page) && Gapless(t.anchors, page, live')
    ensures Settled(Visit(t, page), live')
  {
    hide Good, Settled, NewestFirst, Anchored, Gapless, Visit;
    Waiting(t, live, posted, live', posted');
    if t.anchors.None? {
      FirstVisit(t, page, live', posted');
    } else {
      LaterVisitSettles(t, page, live', posted');
    }
  }

  lemma NothingTracked()
    ensures Good(Tracker(None, None, [], {}), {}, 0) && Settled(Tracker(None, None, [], {}), {})
  {
  }

  lemma {:induction false} AnchoredRunIsGood(views: seq<View>, i: nat)
    requires Feed(views) && i <= |views|
    requires forall k :: 0 <= k < i ==> AnchoredAt(views, k)
    ensures Good(Track(views, i), SiteAt(views, i).0, SiteAt(views, i).1)
  {
    hide Good, Feed, Moves, NewestFirst, Anchored, Visit, Listed;
    if i == 0 {
      NothingTracked();
    } else {
      AnchoredRunIsGood(views, i - 1);
      SiteMoves(views, i - 1);
      assert AnchoredAt(views, i - 1);
      var v, site := views[i - 1], SiteAt(views, i - 1);
      VisitKeepsGood(Track(views, i - 1), Listed(v), site.0, site.1, v.live, v.posted);
    }
  }

  /** At most once, however much of the listing each page shows: while every page is anchored, no deal is reported
      twice. */
  lemma {:induction false} AtMostOnce(views: seq<View>)
    requires Feed(views) && forall k :: 0 <= k < |views| ==> AnchoredAt(views, k)
    ensures Distinct(Track(views, |views|).reported)
  {
    AnchoredRunIsGood(views, |views|);
  }

  /** While all pages were anchored and none passed over any news, everything is settled. */
  lemma {:induction false} AnchoredRunIsSettled(views: seq<View>, i: nat)
    requires Feed(views) && NoGaps(views) && i <= |views|
    requires forall k :: 0 <= k < i ==> AnchoredAt(views, k)
    ensures Settled(Track(views, i), SiteAt(views, i).0)
  {
    hide Good, Settled, Feed, Moves, NewestFirst, Anchored, Gapless, Visit, Listed;
    if i == 0 {
      NothingTracked();
    } else {
      AnchoredRunIsSettled(views, i - 1);
      AnchoredRunIsGood(views, i - 1);
      SiteMoves(views, i - 1);
      assert AnchoredAt(views, i - 1) && GaplessAt(views, i - 1);
      var v, site := views[i - 1], SiteAt(views, i - 1);
      VisitKeepsSettled(Track(views, i - 1), Listed(v), site.0, site.1, v.live, v.posted);
    }
  }

  lemma {:induction false} ReportsStay(views: seq<View>, i: nat, j: nat)
    requires i <= j <= |views|
    ensures Track(views, i).reported <= Track(views, j).reported
    ensures Track(views, i).first.Some? ==> Track(views, j).first == Track(views, i).first
  {
    hide NewCount, Listed;
    if i < j { ReportsStay(views, i, j - 1); }
  }

  /** After a visit that showed anything, no live deal is newer than the newest anchor. */
  lemma NothingNewer(t: Tracker, page: seq<nat>, live: set<nat>, posted: nat)
    requires Good(t, live, posted) && NewestFirst(page, live) && page != [] && Anchored(t.anchors, page)
    ensures var t' := Visit(t, page);
      t'.anchors.Some? && t'.anchors.value != [] && forall x :: x in live ==> x <= t'.anchors.value[0]
  {
    assert page[0] in page;
    forall x | x in live ensures x <= page[0] {
    }
    if t.anchors.Some? {
      AnchoredReport(t, page, live);
      assert page[0] in page && (page[0] > t.anchors.value[0] ==> page[0] in Report(t, page));
    }
  }

  /** Nothing is overlooked: in an anchored run whose pages pass over no news, every deal that was up when a page
      showed anything, and is no older than the first deal reported, has been reported, seen on the page or not. */
  lemma {:induction false} NothingOverlooked(views: seq<View>, k: nat, x: nat)
    requires Feed(views) && NoGaps(views) && forall j :: 0 <= j < |views| ==> AnchoredAt(views, j)
    requires k < |views| && Listed(views[k]) != [] && x in views[k].live
    requires Track(views, k + 1).first.Some? && x >= Track(views, k + 1).first.value
    ensures x in Track(views, |views|).reported
  {
    hide Feed, Moves, NewestFirst, Anchored, Visit, Listed, NewCount;
    var t, v := Track(views, k), views[k];
    AnchoredRunIsGood(views, k);
    AnchoredRunIsSettled(views, k + 1);
    SiteMoves(views, k);
    Waiting(t, SiteAt(views, k).0, SiteAt(views, k).1, v.live, v.posted);
    assert AnchoredAt(views, k);
    NothingNewer(t, Listed(v), v.live, v.posted);
    ReportsStay(views, k + 1, |views|);
    assert x in Track(views, k + 1).reported;
  }

  /** A deal that has been passed over: newer than the first reported, older than the newest anchor, not reported. */
  ghost predicate PassedOver(t: Tracker, x: nat) {
    && t.anchors.Some? && t.anchors.value != [] && t.first.Some?
    && t.first.value <= x < t.anchors.value[0] && x !in t.reported
  }

  /** An anchored page that passes over a deal leaves it behind the newest anchor. */
  lemma GapPassesOver(t: Tracker, page: seq<nat>, live: set<nat>, posted: nat) returns (x: nat)
    requires Good(t, live, posted) && NewestFirst(page, live) && Anchored(t.anchors, page)
    requires !Gapless(t.anchors, page, live)
    ensures x in live && PassedOver(Visit(t, page), x)
  {
    x :| x in live && x > t.anchors.value[0] && x !in page;
    assert page[0] in page;
    AnchoredReport(t, page, live);
    assert page[0] in Report(t, page);
  }

  /** As long as pages are anchored, a deal passed over is not reported any more. */
  lemma StaysPassedOver(t: Tracker, page: seq<nat>, live: set<nat>, posted: nat, x: nat)
    requires Good(t, live, posted) && NewestFirst(page, live) && Anchored(t.anchors, page)
    requires PassedOver(t, x)
    ensures PassedOver(Visit(t, page), x)
  {
    AnchoredReport(t, page, live);
    if Report(t, page) != [] { assert Report(t, page)[0] in Report(t, page); }
  }

  lemma {:induction false} PassedOverForGood(views: seq<View>, k: nat, i: nat, x: nat)
    requires Feed(views) && k <= i <= |views| && forall j :: 0 <= j < |views| ==> AnchoredAt(views, j)
    requires PassedOver(Track(views, k), x)
    ensures PassedOver(Track(views, i), x)
  {
    hide Feed, Good, Moves, NewestFirst, Anchored, PassedOver, Visit, Listed;
    if k < i {
      PassedOverForGood(views, k, i - 1, x);
      var v, site := views[i - 1], SiteAt(views, i - 1);
      AnchoredRunIsGood(views, i - 1);
      SiteMoves(views, i - 1);
      Waiting(Track(views, i - 1), site.0, site.1, v.live, v.posted);
      assert AnchoredAt(views, i - 1);
      StaysPassedOver(Track(views, i - 1), Listed(v), v.live, v.posted, x);
    }
  }

  /** Deal `x` was up at visit `k`, whose page showed something, and is no older than the first deal reported. */
  ghost predicate Promised(views: seq<View>, k: nat, x: nat)
    requires k < |views|
  {
    && Listed(views[k]) != [] && x in views[k].live
    && Track(views, k + 1).first.Some? && x >= Track(views, k + 1).first.value
  }

  /** In an anchored run a page with a gap loses a deal for good. */
  lemma {:induction false} GapLosesDeal(views: seq<View>, k: nat) returns (x: nat)
    requires Feed(views) && forall j :: 0 <= j < |views| ==> AnchoredAt(views, j)
    requires k < |views| && !GaplessAt(views, k)
    ensures Promised(views, k, x) && x !in Track(views, |views|).reported
  {
    hide Feed, Good, Moves, NewestFirst, Anchored, Listed;
    var t, v, site := Track(views, k), views[k], SiteAt(views, k);
    AnchoredRunIsGood(views, k);
    SiteMoves(views, k);
    Waiting(t, site.0, site.1, v.live, v.posted);
    assert AnchoredAt(views, k);
    x := GapPassesOver(t, Listed(v), v.live, v.posted);
    PassedOverForGood(views, k + 1, |views|, x);
  }

  /** Nothing is lost, exactly: while pages stay anchored, every deal that was up at a visit that showed anything, and
      is no older than the first one reported, is reported in the end, if and only if no page passed over any news. */
  lemma {:induction false} NothingLostIff(views: seq<View>)
    requires Feed(views) && forall j :: 0 <= j < |views| ==> AnchoredAt(views, j)
    ensures NoGaps(views) <==>
            forall k, x :: 0 <= k < |views| && Promised(views, k, x) ==> x in Track(views, |views|).reported
  {
    hide Feed, AnchoredAt, Track, Listed;
    if NoGaps(views) {
      forall k, x | 0 <= k < |views| && Promised(views, k, x) ensures x in Track(views, |views|).reported {
        NothingOverlooked(views, k, x);
      }
    } else {
      var k :| 0 <= k < |views| && !GaplessAt(views, k);
      var x := GapLosesDeal(views, k);
    }
  }

  /** The first page that is not anchored brings an error. */
  lemma {:induction false} FirstUnanchoredErrs(views: seq<View>, k: nat)
    requires Feed(views) && NoGaps(views) && k < |views| && !AnchoredAt(views, k)
    requires forall j :: 0 <= j < k ==> AnchoredAt(views, j)
    ensures Erred(Track(views, k + 1))
  {
    var t, v := Track(views, k), views[k];
    AnchoredRunIsGood(views, k);
    AnchoredRunIsSettled(views, k);
    SiteMoves(views, k);
    Waiting(t, SiteAt(views, k).0, SiteAt(views, k).1, v.live, v.posted);
    UnanchoredVisitErrs(t, Listed(v), v.live, v.posted);
  }

  lemma {:induction false} ErrorLasts(views: seq<View>, k: nat, i: nat)
    requires k <= i <= |views| && Erred(Track(views, k))
    ensures Erred(Track(views, i))
  {
    hide Erred, Visit, Listed;
    if k < i {
      ErrorLasts(views, k, i - 1);
      ErrorStays(Track(views, i - 1), Listed(views[i - 1]));
    }
  }

  /** Once a page was not anchored, an error has been made, and it stays. */
  lemma {:induction false} UnanchoredRunErrs(views: seq<View>, k: nat)
    requires Feed(views) && NoGaps(views) && k < |views| && !AnchoredAt(views, k)
    ensures Erred(Track(views, |views|))
  {
    hide Erred, Feed, NoGaps, Track, AnchoredAt;
    if j :| 0 <= j < k && !AnchoredAt(views, j) {
      UnanchoredRunErrs(views, j);
    } else {
      FirstUnanchoredErrs(views, k);
      ErrorLasts(views, k + 1, |views|);
    }
  }

  /** Exactly once: over any number of visits whose pages pass over no news, the reports name no deal twice and name
      precisely the deals they owe, if and only if every page was anchored when it was visited. */
  lemma {:induction false} ExactlyOnce(views: seq<View>)
    requires Feed(views) && NoGaps(views)
    ensures (forall k :: 0 <= k < |views| ==> AnchoredAt(views, k)) <==>
            var t := Track(views, |views|);
            Distinct(t.reported) && forall x :: x in t.reported <==> Owed(t, x)
  {
    if k :| 0 <= k < |views| && !AnchoredAt(views, k) {
      UnanchoredRunErrs(views, k);
    } else {
      AnchoredRunIsGood(views, |views|);
      AnchoredRunIsSettled(views, |views|);
    }
  }

  lemma PagesOfTheExample()
    ensures Listed(View(5, {0, 1, 2, 3, 4}, 5)) == [4, 3, 2, 1, 0]
    ensures Listed(View(5, {0, 1}, 5)) == [1, 0]
  {
    assert Newest({0, 1, 2, 3, 4}, 2) == [1, 0] && Newest({0, 1}, 2) == [1, 0];
    assert Newest({0, 1, 2, 3, 4}, 4) == [3, 2, 1, 0] && Newest({0, 1}, 4) == [1, 0];
  }

  lemma VisitsOfTheExample()
    ensures var t := Visit(Tracker(None, None, [], {}), [4, 3, 2, 1, 0]);
      t.anchors == Some([4, 3, 2]) && t.first == Some(4) && t.reported == [4] && Visit(t, [1, 0]).reported == [4, 1, 0]
  {
    var start, page := Tracker(None, None, [], {}), [4, 3, 2, 1, 0];
    assert Report(start, page) == [4] && Take(page, 3) == [4, 3, 2];
    var t := Visit(start, page);
    assert FirstListed([1, 0], [4, 3, 2]).None?;
    assert Report(t, [1, 0]) == [1, 0];
  }

  /** When all three anchors have been deleted and older deals remain, a page is not anchored and old deals are
      reported. */
  lemma AnchorsCanAllGo()
    ensures var views := [View(5, {0, 1, 2, 3, 4}, 5), View(5, {0, 1}, 5)];
      Feed(views) && NoGaps(views) && !AnchoredAt(views, 1) && Track(views, 2).reported == [4, 1, 0]
  {
    hide Listed, Visit;
    PagesOfTheExample();
    VisitsOfTheExample();
    var views := [View(5, {0, 1, 2, 3, 4}, 5), View(5, {0, 1}, 5)];
    assert Track(views, 0) == Tracker(None, None, [], {});
    assert Track(views, 1) == Visit(Track(views, 0), Listed(views[0]));
    assert Track(views, 2) == Visit(Track(views, 1), Listed(views[1]));
    assert GaplessAt(views, 0) && GaplessAt(views, 1);
    assert 1 in Listed(views[1]);
  }

  lemma PagesWithAGap()
    ensures Listed(View(1, {0}, 1)) == [0]
    ensures Listed(View(3, {0, 1, 2}, 1)) == [2]
    ensures Listed(View(3, {0, 1}, 1)) == [1]
  {
    assert Newest({0, 1}, 3) == Newest({0, 1}, 2) == [1] + Newest({0, 1}, 1);
  }

  lemma VisitsWithAGap()
    ensures var t := Visit(Tracker(None, None, [], {}), [0]);
      t.anchors == Some([0]) && Visit(t, [2]).anchors == Some([2]) &&
      Visit(Visit(t, [2]), [1]) == Tracker(Some([1]), Some(0), [0, 2, 1], {0, 1, 2})
  {
    var t := Visit(Tracker(None, None, [], {}), [0]);
    assert FirstListed([2], [0]).None? && Report(t, [2]) == [2];
    assert FirstListed([1], [2]).None? && Report(Visit(t, [2]), [1]) == [1];
  }

  /** Where a page does pass over news, the equivalence can fail: the deal passed over may come up on a page that is
      not anchored and be reported then, once. */
  lemma GapsCanMakeGood()
    ensures var views := [View(1, {0}, 1), View(3, {0, 1, 2}, 1), View(3, {0, 1}, 1)];
      var t := Track(views, 3);
      && Feed(views) && !GaplessAt(views, 1) && !AnchoredAt(views, 2)
      && Distinct(t.reported) && forall x :: x in t.reported <==> Owed(t, x)
  {
    hide Listed, Visit;
    PagesWithAGap();
    VisitsWithAGap();
    var views := [View(1, {0}, 1), View(3, {0, 1, 2}, 1), View(3, {0, 1}, 1)];
    assert Track(views, 0) == Tracker(None, None, [], {});
    assert Track(views, 1) == Visit(Track(views, 0), Listed(views[0]));
    assert Track(views, 2) == Visit(Track(views, 1), Listed(views[1]));
    assert Track(views, 3) == Visit(Track(views, 2), Listed(views[2]));
    assert 1 in Listed(views[2]) && 1 !in Listed(views[1]);
  }

  lemma PagesWithALoss()
    ensures Listed(View(1, {0}, 1)) == [0]
    ensures Listed(View(3, {0, 1, 2}, 1)) == [2]
    ensures Listed(View(3, {0, 1, 2}, 3)) == [2, 1, 0]
  {
    PagesWithAGap();
    assert Newest({0, 1, 2}, 1) == [0];
  }

  lemma VisitsWithALoss()
    ensures var t := Visit(Tracker(None, None, [], {}), [0]);
      && t.anchors == Some([0]) && Visit(t, [2]).anchors == Some([2])
      && Visit(Visit(t, [2]), [2, 1, 0]) == Tracker(Some([2]), Some(0), [0, 2], {0, 1, 2})
  {
    var t := Visit(Tracker(None, None, [], {}), [0]);
    assert FirstListed([2], [0]).None? && Report(t, [2]) == [2];
    assert FirstListed([2, 1, 0], [2]) == Some(0) && Report(Visit(t, [2]), [2, 1, 0]) == [];
  }

  /** A deal lost for good: the second page is too short for the news, and though every page is anchored and the third
      shows the deal again, it is never reported. */
  lemma GapsCanLose()
    ensures var views := [View(1, {0}, 1), View(3, {0, 1, 2}, 1), View(3, {0, 1, 2}, 3)];
      && Feed(views) && (forall k :: 0 <= k < 3 ==> AnchoredAt(views, k))
      && 1 in views[1].live && 1 in Listed(views[2]) && Track(views, 3).reported == [0, 2]
  {
    hide Listed, Visit;
    PagesWithALoss();
    VisitsWithALoss();
    var views := [View(1, {0}, 1), View(3, {0, 1, 2}, 1), View(3, {0, 1, 2}, 3)];
    assert Track(views, 0) == Tracker(None, None, [], {});
    assert Track(views, 1) == Visit(Track(views, 0), Listed(views[0]));
    assert Track(views, 2) == Visit(Track(views, 1), Listed(views[1]));
    assert Track(views, 3) == Visit(Track(views, 2), Listed(views[2]));
    assert 2 in Listed(views[2]);
    assert AnchoredAt(views, 0) && AnchoredAt(views, 1) && AnchoredAt(views, 2);
  }

  // ---------- the same run, on the stored strings ----------

  /** Every deal has an id of its own, one that survives being stored. */
  ghost predicate Catalogue(history: seq<Deal>) {
    && (forall i :: 0 <= i < |history| ==> Clean(history[i].id))
    && (forall i, j :: 0 <= i < j < |history| ==> history[i].id != history[j].id)
  }

  ghost predicate Within(history: seq<Deal>, ranks: seq<nat>) {
    forall i :: 0 <= i < |ranks| ==> ranks[i] < |history|
  }

  function DealsAt(history: seq<Deal>, ranks: seq<nat>): seq<Deal>
    requires Within(history, ranks)
  {
    seq(|ranks|, i requires 0 <= i < |ranks| => history[ranks[i]])
  }

  function IdsAt(history: seq<Deal>, ranks: seq<nat>): seq<string>
    requires Within(history, ranks)
  {
    Ids(DealsAt(history, ranks))
  }

  lemma IdIn(history: seq<Deal>, ranks: seq<nat>, x: nat)
    requires Catalogue(history) && Within(history, ranks) && x < |history|
    ensures history[x].id in IdsAt(history, ranks) <==> x in ranks
  {
    var ids := IdsAt(history, ranks);
    if history[x].id in ids {
      var i :| 0 <= i < |ids| && ids[i] == history[x].id;
      assert ranks[i] == x;
    }
    if x in ranks {
      var i :| 0 <= i < |ranks| && ranks[i] == x;
      assert ids[i] == history[x].id;
    }
  }

  lemma {:induction false} PositionOfId(history: seq<Deal>, ranks: seq<nat>, x: nat)
    requires Catalogue(history) && Within(history, ranks) && x < |history|
    ensures Position(IdsAt(history, ranks), history[x].id) == Position(ranks, x)
  {
    if ranks != [] && ranks[0] != x {
      PositionOfId(history, ranks[1..], x);
      assert IdsAt(history, ranks)[1..] == IdsAt(history, ranks[1..]);
    }
  }

  lemma {:induction false} SameFirstListed(history: seq<Deal>, ranks: seq<nat>, anchors: seq<nat>)
    requires Catalogue(history) && Within(history, ranks) && Within(history, anchors)
    ensures FirstListed(IdsAt(history, ranks), IdsAt(history, anchors)) == FirstListed(ranks, anchors)
  {
    if anchors != [] {
      IdIn(history, ranks, anchors[0]);
      PositionOfId(history, ranks, anchors[0]);
      SameFirstListed(history, ranks, anchors[1..]);
      assert IdsAt(history, anchors)[1..] == IdsAt(history, anchors[1..]);
    }
  }

  function PageOf(history: seq<Deal>, v: View): seq<Deal>
    requires Within(history, Listed(v))
  {
    DealsAt(history, Listed(v))
  }

  ghost predicate AllWithin(history: seq<Deal>, views: seq<View>) {
    forall i :: 0 <= i < |views| ==> Within(history, Listed(views[i]))
  }

  /** The stored row, and all that the visits so far have returned. */
  datatype Stored = Stored(row: Option<KeywordSite>, delivered: seq<Deal>)

  function StoredVisit(s: Stored, page: seq<Deal>, now: int): Stored {
    Stored(RowAfter(s.row, page, now), s.delivered + NewDeals(s.row, page))
  }

  /** After the first `i` visits; `times` dates the rows. */
  function StoredTrack(history: seq<Deal>, views: seq<View>, times: seq<int>, i: nat): Stored
    requires AllWithin(history, views) && |times| == |views| && i <= |views|
  {
    if i == 0 then Stored(None, [])
    else StoredVisit(StoredTrack(history, views, times, i - 1), PageOf(history, views[i - 1]), times[i - 1])
  }

  /** The row holds these anchors. */
  ghost predicate Stores(history: seq<Deal>, row: Option<KeywordSite>, anchors: Option<seq<nat>>) {
    match anchors
    case None => row.None?
    case Some(a) => Within(history, a) && row.Some? && Anchors(row.value.externalId) == IdsAt(history, a)
  }

  lemma SameReport(history: seq<Deal>, row: Option<KeywordSite>, t: Tracker, page: seq<nat>, now: int)
    requires Catalogue(history) && Within(history, page) && Stores(history, row, t.anchors)
    ensures NewDeals(row, DealsAt(history, page)) == DealsAt(history, Report(t, page))
    ensures Stores(history, RowAfter(row, DealsAt(history, page), now), Visit(t, page).anchors)
  {
    if t.anchors.Some? { SameFirstListed(history, page, t.anchors.value); }
    var n := NewCount(t.anchors, page);
    assert DealsAt(history, page)[..n] == DealsAt(history, page[..n]);
    var top := Take(page, 3);
    assert Take(DealsAt(history, page), 3) == DealsAt(history, top);
    RoundTrip(IdsAt(history, top));
  }

  lemma DealsAtBoth(history: seq<Deal>, older: seq<nat>, newer: seq<nat>)
    requires Within(history, older) && Within(history, newer)
    ensures Within(history, older + newer)
    ensures DealsAt(history, older + newer) == DealsAt(history, older) + DealsAt(history, newer)
  {
  }

  /** What the run on strings and the run on ranks have in common. */
  ghost predicate Agree(history: seq<Deal>, s: Stored, t: Tracker) {
    Stores(history, s.row, t.anchors) && Within(history, t.reported) && s.delivered == DealsAt(history, t.reported)
  }

  lemma VisitAgrees(history: seq<Deal>, s: Stored, t: Tracker, page: seq<nat>, now: int)
    requires Catalogue(history) && Within(history, page) && Agree(history, s, t)
    ensures Agree(history, StoredVisit(s, DealsAt(history, page), now), Visit(t, page))
  {
    SameReport(history, s.row, t, page, now);
    DealsAtBoth(history, t.reported, Report(t, page));
  }

  lemma NothingStored(history: seq<Deal>)
    ensures Agree(history, Stored(None, []), Tracker(None, None, [], {}))
  {
  }

  /** The visits return the deals whose ranks the run on ranks reports. */
  lemma {:induction false} StoredRun(history: seq<Deal>, views: seq<View>, times: seq<int>, i: nat)
    requires Catalogue(history) && AllWithin(history, views) && |times| == |views| && i <= |views|
    ensures Agree(history, StoredTrack(history, views, times, i), Track(views, i))
  {
    hide Catalogue, Agree, StoredVisit, Visit, Listed, DealsAt;
    if i == 0 {
      NothingStored(history);
    } else {
      StoredRun(history, views, times, i - 1);
      var s, t := StoredTrack(history, views, times, i - 1), Track(views, i - 1);
      VisitAgrees(history, s, t, Listed(views[i - 1]), times[i - 1]);
      assert StoredTrack(history, views, times, i) ==
             StoredVisit(s, DealsAt(history, Listed(views[i - 1])), times[i - 1]);
      assert Track(views, i) == Visit(t, Listed(views[i - 1]));
    }
  }

  /** Exactly once, of the program itself: with the anchors kept as a comma-separated string, the visits return no
      deal twice and return precisely the deals owed, if and only if every page was anchored. */
  lemma {:induction false} ExactlyOnceDelivered(history: seq<Deal>, views: seq<View>, times: seq<int>)
    requires Catalogue(history) && AllWithin(history, views) && |times| == |views|
    requires Feed(views) && NoGaps(views)
    ensures var all := StoredTrack(history, views, times, |views|).delivered;
      (forall k :: 0 <= k < |views| ==> AnchoredAt(views, k)) <==>
      && Distinct(Ids(all))
      && (forall x: nat :: x < |history| ==> (history[x].id in Ids(all) <==> Owed(Track(views, |views|), x)))
  {
    hide Feed, NoGaps, AnchoredAt, Track, StoredTrack, Catalogue, Listed;
    var t := Track(views, |views|);
    StoredRun(history, views, times, |views|);
    ExactlyOnce(views);
    var ids := IdsAt(history, t.reported);
    forall x: nat | x < |history| ensures history[x].id in ids <==> x in t.reported {
      IdIn(history, t.reported, x);
    }
    SameDistinct(history, t.reported);
    OwedWithin(history, views, |views|);
  }

  /** The visits return a deal exactly when the run on ranks reports its rank. */
  lemma {:induction false} DeliveredIsReported(history: seq<Deal>, views: seq<View>, times: seq<int>, x: nat)
    requires Catalogue(history) && AllWithin(history, views) && |times| == |views| && x < |history|
    ensures history[x].id in Ids(StoredTrack(history, views, times, |views|).delivered) <==>
            x in Track(views, |views|).reported
  {
    hide StoredTrack, Track, Catalogue;
    StoredRun(history, views, times, |views|);
    IdIn(history, Track(views, |views|).reported, x);
  }

  lemma SameDistinct(history: seq<Deal>, ranks: seq<nat>)
    requires Catalogue(history) && Within(history, ranks)
    ensures Distinct(IdsAt(history, ranks)) <==> Distinct(ranks)
  {
    var ids := IdsAt(history, ranks);
    forall i, j | 0 <= i < j < |ranks| ensures ids[i] == ids[j] <==> ranks[i] == ranks[j] {
    }
  }

  lemma {:induction false} OwedWithin(history: seq<Deal>, views: seq<View>, i: nat)
    requires AllWithin(history, views) && i <= |views|
    ensures forall x :: x in Track(views, i).seen ==> x < |history|
  {
    hide NewCount, Listed;
    if i > 0 {
      OwedWithin(history, views, i - 1);
      var page := Listed(views[i - 1]);
      assert Within(history, page);
      forall x | x in page ensures x < |history| {
        var k :| 0 <= k < |page| && page[k] == x;
      }
    }
  }
}
