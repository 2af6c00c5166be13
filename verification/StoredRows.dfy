/** What the stored row says, told from the pages: it describes the last page that brought news. */
module StoredRows {
  import opened Options
  import opened AnchorCsv
  import opened DealDetection
  import DealFeed

  /** The row is dated `now`, holds link, price and metadata of the newest deal of the page, and can be read back to the
      ids of its first three deals, or of all where there are fewer. */
  ghost predicate Describes(row: KeywordSite, page: seq<Deal>, now: int) {
    && page != []
    && row.link == page[0].link && row.price == page[0].price && row.metaData == page[0].metaData && row.wdate == now
    && |Anchors(row.externalId)| == (if |page| < 3 then |page| else 3)
    && forall i :: 0 <= i < |Anchors(row.externalId)| ==> Anchors(row.externalId)[i] == page[i].id
  }

  /** Visit `j` returned something. */
  ghost predicate News(history: seq<Deal>, views: seq<DealFeed.View>, times: seq<int>, j: nat)
    requires DealFeed.AllWithin(history, views) && |times| == |views| && j < |views|
  {
    DealFeed.StoredTrack(history, views, times, j + 1).delivered !=
    DealFeed.StoredTrack(history, views, times, j).delivered
  }

  ghost predicate AllClean(page: seq<Deal>) {
    forall i :: 0 <= i < |page| ==> Clean(page[i].id)
  }

  lemma NewsRow(row: Option<KeywordSite>, page: seq<Deal>, now: int)
    requires AllClean(page)
    ensures NewDeals(row, page) == [] ==> RowAfter(row, page, now) == row
    ensures NewDeals(row, page) != [] ==>
              RowAfter(row, page, now).Some? && Describes(RowAfter(row, page, now).value, page, now)
  {
    hide Anchors, Join, AnchorsOf;
    if NewDeals(row, page) != [] {
      RoundTrip(Ids(Take(page, 3)));
    }
  }

  lemma SameOrMore(a: seq<Deal>, b: seq<Deal>)
    ensures a + b == a <==> b == []
  {
    assert |a + b| == |a| + |b|;
    if b == [] { assert a + b == a; }
  }

  /** After any visits there is a row if and only if some visit returned something, and it describes the page of the
      last that did. */
  lemma {:induction false} RowDescribesLastNews(history: seq<Deal>, views: seq<DealFeed.View>, times: seq<int>,
                                                j: nat, n: nat)
    requires DealFeed.Catalogue(history) && DealFeed.AllWithin(history, views) && |times| == |views| && n <= |views|
    ensures var row := DealFeed.StoredTrack(history, views, times, n).row;
      && ((forall i :: 0 <= i < n ==> !News(history, views, times, i)) ==> row == None)
      && (j < n && News(history, views, times, j) && (forall i :: j < i < n ==> !News(history, views, times, i)) ==>
            row.Some? && Describes(row.value, DealFeed.PageOf(history, views[j]), times[j]))
  {
    hide NewDeals, RowAfter, Describes, DealFeed.Listed, Clean;
    if n > 0 {
      RowDescribesLastNews(history, views, times, j, n - 1);
      var s, page := DealFeed.StoredTrack(history, views, times, n - 1), DealFeed.PageOf(history, views[n - 1]);
      assert AllClean(page);
      NewsRow(s.row, page, times[n - 1]);
      SameOrMore(s.delivered, NewDeals(s.row, page));
      assert DealFeed.StoredTrack(history, views, times, n) == DealFeed.StoredVisit(s, page, times[n - 1]);
      assert News(history, views, times, n - 1) <==> NewDeals(s.row, page) != [];
    }
  }
}
