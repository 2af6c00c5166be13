/** What one visit to a site reports as new, and the row it leaves behind. */
module DealDetection {
  import opened Options
  import opened AnchorCsv

  datatype SiteName = Algumon | FmKorea | Ruliweb

  datatype Deal = Deal(
    id: string,
    title: string,
    link: string,
    price: Option<string>,
    metaData: Option<string>,
    site: SiteName,
    searchUrl: string)

  /** What is stored for one keyword on one site. */
  datatype KeywordSite = KeywordSite(
    externalId: string,
    link: string,
    price: Option<string>,
    metaData: Option<string>,
    wdate: int)

  type Key = (int, SiteName)

  function Ids(deals: seq<Deal>): seq<string> {
    seq(|deals|, i requires 0 <= i < |deals| => deals[i].id)
  }

  /** The position of the first `x` in `xs`, or |xs|. */
  function Position<T(==)>(xs: seq<T>, x: T): (i: nat)
    ensures i <= |xs|
    ensures forall j :: 0 <= j < i ==> xs[j] != x
    ensures i < |xs| ==> xs[i] == x
  {
    if xs == [] || xs[0] == x then 0 else 1 + Position(xs[1..], x)
  }

  /** Where the first of the anchors that is still listed stands. */
  function FirstListed<T(==)>(listed: seq<T>, anchors: seq<T>): (i: Option<nat>)
    ensures i.Some? ==> i.value < |listed| && listed[i.value] in anchors
    ensures i.None? <==> forall a :: a in anchors ==> a !in listed
  {
    if anchors == [] then None
    else if anchors[0] in listed then Some(Position(listed, anchors[0]))
    else FirstListed(listed, anchors[1..])
  }

  function Take<T>(xs: seq<T>, n: nat): seq<T> {
    if |xs| <= n then xs else xs[..n]
  }

  /** How much of a listing is new to somebody who holds the given anchors, or none yet. */
  function NewCount<T(==)>(anchors: Option<seq<T>>, listed: seq<T>): (n: nat)
    ensures n <= |listed|
  {
    match anchors
    case None => |Take(listed, 1)|
    case Some(a) =>
      match FirstListed(listed, a)
      case Some(i) => i
      case None => |listed|
  }

  function AnchorsOf(row: Option<KeywordSite>): Option<seq<string>> {
    if row.Some? then Some(Anchors(row.value.externalId)) else None
  }

  function NewDeals(row: Option<KeywordSite>, page: seq<Deal>): seq<Deal> {
    page[..NewCount(AnchorsOf(row), Ids(page))]
  }

  function RowAfter(row: Option<KeywordSite>, page: seq<Deal>, now: int): Option<KeywordSite> {
    if NewDeals(row, page) == [] then row
    else Some(KeywordSite(Join(Ids(Take(page, 3))), page[0].link, page[0].price, page[0].metaData, now))
  }

  function Lookup<K, V>(m: map<K, V>, k: K): Option<V> {
    if k in m then Some(m[k]) else None
  }

  /** The table of stored rows, one per keyword and site. */
  class KeywordSiteTable {
    var rows: map<Key, KeywordSite>

    constructor ()
      ensures rows == map[]
    {
      rows := map[];
    }

    /** One visit: compare the listing with the stored anchors, store the new anchors if anything is new. */
    method GetNewHotdealKeywordsForSite(keywordId: int, site: SiteName, page: seq<Deal>, now: int)
      returns (newDeals: seq<Deal>)
      modifies this
      ensures newDeals == NewDeals(Lookup(old(rows), (keywordId, site)), page)
      ensures Lookup(rows, (keywordId, site)) == RowAfter(Lookup(old(rows), (keywordId, site)), page, now)
      ensures forall k :: k != (keywordId, site) ==> Lookup(rows, k) == Lookup(old(rows), k)
      ensures newDeals == [] ==> rows == old(rows)
      ensures newDeals != [] ==>
                && (keywordId, site) in rows
                && var row := rows[(keywordId, site)];
                   row.link == page[0].link && row.price == page[0].price && row.metaData == page[0].metaData &&
                   row.wdate == now
    {
      if page == [] {
        return [];
      }
      var key := (keywordId, site);
      newDeals := [];
      if key !in rows {
        newDeals := page[..1];
      } else {
        var parts := Split(rows[key].externalId);
        var foundAnchor := false;
        var i := 0;
        while i < |parts| && !foundAnchor
          invariant i <= |parts|
          invariant !foundAnchor ==>
                      FirstListed(Ids(page), Stripped(parts)) == FirstListed(Ids(page), Stripped(parts[i..]))
          invariant foundAnchor ==>
                      var n := FirstListed(Ids(page), Stripped(parts));
                      n.Some? && n.value <= |page| && newDeals == page[..n.value]
          decreases |parts| - i, !foundAnchor
        {
          var anchor := Strip(parts[i]);
          assert parts[i..][1..] == parts[i + 1..];
          if anchor != "" {
            assert Stripped(parts[i..]) == [anchor] + Stripped(parts[i + 1..]);
            assert ([anchor] + Stripped(parts[i + 1..]))[1..] == Stripped(parts[i + 1..]);
            var idx := Position(Ids(page), anchor);
            if idx < |page| {
              assert anchor in Ids(page);
              newDeals := page[..idx];
              foundAnchor := true;
            } else {
              assert anchor !in Ids(page);
            }
          } else {
            assert Stripped(parts[i..]) == Stripped(parts[i + 1..]);
          }
          i := i + 1;
        }
        if !foundAnchor {
          newDeals := page;
        }
      }
      if newDeals != [] {
        var newest := page[0];
        rows := rows[key := KeywordSite(Join(Ids(Take(page, 3))), newest.link, newest.price, newest.metaData, now)];
      }
    }
  }
}
