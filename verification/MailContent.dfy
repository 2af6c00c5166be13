/** The body of a notification: the new deals of one keyword, sorted and grouped by site. */
module MailContent {
  import opened DealDetection

  // ---------- escaping ----------

  function EscapeChar(c: char): string {
    if c == '&' then "&amp;"
    else if c == '<' then "&lt;"
    else if c == '>' then "&gt;"
    else if c == '"' then "&quot;"
    else if c == '\'' then "&#x27;"
    else [c]
  }

  function Escape(s: string): string {
    if s == "" then "" else EscapeChar(s[0]) + Escape(s[1..])
  }

  function CountChar(s: string, c: char): nat {
    if s == "" then 0 else (if s[0] == c then 1 else 0) + CountChar(s[1..], c)
  }

  lemma {:induction false} CountCharConcat(a: string, b: string, c: char)
    ensures CountChar(a + b, c) == CountChar(a, c) + CountChar(b, c)
  {
    if a == "" {
      assert a + b == b;
    } else {
      assert (a + b)[1..] == a[1..] + b;
      CountCharConcat(a[1..], b, c);
    }
  }

  /** Escaped text contains nothing that could open a tag or end an attribute. */
  lemma {:induction false} EscapedIsInert(s: string)
    ensures forall c :: c in Escape(s) ==> c != '<' && c != '>' && c != '"' && c != '\''
  {
    if s != "" { EscapedIsInert(s[1..]); }
  }

  lemma {:induction false} EscapedHasNoAngle(s: string)
    ensures CountChar(Escape(s), '<') == 0
  {
    EscapedIsInert(s);
    NoAngle(Escape(s));
  }

  lemma {:induction false} NoAngle(s: string)
    requires '<' !in s
    ensures CountChar(s, '<') == 0
  {
    if s != "" { NoAngle(s[1..]); }
  }

  // ---------- sorting ----------

  function SiteValue(site: SiteName): string {
    match site
    case Algumon => "algumon"
    case FmKorea => "fmKorea"
    case Ruliweb => "ruliweb"
  }

  function SiteDisplay(site: SiteName): string {
    match site
    case Algumon => "ALGUMON"
    case FmKorea => "FMKOREA"
    case Ruliweb => "RULIWEB"
  }

  /** Python's order on strings. */
  predicate StringLess(a: string, b: string) {
    b != "" && (a == "" || a[0] < b[0] || (a[0] == b[0] && StringLess(a[1..], b[1..])))
  }

  /** The order of the site names, spelled out. */
  predicate Before(a: SiteName, b: SiteName) {
    (a.Algumon? && !b.Algumon?) || (a.FmKorea? && b.Ruliweb?)
  }

  lemma {:induction false} NotLessThanItself(s: string)
    ensures !StringLess(s, s)
  {
    if s != "" { NotLessThanItself(s[1..]); }
  }

  lemma BeforeIsByName(a: SiteName, b: SiteName)
    ensures Before(a, b) <==> StringLess(SiteValue(a), SiteValue(b))
  {
    NotLessThanItself(SiteValue(a));
    assert SiteValue(a)[0] < SiteValue(b)[0] <==> Before(a, b);
    assert SiteValue(a)[0] == SiteValue(b)[0] <==> a == b;
  }

  function Filter(deals: seq<Deal>, site: SiteName): seq<Deal> {
    if deals == [] then [] else (if deals[0].site == site then [deals[0]] else []) + Filter(deals[1..], site)
  }

  ghost predicate SortedBySite(deals: seq<Deal>) {
    forall i, j :: 0 <= i < j < |deals| ==> !Before(deals[j].site, deals[i].site)
  }

  /** In order of site, and for each site the same deals in the same order: what a stable sort promises. */
  ghost predicate StablySorted(deals: seq<Deal>, sorted: seq<Deal>) {
    SortedBySite(sorted) && forall site: SiteName :: Filter(sorted, site) == Filter(deals, site)
  }

  /** Put a deal in front of the first one whose site is not before its own. */
  function Insert(d: Deal, sorted: seq<Deal>): seq<Deal> {
    if sorted == [] || !Before(sorted[0].site, d.site) then [d] + sorted
    else [sorted[0]] + Insert(d, sorted[1..])
  }

  function SortBySite(deals: seq<Deal>): seq<Deal> {
    if deals == [] then [] else Insert(deals[0], SortBySite(deals[1..]))
  }

  lemma {:induction false} InsertSorted(d: Deal, sorted: seq<Deal>)
    requires SortedBySite(sorted)
    ensures SortedBySite(Insert(d, sorted))
    ensures forall x :: x in Insert(d, sorted) <==> x == d || x in sorted
  {
    if sorted == [] || !Before(sorted[0].site, d.site) {
      forall j | 0 <= j < |sorted| ensures !Before(sorted[j].site, d.site) {
        assert !Before(sorted[j].site, sorted[0].site);
      }
    } else {
      InsertSorted(d, sorted[1..]);
      var rest := Insert(d, sorted[1..]);
      assert sorted == [sorted[0]] + sorted[1..];
      forall x | x in rest ensures !Before(x.site, sorted[0].site) {
        if x != d {
          var i :| 0 <= i < |sorted| && sorted[i] == x;
        }
      }
    }
  }

  lemma {:induction false} InsertKeepsFilters(d: Deal, sorted: seq<Deal>, site: SiteName)
    ensures Filter(Insert(d, sorted), site) == Filter([d] + sorted, site)
  {
    assert ([d] + sorted)[1..] == sorted;
    if sorted != [] && Before(sorted[0].site, d.site) {
      InsertKeepsFilters(d, sorted[1..], site);
      assert ([d] + sorted[1..])[1..] == sorted[1..];
      assert Insert(d, sorted)[1..] == Insert(d, sorted[1..]);
    }
  }

  lemma {:induction false} SortIsStable(deals: seq<Deal>)
    ensures StablySorted(deals, SortBySite(deals))
  {
    if deals != [] {
      SortIsStable(deals[1..]);
      var rest := SortBySite(deals[1..]);
      InsertSorted(deals[0], rest);
      forall site: SiteName ensures Filter(SortBySite(deals), site) == Filter(deals, site) {
        InsertKeepsFilters(deals[0], rest, site);
        assert ([deals[0]] + rest)[1..] == rest;
      }
    }
  }

  /** A stable sort by site has one possible result: each site's deals, site after site, in name order. */
  function BySite(deals: seq<Deal>): seq<Deal> {
    Filter(deals, Algumon) + Filter(deals, FmKorea) + Filter(deals, Ruliweb)
  }

  lemma {:induction false} SortedIsBySite(sorted: seq<Deal>)
    requires SortedBySite(sorted)
    ensures sorted == BySite(sorted)
  {
    if sorted != [] {
      var d, rest := sorted[0], sorted[1..];
      assert SortedBySite(rest);
      SortedIsBySite(rest);
      NoneBefore(sorted);
      HeadJoinsItsSite(d, Filter(rest, Algumon), Filter(rest, FmKorea), Filter(rest, Ruliweb));
      assert sorted == [d] + BySite(rest);
    }
  }

  lemma HeadJoinsItsSite(d: Deal, a: seq<Deal>, f: seq<Deal>, r: seq<Deal>)
    ensures [d] + (a + f + r) == ([d] + a) + f + r
    ensures a == [] ==> [d] + (a + f + r) == [] + ([d] + f) + r
    ensures a == [] && f == [] ==> [d] + (a + f + r) == [] + [] + ([d] + r)
  {
  }

  lemma {:induction false} NoneBefore(sorted: seq<Deal>)
    requires sorted != [] && SortedBySite(sorted)
    ensures forall site: SiteName :: Before(site, sorted[0].site) ==>
              Filter(sorted, site) == [] && Filter(sorted[1..], site) == []
  {
    forall site: SiteName | Before(site, sorted[0].site)
      ensures Filter(sorted, site) == [] && Filter(sorted[1..], site) == []
    {
      forall j | 0 <= j < |sorted| ensures sorted[j].site != site {
        assert j > 0 ==> !Before(sorted[j].site, sorted[0].site);
      }
      FilterNone(sorted, site);
      FilterNone(sorted[1..], site);
    }
  }

  lemma {:induction false} FilterNone(deals: seq<Deal>, site: SiteName)
    requires forall i :: 0 <= i < |deals| ==> deals[i].site != site
    ensures Filter(deals, site) == []
  {
    if deals != [] { FilterNone(deals[1..], site); }
  }

  lemma StableSortIsBySite(deals: seq<Deal>, sorted: seq<Deal>)
    requires StablySorted(deals, sorted)
    ensures sorted == BySite(deals)
  {
    SortedIsBySite(sorted);
  }

  // ---------- the page ----------

  function PriceText(d: Deal): string {
    if d.price.Some? then d.price.value else ""
  }

  /** A link; `text` is markup already. */
  function Link(href: string, text: string): string {
    "<a href='" + Escape(href) + "'>" + text + "</a>"
  }

  function Paragraph(d: Deal): string {
    "<p>" + Link(d.link, Escape(d.title)) + (" - " + Escape(PriceText(d))) + "</p>"
  }

  function Paragraphs(deals: seq<Deal>): string {
    if deals == [] then "" else Paragraphs(deals[..|deals| - 1]) + Paragraph(deals[|deals| - 1])
  }

  function SiteHeading(d: Deal): string {
    "<h3>" + Link(d.searchUrl, "[" + SiteDisplay(d.site) + "] 검색 결과") + "</h3>"
  }

  function Title(title: string): string {
    "<h2>" + Escape(title) + " 새 핫딜" + "</h2>"
  }

  /** One heading and then the deals, or nothing for a site without deals. */
  function Section(deals: seq<Deal>): string {
    if deals == [] then "" else SiteHeading(deals[0]) + Paragraphs(deals)
  }

  /** The page: the title, then for each site in name order the section of that site's deals, in their own order. */
  function EmailContent(title: string, deals: seq<Deal>): string {
    if deals == [] then "" else
    Title(title) + Section(Filter(deals, Algumon)) + Section(Filter(deals, FmKorea)) + Section(Filter(deals, Ruliweb))
  }

  /** How far the deals from the front on belong to the same site. */
  function RunLength(deals: seq<Deal>): (n: nat)
    requires deals != []
    ensures 0 < n <= |deals|
    ensures forall i :: 0 <= i < n ==> deals[i].site == deals[0].site
    ensures n < |deals| ==> deals[n].site != deals[0].site
  {
    if |deals| == 1 || deals[1].site != deals[0].site then 1 else 1 + RunLength(deals[1..])
  }

  /** `render` of each run of deals of the same site, one after another: what grouping consecutive deals yields. */
  function Groups(render: seq<Deal> -> string, deals: seq<Deal>): string
    decreases |deals|
  {
    if deals == [] then "" else
    var n := RunLength(deals);
    render(deals[..n]) + Groups(render, deals[n..])
  }

  ghost predicate AllOf(deals: seq<Deal>, site: SiteName) {
    forall i :: 0 <= i < |deals| ==> deals[i].site == site
  }

  lemma {:induction false} RunLengthIs(deals: seq<Deal>, n: nat)
    requires 0 < n <= |deals| && AllOf(deals[..n], deals[0].site)
    requires n < |deals| ==> deals[n].site != deals[0].site
    ensures RunLength(deals) == n
  {
    assert forall i :: 0 <= i < n ==> deals[..n][i] == deals[i];
  }

  lemma {:induction false} GroupsOfRun(render: seq<Deal> -> string, a: seq<Deal>, b: seq<Deal>, site: SiteName)
    requires render([]) == "" && AllOf(a, site) && (b != [] ==> b[0].site != site)
    ensures Groups(render, a + b) == render(a) + Groups(render, b)
  {
    if a == [] {
      assert a + b == b;
      assert render(a) + Groups(render, b) == Groups(render, b);
    } else {
      assert (a + b)[..|a|] == a && (a + b)[|a|..] == b;
      RunLengthIs(a + b, |a|);
    }
  }

  lemma {:induction false} FilterAllOf(deals: seq<Deal>, site: SiteName)
    ensures AllOf(Filter(deals, site), site)
  {
    if deals != [] { FilterAllOf(deals[1..], site); }
  }

  lemma {:induction false} FilterConcat(a: seq<Deal>, b: seq<Deal>, s: SiteName)
    ensures Filter(a + b, s) == Filter(a, s) + Filter(b, s)
  {
    if a == [] {
      assert a + b == b;
    } else {
      var rest := a[1..] + b;
      assert (a + b)[0] == a[0] && (a + b)[1..] == rest;
      FilterConcat(a[1..], b, s);
      assert Filter(rest, s) == Filter(a[1..], s) + Filter(b, s);
    }
  }

  lemma {:induction false} FilterOfOneSite(deals: seq<Deal>, site: SiteName, s: SiteName)
    requires AllOf(deals, site)
    ensures Filter(deals, s) == if s == site then deals else []
  {
    if deals != [] { FilterOfOneSite(deals[1..], site, s); }
  }

  /** Grouping the sorted deals gives one part for each site, in name order. */
  lemma {:induction false} GroupsOfSorted(render: seq<Deal> -> string, deals: seq<Deal>)
    requires render([]) == ""
    ensures Groups(render, BySite(deals)) ==
            render(Filter(deals, Algumon)) + render(Filter(deals, FmKorea)) + render(Filter(deals, Ruliweb))
  {
    var a, f, r := Filter(deals, Algumon), Filter(deals, FmKorea), Filter(deals, Ruliweb);
    FilterAllOf(deals, Algumon);
    FilterAllOf(deals, FmKorea);
    FilterAllOf(deals, Ruliweb);
    assert r + [] == r;
    GroupsOfRun(render, r, [], Ruliweb);
    if f + r != [] { assert (f + r)[0] == if f != [] then f[0] else r[0]; }
    GroupsOfRun(render, f, r, FmKorea);
    GroupsOfRun(render, a, f + r, Algumon);
    assert a + (f + r) == a + f + r;
    assert render(r) + "" == render(r);
    assert render(a) + (render(f) + render(r)) == render(a) + render(f) + render(r);
  }

  /** Group the sorted deals and append the part of each group, as the loop over the groups does. */
  method AppendGroups(render: seq<Deal> -> string, head: string, sorted: seq<Deal>) returns (html: string)
    requires render([]) == ""
    ensures html == head + Groups(render, sorted)
  {
    html := head;
    var rest := sorted;
    while rest != []
      invariant html + Groups(render, rest) == head + Groups(render, sorted)
      decreases |rest|
    {
      var n := RunLength(rest);
      Assoc(html, render(rest[..n]), Groups(render, rest[n..]));
      html := html + render(rest[..n]);
      rest := rest[n..];
    }
    assert html + "" == html;
  }

  lemma Assoc(x: string, y: string, z: string)
    ensures x + (y + z) == x + y + z
  {
  }

  /** Sort, group and write. */
  method MakeHotdealEmailContent(title: string, updates: seq<Deal>) returns (html: string)
    ensures html == EmailContent(title, updates)
  {
    if updates == [] {
      return "";
    }
    var sorted := SortBySite(updates);
    SortIsStable(updates);
    StableSortIsBySite(updates, sorted);
    var render := deals => Section(deals);
    GroupsOfSorted(render, updates);
    html := AppendGroups(render, Title(title), sorted);
    FourParts(Title(title), render(Filter(updates, Algumon)), render(Filter(updates, FmKorea)),
              render(Filter(updates, Ruliweb)));
  }

  lemma FourParts(t: string, x: string, y: string, z: string)
    ensures t + (x + y + z) == t + x + y + z
  {
  }

  // ---------- what no deal can change about the page ----------

  function Angles(s: string): nat {
    CountChar(s, '<')
  }

  lemma AngleAtFront(s: string)
    requires s != "" && s[0] == '<' && '<' !in s[1..]
    ensures Angles(s) == 1
  {
    NoAngle(s[1..]);
  }

  lemma FourAngles(a: string, b: string, c: string, d: string)
    ensures Angles(a + b + c + d) == Angles(a) + Angles(b) + Angles(c) + Angles(d)
    ensures Angles(a + b + c) == Angles(a) + Angles(b) + Angles(c)
    ensures Angles(a + b) == Angles(a) + Angles(b)
  {
    CountCharConcat(a, b, '<');
    CountCharConcat(a + b, c, '<');
    CountCharConcat(a + b + c, d, '<');
  }

  lemma LinkAngles(href: string, text: string)
    ensures Angles(Link(href, text)) == 2 + Angles(text)
  {
    EscapedHasNoAngle(href);
    AngleAtFront("<a href='");
    AngleAtFront("</a>");
    NoAngle("'>");
    FourAngles("<a href='", Escape(href), "'>", text);
    CountCharConcat("<a href='" + Escape(href) + "'>" + text, "</a>", '<');
  }

  lemma ParagraphAngles(d: Deal)
    ensures Angles(Paragraph(d)) == 4
  {
    EscapedHasNoAngle(d.title);
    EscapedIsInert(PriceText(d));
    LinkAngles(d.link, Escape(d.title));
    AngleAtFront("<p>");
    AngleAtFront("</p>");
    NoAngle(" - " + Escape(PriceText(d)));
    FourAngles("<p>", Link(d.link, Escape(d.title)), " - " + Escape(PriceText(d)), "</p>");
  }

  lemma HeadingAngles(d: Deal)
    ensures Angles(SiteHeading(d)) == 4
  {
    var text := "[" + SiteDisplay(d.site) + "] 검색 결과";
    assert '<' !in SiteDisplay(d.site);
    NoAngle(text);
    LinkAngles(d.searchUrl, text);
    AngleAtFront("<h3>");
    AngleAtFront("</h3>");
    FourAngles("<h3>", Link(d.searchUrl, text), "</h3>", "");
  }

  lemma TitleAngles(title: string)
    ensures Angles(Title(title)) == 2
  {
    EscapedHasNoAngle(title);
    AngleAtFront("<h2>");
    AngleAtFront("</h2>");
    NoAngle(" 새 핫딜");
    FourAngles("<h2>", Escape(title), " 새 핫딜", "</h2>");
  }

  lemma {:induction false} ParagraphsAngles(deals: seq<Deal>)
    ensures Angles(Paragraphs(deals)) == 4 * |deals|
  {
    if deals != [] {
      var init, last := deals[..|deals| - 1], deals[|deals| - 1];
      ParagraphsAngles(init);
      ParagraphAngles(last);
      CountCharConcat(Paragraphs(init), Paragraph(last), '<');
    }
  }

  lemma SectionAngles(deals: seq<Deal>)
    ensures Angles(Section(deals)) == if deals == [] then 0 else 4 + 4 * |deals|
  {
    if deals != [] {
      HeadingAngles(deals[0]);
      ParagraphsAngles(deals);
      CountCharConcat(SiteHeading(deals[0]), Paragraphs(deals), '<');
    }
  }

  lemma {:induction false} FilterLengths(deals: seq<Deal>)
    ensures |Filter(deals, Algumon)| + |Filter(deals, FmKorea)| + |Filter(deals, Ruliweb)| == |deals|
  {
    if deals != [] { FilterLengths(deals[1..]); }
  }

  function HasSite(deals: seq<Deal>, site: SiteName): nat {
    if Filter(deals, site) == [] then 0 else 1
  }

  /** The page has as many tags as one title, one heading for each site with deals and one paragraph for each deal
      need, and no more: no title, link, price or address in the deals can add one. */
  lemma TagsAreFixed(title: string, deals: seq<Deal>)
    requires deals != []
    ensures Angles(EmailContent(title, deals)) ==
            2 + 4 * (HasSite(deals, Algumon) + HasSite(deals, FmKorea) + HasSite(deals, Ruliweb)) + 4 * |deals|
  {
    var t, a := Title(title), Section(Filter(deals, Algumon));
    var f, r := Section(Filter(deals, FmKorea)), Section(Filter(deals, Ruliweb));
    TitleAngles(title);
    SectionAngles(Filter(deals, Algumon));
    SectionAngles(Filter(deals, FmKorea));
    SectionAngles(Filter(deals, Ruliweb));
    FilterLengths(deals);
    CountCharConcat(t, a, '<');
    CountCharConcat(t + a, f, '<');
    CountCharConcat(t + a + f, r, '<');
  }
}
