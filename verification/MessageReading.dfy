/** Reading a whole message back: the pages of the keywords, one after another, and the titles in its subject. */
module MessageReading {
  import opened Options
  import opened DealDetection
  import opened MailContent
  import opened MailFanOut
  import opened MailReading

  // ---------- the body ----------

  function MessageLines(f: Findings): seq<Line> {
    if f == [] then [] else MessageLines(f[..|f| - 1]) + PageLines(f[|f| - 1].0.title, f[|f| - 1].1)
  }

  lemma {:induction false} BodySays(f: Findings)
    requires AllNonEmpty(f)
    ensures Says(Body(f), MessageLines(f))
  {
    hide Says, EmailContent, PageLines;
    if f == [] {
      SaysNothing();
    } else {
      var init, x := f[..|f| - 1], f[|f| - 1];
      BodySays(init);
      PageSays(x.0.title, x.1);
      SaysBoth(Body(init), MessageLines(init), EmailContent(x.0.title, x.1), PageLines(x.0.title, x.1));
    }
  }

  /** An order in which to name the deals, for each finding. */
  ghost predicate InOrder(f: Findings, orders: seq<seq<nat>>) {
    |orders| == |f| && forall i :: 0 <= i < |f| ==> InNameOrder(f[i].1, orders[i])
  }

  /** For each keyword its heading and then its deals in the given order. */
  function Told(f: Findings, orders: seq<seq<nat>>): seq<Line>
    requires InOrder(f, orders)
  {
    if f == [] then [] else
    var n := |f| - 1;
    assert InNameOrder(f[n].1, orders[n]);
    Told(f[..n], orders[..n]) + ([Heading(HeadingText(f[n].0.title))] + Entries(Picked(f[n].1, orders[n])))
  }

  /** The text says what was found, keyword by keyword: every deal once, with its link, title and price, site by site
      in name order and in their own order. */
  ghost predicate Tells(text: string, f: Findings) {
    exists orders :: InOrder(f, orders) && ReadPage(text) == Some(Told(f, orders))
  }

  lemma {:induction false} LinesAreTold(f: Findings) returns (orders: seq<seq<nat>>)
    ensures InOrder(f, orders)
    ensures MessageLines(f) == Told(f, orders)
  {
    hide InNameOrder, Entries, BySite, Picked;
    if f == [] {
      orders := [];
    } else {
      var n := |f| - 1;
      var before := LinesAreTold(f[..n]);
      var order := BySiteIsInOrder(f[n].1);
      orders := before + [order];
      assert orders[..n] == before;
    }
  }

  /** Read back, a message names precisely the findings it was written for. */
  lemma {:induction false} MessageReads(u: User, f: Findings)
    requires AllNonEmpty(f)
    ensures ReadPage(MessageOf(u, f).body) == Some(MessageLines(f))
    ensures Tells(MessageOf(u, f).body, f)
  {
    hide Says, ReadPage, Body;
    BodySays(f);
    SaysIsRead(Body(f), MessageLines(f));
    var orders := LinesAreTold(f);
  }

  // ---------- the subject ----------

  /** The titles with a comma and a blank between them. */
  function Joined(titles: seq<string>): string {
    if titles == [] then "" else
    if |titles| == 1 then titles[0] else Joined(titles[..|titles| - 1]) + ", " + titles[|titles| - 1]
  }

  function TitlesOf(f: Findings): seq<string> {
    seq(|f|, i requires 0 <= i < |f| => f[i].0.title)
  }

  lemma {:induction false} TitlesAreJoined(f: Findings)
    requires f != []
    ensures Titles(f) == Joined(TitlesOf(f)) + ", "
  {
    var n := |f| - 1;
    assert TitlesOf(f)[..n] == TitlesOf(f[..n]);
    if n > 0 {
      TitlesAreJoined(f[..n]);
    } else {
      assert Titles(f[..n]) == "";
    }
  }

  ghost predicate EndsInSeparator(s: string) {
    s != "" && (s[|s| - 1] == ',' || s[|s| - 1] == ' ')
  }

  lemma {:induction false} StripTailIsNoLonger(s: string)
    ensures |StripTail(s)| <= |s|
    ensures StripTail(s) == s <==> !EndsInSeparator(s)
  {
    if EndsInSeparator(s) { StripTailIsNoLonger(s[..|s| - 1]); }
  }

  lemma {:induction false} StripSeparator(s: string)
    ensures StripTail(s + ", ") == StripTail(s)
  {
    assert (s + ", ")[..|s| + 1] == s + "," && (s + ",")[..|s|] == s;
  }

  /** The subject lists the titles of the keywords, in order, if and only if the last of them, or what stands before it
      when it is empty, does not end in a comma or a blank: those are cut off. */
  lemma SubjectListsTitlesIff(u: User, f: Findings)
    requires f != []
    ensures MessageOf(u, f).subject == "[" + Joined(TitlesOf(f)) + "] 새로운 핫딜 알림" <==>
            var last := f[|f| - 1].0.title; if last == "" then |f| == 1 else !EndsInSeparator(last)
  {
    var joined, last := Joined(TitlesOf(f)), f[|f| - 1].0.title;
    TitlesAreJoined(f);
    StripSeparator(joined);
    StripTailIsNoLonger(joined);
    if |f| > 1 {
      var front := Joined(TitlesOf(f)[..|f| - 1]) + ", ";
      assert joined == front + last;
      if last == "" { assert joined == front; }
    }
    if MessageOf(u, f).subject == "[" + joined + "] 새로운 핫딜 알림" {
      SameInside(StripTail(joined), joined, "[", "] 새로운 핫딜 알림");
    }
  }

  lemma SameInside(a: string, b: string, head: string, tail: string)
    requires head + a + tail == head + b + tail
    ensures a == b
  {
    assert |a| == |b|;
    assert (head + a + tail)[|head|..|head| + |a|] == a;
    assert (head + b + tail)[|head|..|head| + |b|] == b;
  }

  // ---------- what stands under a heading ----------

  /** The deals that a message lists under a keyword. */
  function SectionOf(f: Findings, k: Keyword): seq<Deal> {
    if f == [] then [] else
    SectionOf(f[..|f| - 1], k) + (if f[|f| - 1].0 == k then f[|f| - 1].1 else [])
  }

  lemma {:induction false} SectionSnoc(f: Findings, x: (Keyword, seq<Deal>), k: Keyword)
    ensures SectionOf(f + [x], k) == SectionOf(f, k) + (if x.0 == k then x.1 else [])
  {
    assert (f + [x])[..|f|] == f;
  }

  lemma {:induction false} NoSection(k: Keyword)
    ensures SectionOf([], k) == []
  {
  }

  function LastHeading(lines: seq<Line>): Option<string> {
    if lines == [] then None else
    var last := lines[|lines| - 1];
    if last.Heading? then Some(last.text) else LastHeading(lines[..|lines| - 1])
  }

  function LastSite(lines: seq<Line>): Option<string> {
    if lines == [] || lines[|lines| - 1].Heading? then None else
    var last := lines[|lines| - 1];
    if last.SiteLine? then Some(last.text) else LastSite(lines[..|lines| - 1])
  }

  /** The deals a reader finds under a heading and there under a site. */
  function Listed(lines: seq<Line>, heading: string, site: string): seq<Line> {
    if lines == [] then [] else
    var init, last := lines[..|lines| - 1], lines[|lines| - 1];
    Listed(init, heading, site) +
    (if last.DealLine? && LastHeading(init) == Some(heading) && LastSite(init) == Some(site) then [last] else [])
  }

  lemma {:induction false} ListedSnoc(lines: seq<Line>, x: Line, heading: string, site: string)
    ensures LastHeading(lines + [x]) == if x.Heading? then Some(x.text) else LastHeading(lines)
    ensures LastSite(lines + [x]) ==
            if x.Heading? then None else if x.SiteLine? then Some(x.text) else LastSite(lines)
    ensures Listed(lines + [x], heading, site) == Listed(lines, heading, site) +
            (if x.DealLine? && LastHeading(lines) == Some(heading) && LastSite(lines) == Some(site) then [x] else [])
  {
    assert (lines + [x])[..|lines|] == lines;
  }

  /** A heading starts afresh. */
  lemma {:induction false} ListedAfter(a: seq<Line>, h: string, b: seq<Line>, heading: string, site: string)
    ensures var page := [Heading(h)] + b;
      && LastHeading(a + page) == LastHeading(page) && LastSite(a + page) == LastSite(page)
      && Listed(a + page, heading, site) == Listed(a, heading, site) + Listed(page, heading, site)
    decreases |b|
  {
    hide LastHeading, LastSite, Listed;
    ListedNothing(heading, site);
    if b == [] {
      assert [Heading(h)] + b == [] + [Heading(h)];
      assert a + ([] + [Heading(h)]) == a + [Heading(h)];
      ListedSnoc([], Heading(h), heading, site);
      ListedSnoc(a, Heading(h), heading, site);
      assert Listed(a, heading, site) + [] == Listed(a, heading, site);
    } else {
      var init, x := b[..|b| - 1], b[|b| - 1];
      var page := [Heading(h)] + init;
      ListedAfter(a, h, init, heading, site);
      assert [Heading(h)] + b == page + [x] && a + ([Heading(h)] + b) == (a + page) + [x];
      ListedSnoc(page, x, heading, site);
      ListedSnoc(a + page, x, heading, site);
      var more := if x.DealLine? && LastHeading(page) == Some(heading) && LastSite(page) == Some(site) then [x] else [];
      assert Listed(a, heading, site) + (Listed(page, heading, site) + more) ==
             Listed(a, heading, site) + Listed(page, heading, site) + more;
    }
  }

  lemma {:induction false} ListedNothing(heading: string, site: string)
    ensures Listed([], heading, site) == [] && LastHeading([]) == None && LastSite([]) == None
  {
  }

  lemma SiteTextsDiffer(a: SiteName, b: SiteName)
    ensures SiteText(a) == SiteText(b) <==> a == b
  {
    hide Upper;
    DisplayIsUpper(a);
    DisplayIsUpper(b);
    assert SiteText(a)[1] == SiteDisplay(a)[0] && SiteText(b)[1] == SiteDisplay(b)[0];
  }

  lemma HeadingTextsDiffer(a: string, b: string)
    ensures HeadingText(a) == HeadingText(b) <==> a == b
  {
    if HeadingText(a) == HeadingText(b) {
      assert "" + a + " 새 핫딜" == HeadingText(a) && "" + b + " 새 핫딜" == HeadingText(b);
      SameInside(a, b, "", " 새 핫딜");
    }
  }

  function EntriesOf(deals: seq<Deal>): seq<Line> {
    seq(|deals|, i requires 0 <= i < |deals| => Entry(deals[i]))
  }

  /** One more deal, with a line for its site if that is a new one, stands under its site. */
  lemma {:induction false} DealListed(before: seq<Line>, d: Deal, top: seq<Line>, heading: string, site: SiteName)
    requires top == [SiteEntry(d)] || (top == [] && LastSite(before) == Some(SiteText(d.site)))
    ensures var after := before + top + [Entry(d)];
      && LastHeading(after) == LastHeading(before) && LastSite(after) == Some(SiteText(d.site))
      && Listed(after, heading, SiteText(site)) == Listed(before, heading, SiteText(site)) +
         (if LastHeading(before) == Some(heading) && d.site == site then [Entry(d)] else [])
  {
    hide LastHeading, LastSite, Listed, SiteText, SiteEntry, Entry;
    var text := SiteText(site);
    SiteEntryIs(d);
    EntryIs(d);
    SiteTextsDiffer(d.site, site);
    ListedSnoc(before, SiteEntry(d), heading, text);
    ListedSnoc(before + top, Entry(d), heading, text);
    assert Listed(before, heading, text) + [] == Listed(before, heading, text);
    if top == [] { assert before + top == before; }
  }

  /** On one page the deals of a site stand under it. */
  lemma {:induction false} EntriesListed(h: string, q: seq<Deal>, heading: string, site: SiteName)
    ensures var page := [Heading(h)] + Entries(q);
      && LastHeading(page) == Some(h)
      && LastSite(page) == (if q == [] then None else Some(SiteText(q[|q| - 1].site)))
      && Listed(page, heading, SiteText(site)) == if h == heading then EntriesOf(Filter(q, site)) else []
  {
    hide LastHeading, LastSite, Listed, SiteText, SiteEntry, Entry, Entries, Filter, EntriesOf;
    if q == [] {
      NothingListed(h, heading, site);
    } else {
      var n := |q| - 1;
      var d, before := q[n], [Heading(h)] + Entries(q[..n]);
      EntriesListed(h, q[..n], heading, site);
      var top := if n == 0 || q[n - 1].site != d.site then [SiteEntry(d)] else [];
      LastEntries(q, top + [Entry(d)]);
      assert [Heading(h)] + Entries(q) == before + top + [Entry(d)];
      DealListed(before, d, top, heading, site);
      FilterSnoc(q, site);
    }
  }

  lemma {:induction false} NothingListed(h: string, heading: string, site: SiteName)
    ensures var page := [Heading(h)] + Entries([]);
      LastHeading(page) == Some(h) && LastSite(page) == None && Listed(page, heading, SiteText(site)) == []
    ensures EntriesOf(Filter([], site)) == []
  {
    hide LastHeading, LastSite, Listed, SiteText;
    ListedNothing(heading, SiteText(site));
    ListedSnoc([], Heading(h), heading, SiteText(site));
    assert [Heading(h)] + Entries([]) == [] + [Heading(h)];
  }

  lemma SiteEntryIs(d: Deal)
    ensures SiteEntry(d).SiteLine? && SiteEntry(d).text == SiteText(d.site)
  {
  }

  lemma EntryIs(d: Deal)
    ensures Entry(d).DealLine?
  {
  }

  lemma {:induction false} FilterSnoc(q: seq<Deal>, site: SiteName)
    requires q != []
    ensures var n := |q| - 1;
      EntriesOf(Filter(q, site)) ==
      EntriesOf(Filter(q[..n], site)) + (if q[n].site == site then [Entry(q[n])] else [])
  {
    hide Entry;
    var n := |q| - 1;
    assert q == q[..n] + [q[n]] && [q[n]][1..] == [];
    FilterConcat(q[..n], [q[n]], site);
  }

  lemma {:induction false} FilterBySite(deals: seq<Deal>, site: SiteName)
    ensures Filter(BySite(deals), site) == Filter(deals, site)
  {
    hide Filter;
    var a, f, r := Filter(deals, Algumon), Filter(deals, FmKorea), Filter(deals, Ruliweb);
    FilterConcat(a + f, r, site);
    FilterConcat(a, f, site);
    FilterAllOf(deals, Algumon);
    FilterAllOf(deals, FmKorea);
    FilterAllOf(deals, Ruliweb);
    FilterOfOneSite(a, Algumon, site);
    FilterOfOneSite(f, FmKorea, site);
    FilterOfOneSite(r, Ruliweb, site);
  }

  /** Under a keyword's heading and there under a site a message lists exactly the deals of that site found for the
      keyword, in their order, if no other keyword has its title. */
  lemma {:induction false} ListedIsSection(f: Findings, k: Keyword, site: SiteName)
    requires forall i :: 0 <= i < |f| && f[i].0.title == k.title ==> f[i].0 == k
    ensures Listed(MessageLines(f), HeadingText(k.title), SiteText(site)) == EntriesOf(Filter(SectionOf(f, k), site))
  {
    hide Listed, Filter, Entries, BySite, SiteText, HeadingText, SectionOf, Entry;
    var heading := HeadingText(k.title);
    if f == [] {
      ListedNothing(heading, SiteText(site));
      NoSection(k);
      FilterNone([], site);
    } else {
      var init, x := f[..|f| - 1], f[|f| - 1];
      ListedIsSection(init, k, site);
      var h, q := HeadingText(x.0.title), BySite(x.1);
      ListedAfter(MessageLines(init), h, Entries(q), heading, SiteText(site));
      EntriesListed(h, q, heading, site);
      FilterBySite(x.1, site);
      HeadingTextsDiffer(x.0.title, k.title);
      assert f == init + [x];
      SectionSnoc(init, x, k);
      var more := if x.0 == k then x.1 else [];
      FilterConcat(SectionOf(init, k), more, site);
      FilterNone([], site);
    }
  }
}
