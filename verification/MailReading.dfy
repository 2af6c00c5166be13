/** Reading a notification back: what its markup says, found by cutting it at its tags and undoing the escapes. */
module MailReading {
  import opened Options
  import opened DealDetection
  import opened MailContent

  // ---------- reading ----------

  /** The character an escape stands for. */
  function Unescape(s: string): string {
    if s == "" then ""
    else if "&amp;" <= s then "&" + Unescape(s[5..])
    else if "&lt;" <= s then "<" + Unescape(s[4..])
    else if "&gt;" <= s then ">" + Unescape(s[4..])
    else if "&quot;" <= s then "\"" + Unescape(s[6..])
    else if "&#x27;" <= s then "'" + Unescape(s[6..])
    else [s[0]] + Unescape(s[1..])
  }

  /** The parts of `s` between the occurrences of `c`. */
  function Cut(s: string, c: char): (parts: seq<string>)
    ensures parts != []
  {
    if s == "" then [""]
    else if s[0] == c then [""] + Cut(s[1..], c)
    else var rest := Cut(s[1..], c); [[s[0]] + rest[0]] + rest[1..]
  }

  /** A line as a reader sees it: a heading, a link to the search on a site, or a deal with link, title and price. */
  datatype Line = Heading(text: string) | SiteLine(href: string, text: string)
    | DealLine(href: string, title: string, price: string)

  /** The target and the text of a link that has been cut off its opening bracket. */
  function ReadLink(part: string): Option<(string, string)> {
    if !("a href='" <= part) then None else
    var rest := part[8..];
    var i := Position(rest, '\'');
    if i + 1 < |rest| && rest[i + 1] == '>' then Some((Unescape(rest[..i]), Unescape(rest[i + 2..]))) else None
  }

  /** The lines of a text that has been cut at its opening brackets. */
  function Read(parts: seq<string>): Option<seq<Line>> {
    if parts == [] then Some([])
    else if |parts| >= 2 && "h2>" <= parts[0] && parts[1] == "/h2>" then
      Prepend(Heading(Unescape(parts[0][3..])), Read(parts[2..]))
    else if |parts| < 4 || ReadLink(parts[1]).None? then None
    else
      var link := ReadLink(parts[1]).value;
      if parts[0] == "h3>" && parts[2] == "/a>" && parts[3] == "/h3>" then
        Prepend(SiteLine(link.0, link.1), Read(parts[4..]))
      else if parts[0] == "p>" && "/a> - " <= parts[2] && parts[3] == "/p>" then
        Prepend(DealLine(link.0, link.1, Unescape(parts[2][6..])), Read(parts[4..]))
      else None
  }

  function Prepend(line: Line, lines: Option<seq<Line>>): Option<seq<Line>> {
    if lines.Some? then Some([line] + lines.value) else None
  }

  function ReadPage(page: string): Option<seq<Line>> {
    var parts := Cut(page, '<');
    if parts[0] == "" then Read(parts[1..]) else None
  }

  // ---------- what is to be read ----------

  function UpperChar(c: char): char {
    if 'a' <= c <= 'z' then (c as int - 'a' as int + 'A' as int) as char else c
  }

  function Upper(s: string): string {
    seq(|s|, i requires 0 <= i < |s| => UpperChar(s[i]))
  }

  function SiteText(site: SiteName): string {
    "[" + Upper(SiteValue(site)) + "] 검색 결과"
  }

  function HeadingText(title: string): string {
    title + " 새 핫딜"
  }

  /** A deal, with its own link, title and price. */
  function Entry(d: Deal): Line {
    DealLine(d.link, d.title, if d.price.Some? then d.price.value else "")
  }

  /** The line above the deals of a site, with the search of the first of them. */
  function SiteEntry(d: Deal): Line {
    SiteLine(d.searchUrl, SiteText(d.site))
  }

  /** The deals in their order, with a line for the site before the first deal of each run of one site. */
  function Entries(q: seq<Deal>): seq<Line> {
    if q == [] then [] else
    var n := |q| - 1;
    Entries(q[..n]) + (if n == 0 || q[n - 1].site != q[n].site then [SiteEntry(q[n])] else []) + [Entry(q[n])]
  }

  // ---------- escapes ----------

  lemma {:induction false} UnescapeEscape(s: string)
    ensures Unescape(Escape(s)) == s
  {
    if s != "" {
      UnescapeEscape(s[1..]);
      var head, tail := EscapeChar(s[0]), Escape(s[1..]);
      assert Escape(s) == head + tail;
      assert (head + tail)[|head|..] == tail;
      assert s == [s[0]] + s[1..];
      UnescapeChar(s[0], tail);
    }
  }

  lemma {:induction false} UnescapeChar(c: char, tail: string)
    ensures Unescape(EscapeChar(c) + tail) == [c] + Unescape(tail)
  {
    var s := EscapeChar(c) + tail;
    assert s[|EscapeChar(c)|..] == tail;
    assert s[0] == EscapeChar(c)[0];
    if c == '<' { assert s[1] == 'l'; }
    if c == '>' { assert s[1] == 'g'; }
    if c == '"' { assert s[1] == 'q'; }
    if c == '\'' { assert s[1] == '#'; }
  }

  // ---------- cutting ----------

  lemma {:induction false} CutFirst(a: string, b: string, c: char)
    requires c !in a
    ensures Cut(a + [c] + b, c) == [a] + Cut(b, c)
  {
    var s := a + [c] + b;
    if a == "" {
      assert s[1..] == b;
    } else {
      assert s[0] == a[0] && s[1..] == a[1..] + [c] + b;
      assert a[0] in a;
      CutFirst(a[1..], b, c);
      assert [a[0]] + a[1..] == a;
      assert ([a[1..]] + Cut(b, c))[1..] == Cut(b, c);
    }
  }

  lemma {:induction false} CutNone(a: string, c: char)
    requires c !in a
    ensures Cut(a, c) == [a]
  {
    if a != "" {
      assert a[0] in a;
      CutNone(a[1..], c);
      assert [a[0]] + a[1..] == a;
    }
  }

  /** The text whose parts these are, each behind an opening bracket. */
  function Woven(parts: seq<string>): string {
    if parts == [] then "" else Woven(parts[..|parts| - 1]) + "<" + parts[|parts| - 1]
  }

  ghost predicate Whole(parts: seq<string>) {
    forall i :: 0 <= i < |parts| ==> '<' !in parts[i]
  }

  lemma {:induction false} WovenFront(p: string, parts: seq<string>)
    ensures Woven([p] + parts) == "<" + p + Woven(parts)
  {
    if parts == [] {
      assert [p] + parts == [p] && [p][..0] == [];
    } else {
      var init, last := parts[..|parts| - 1], parts[|parts| - 1];
      WovenFront(p, init);
      assert ([p] + parts)[..|parts|] == [p] + init;
      assert "<" + p + Woven(init) + "<" + last == "<" + p + (Woven(init) + "<" + last);
    }
  }

  lemma {:induction false} WovenConcat(a: seq<string>, b: seq<string>)
    ensures Woven(a + b) == Woven(a) + Woven(b)
  {
    if b == [] {
      assert a + b == a;
    } else {
      var init := b[..|b| - 1];
      WovenConcat(a, init);
      assert (a + b)[..|a + b| - 1] == a + init;
      assert Woven(a) + Woven(init) + "<" + b[|b| - 1] == Woven(a) + (Woven(init) + "<" + b[|b| - 1]);
    }
  }

  lemma {:induction false} CutAfter(head: string, parts: seq<string>)
    requires '<' !in head && Whole(parts)
    ensures Cut(head + Woven(parts), '<') == [head] + parts
    decreases |parts|
  {
    if parts == [] {
      assert head + "" == head;
      CutNone(head, '<');
    } else {
      var p, rest := parts[0], parts[1..];
      assert parts == [p] + rest;
      WovenFront(p, rest);
      assert head + ("<" + p + Woven(rest)) == head + ['<'] + (p + Woven(rest));
      CutFirst(head, p + Woven(rest), '<');
      CutAfter(p, rest);
    }
  }

  /** Cutting a text at its brackets gives back the parts it was made of. */
  lemma {:induction false} ReadWoven(parts: seq<string>)
    requires Whole(parts)
    ensures ReadPage(Woven(parts)) == Read(parts)
  {
    CutAfter("", parts);
    assert "" + Woven(parts) == Woven(parts);
    assert ([""] + parts)[1..] == parts;
  }

  /** How many parts the first line takes up. */
  function LineLength(parts: seq<string>): nat {
    if |parts| >= 2 && "h2>" <= parts[0] && parts[1] == "/h2>" then 2 else 4
  }

  lemma ReadNothing()
    ensures Read([]) == Some([])
  {
  }

  lemma {:induction false} ReadSame(a: seq<string>, b: seq<string>)
    requires a != [] && Read(a).Some?
    ensures var n := LineLength(a);
      0 < n <= |a| && Read(a[n..]).Some? && LineLength(a + b) == n &&
      (Read(a[n..] + b).Some? ==>
         Read(a + b).Some? && Read(a).value[1..] == Read(a[n..]).value && |Read(a).value| > 0 &&
         Read(a + b).value == [Read(a).value[0]] + Read(a[n..] + b).value)
  {
    var n := LineLength(a);
    assert forall i :: 0 <= i < |a| ==> (a + b)[i] == a[i];
    assert (a + b)[n..] == a[n..] + b;
  }

  lemma {:induction false} ReadConcat(a: seq<string>, b: seq<string>)
    requires Read(a).Some? && Read(b).Some?
    ensures Read(a + b) == Some(Read(a).value + Read(b).value)
    decreases |a|
  {
    hide Read, LineLength;
    if a == [] {
      ReadNothing();
      assert a + b == b && [] + Read(b).value == Read(b).value;
    } else {
      var n := LineLength(a);
      ReadSame(a, b);
      ReadConcat(a[n..], b);
      var first, rest := Read(a).value[0], Read(a[n..]).value;
      assert Read(a).value == [first] + rest;
      assert [first] + (rest + Read(b).value) == [first] + rest + Read(b).value;
    }
  }

  // ---------- one line each ----------

  ghost predicate Inert(s: string) {
    forall c :: c in s ==> c != '<' && c != '\''
  }

  lemma {:induction false} EscapeInert(s: string)
    ensures Inert(Escape(s))
  {
    EscapedIsInert(s);
  }

  /** The parts of a link with text that is markup already. */
  function LinkPart(href: string, text: string): string {
    "a href='" + Escape(href) + "'>" + text
  }

  /** A text without the mark ends where the mark is. */
  lemma {:induction false} PositionAfter(e: string, c: char, tail: string)
    requires c !in e
    ensures Position(e + [c] + tail, c) == |e|
  {
    var s := e + [c] + tail;
    assert s[|e|] == c;
    forall i | 0 <= i < |e| ensures s[i] != c {
      assert s[i] == e[i] && e[i] in e;
    }
  }

  lemma {:induction false} LinkReads(href: string, text: string)
    requires Inert(text)
    ensures ReadLink(LinkPart(href, text)) == Some((href, Unescape(text)))
    ensures '<' !in LinkPart(href, text)
  {
    hide Escape, Unescape, Position;
    EscapeInert(href);
    UnescapeEscape(href);
    var e, rest := Escape(href), Escape(href) + "'>" + text;
    assert LinkPart(href, text) == "a href='" + rest;
    assert ("a href='" + rest)[8..] == rest;
    PositionAfter(e, '\'', ">" + text);
    assert e + ['\''] + (">" + text) == rest;
    assert rest[|e| + 1] == '>';
    assert rest[..|e|] == e && rest[|e| + 2..] == text;
  }

  function ParagraphParts(d: Deal): seq<string> {
    ["p>", LinkPart(d.link, Escape(d.title)), "/a> - " + Escape(PriceText(d)), "/p>"]
  }

  lemma WovenFour(a: string, b: string, c: string, d: string)
    ensures Woven([a, b, c, d]) == "<" + a + "<" + b + "<" + c + "<" + d
  {
    assert [a, b, c, d][..3] == [a, b, c] && [a, b, c][..2] == [a, b] && [a, b][..1] == [a] && [a][..0] == [];
    assert Woven([a]) == "<" + a;
    assert Woven([a, b]) == "<" + a + "<" + b;
  }

  lemma WovenParagraph(d: Deal)
    ensures Woven(ParagraphParts(d)) == Paragraph(d)
  {
    hide Escape, Woven;
    var link, title, price := Escape(d.link), Escape(d.title), Escape(PriceText(d));
    WovenFour("p>", LinkPart(d.link, title), "/a> - " + price, "/p>");
    assert "<p>" == "<" + "p>" && "</p>" == "<" + "/p>" && "</a>" + " - " == "<" + "/a> - ";
    assert "<a href='" == "<" + "a href='";
    assert Paragraph(d) == "<p>" + ("<a href='" + link + "'>" + title + "</a>") + (" - " + price) + "</p>";
    assert Paragraph(d) ==
           "<" + "p>" + "<" + ("a href='" + link + "'>" + title) + "<" + ("/a> - " + price) + "<" + "/p>";
  }

  /** The four parts of a deal: two around, the link with the title, and the price behind it. */
  lemma {:induction false} DealRead(link: string, behind: string)
    requires ReadLink(link).Some?
    ensures Read(["p>", link, "/a> - " + behind, "/p>"]) ==
            Some([DealLine(ReadLink(link).value.0, ReadLink(link).value.1, Unescape(behind))])
  {
    hide ReadLink, Unescape;
    var parts := ["p>", link, "/a> - " + behind, "/p>"];
    var line := DealLine(ReadLink(link).value.0, ReadLink(link).value.1, Unescape(behind));
    assert "p>"[0] == 'p' && "h2>"[0] == 'h' && "h3>"[0] == 'h';
    assert !("h2>" <= "p>") && "p>" != "h3>";
    assert parts[2][6..] == behind && "/a> - " <= parts[2];
    assert parts[4..] == [];
    ReadNothing();
    assert [line] + [] == [line];
  }

  /** The four parts of the heading of a site. */
  lemma SiteRead(link: string)
    requires ReadLink(link).Some?
    ensures Read(["h3>", link, "/a>", "/h3>"]) == Some([SiteLine(ReadLink(link).value.0, ReadLink(link).value.1)])
  {
    hide ReadLink, Unescape;
    var parts := ["h3>", link, "/a>", "/h3>"];
    var line := SiteLine(ReadLink(link).value.0, ReadLink(link).value.1);
    assert "h3>"[1] == '3' && "h2>"[1] == '2';
    assert parts[4..] == [];
    ReadNothing();
    assert [line] + [] == [line];
  }

  lemma ParagraphReads(d: Deal)
    ensures Whole(ParagraphParts(d)) && Read(ParagraphParts(d)) == Some([Entry(d)])
  {
    hide Escape, Unescape, Read, ReadLink;
    var title, price := Escape(d.title), Escape(PriceText(d));
    EscapeInert(d.title);
    EscapeInert(PriceText(d));
    LinkReads(d.link, title);
    UnescapeEscape(d.title);
    UnescapeEscape(PriceText(d));
    DealRead(LinkPart(d.link, title), price);
  }

  function HeadingParts(d: Deal): seq<string> {
    ["h3>", LinkPart(d.searchUrl, "[" + SiteDisplay(d.site) + "] 검색 결과"), "/a>", "/h3>"]
  }

  lemma WovenHeading(d: Deal)
    ensures Woven(HeadingParts(d)) == SiteHeading(d)
  {
    hide Escape, Woven, SiteDisplay;
    var link, text := Escape(d.searchUrl), "[" + SiteDisplay(d.site) + "] 검색 결과";
    WovenFour("h3>", LinkPart(d.searchUrl, text), "/a>", "/h3>");
    assert "<h3>" == "<" + "h3>" && "</h3>" == "<" + "/h3>" && "</a>" == "<" + "/a>";
    assert "<a href='" == "<" + "a href='";
    assert SiteHeading(d) == "<h3>" + ("<a href='" + link + "'>" + text + "</a>") + "</h3>";
    assert SiteHeading(d) == "<" + "h3>" + "<" + ("a href='" + link + "'>" + text) + "<" + "/a>" + "<" + "/h3>";
  }

  lemma AlgumonIsUpper()
    ensures Upper("algumon") == "ALGUMON"
  {
  }

  lemma FmKoreaIsUpper()
    ensures Upper("fmKorea") == "FMKOREA"
  {
  }

  lemma RuliwebIsUpper()
    ensures Upper("ruliweb") == "RULIWEB"
  {
  }

  lemma DisplayIsUpper(site: SiteName)
    ensures SiteDisplay(site) == Upper(SiteValue(site))
  {
    hide Upper;
    AlgumonIsUpper();
    FmKoreaIsUpper();
    RuliwebIsUpper();
  }

  /** A text without an ampersand stands for itself. */
  lemma {:induction false} UnescapePlain(s: string)
    requires '&' !in s
    ensures Unescape(s) == s
  {
    if s != "" {
      assert s[0] in s;
      UnescapePlain(s[1..]);
      assert s == [s[0]] + s[1..];
    }
  }

  lemma HeadingReads(d: Deal)
    ensures Whole(HeadingParts(d)) && Read(HeadingParts(d)) == Some([SiteLine(d.searchUrl, SiteText(d.site))])
  {
    hide Escape, Unescape, Read, ReadLink, Upper;
    var text := SiteText(d.site);
    DisplayIsUpper(d.site);
    PlainSite(d.site);
    LinkReads(d.searchUrl, text);
    UnescapePlain(text);
    SiteRead(LinkPart(d.searchUrl, text));
  }

  lemma PlainSite(site: SiteName)
    ensures '&' !in SiteText(site) && Inert(SiteText(site))
  {
    hide Upper;
    DisplayIsUpper(site);
  }

  function TitleParts(title: string): seq<string> {
    ["h2>" + Escape(title) + " 새 핫딜", "/h2>"]
  }

  lemma WovenTitle(title: string)
    ensures Woven(TitleParts(title)) == Title(title)
  {
    hide Escape;
    var parts := TitleParts(title);
    assert parts[..1] == [parts[0]] && [parts[0]][..0] == [];
    assert "<h2>" == "<" + "h2>" && "</h2>" == "<" + "/h2>";
    assert Woven([parts[0]]) == "<" + parts[0];
    assert Woven(parts) == "<" + ("h2>" + Escape(title) + " 새 핫딜") + "<" + "/h2>";
  }

  lemma {:induction false} UnescapeTail(s: string, tail: string)
    requires '&' !in tail
    ensures Unescape(Escape(s) + tail) == s + tail
  {
    hide Unescape, EscapeChar;
    if s == "" {
      UnescapePlain(tail);
      assert "" + tail == tail;
    } else {
      UnescapeTail(s[1..], tail);
      var rest := Escape(s[1..]) + tail;
      assert Escape(s) + tail == EscapeChar(s[0]) + rest;
      UnescapeChar(s[0], rest);
      assert s == [s[0]] + s[1..];
    }
  }

  lemma TitleReads(title: string)
    ensures Whole(TitleParts(title)) && Read(TitleParts(title)) == Some([Heading(HeadingText(title))])
  {
    hide Escape, Unescape, ReadLink;
    EscapeInert(title);
    UnescapeTail(title, " 새 핫딜");
    var parts := TitleParts(title);
    assert parts[0][3..] == Escape(title) + " 새 핫딜";
    assert "h2>" <= parts[0];
    assert parts[2..] == [];
    assert [Heading(HeadingText(title))] + [] == [Heading(HeadingText(title))];
  }

  // ---------- the page ----------

  /** The text is made of whole parts, and they read as these lines. */
  ghost predicate Says(text: string, lines: seq<Line>) {
    exists parts :: Whole(parts) && Woven(parts) == text && Read(parts) == Some(lines)
  }

  lemma SaysIsRead(text: string, lines: seq<Line>)
    requires Says(text, lines)
    ensures ReadPage(text) == Some(lines)
  {
    hide ReadPage, Read, Woven, Whole;
    var parts :| Whole(parts) && Woven(parts) == text && Read(parts) == Some(lines);
    ReadWoven(parts);
  }

  lemma SaysBoth(a: string, x: seq<Line>, b: string, y: seq<Line>)
    requires Says(a, x) && Says(b, y)
    ensures Says(a + b, x + y)
  {
    hide Read, Woven;
    var p :| Whole(p) && Woven(p) == a && Read(p) == Some(x);
    var q :| Whole(q) && Woven(q) == b && Read(q) == Some(y);
    WovenConcat(p, q);
    ReadConcat(p, q);
    assert Whole(p + q);
  }

  lemma SaysNothing()
    ensures Says("", [])
  {
    ReadNothing();
    assert Whole([]) && Woven([]) == "";
  }

  lemma ParagraphSays(d: Deal)
    ensures Says(Paragraph(d), [Entry(d)])
  {
    hide Read, Woven, Whole;
    ParagraphReads(d);
    WovenParagraph(d);
  }

  lemma HeadingSays(d: Deal)
    ensures Says(SiteHeading(d), [SiteLine(d.searchUrl, SiteText(d.site))])
  {
    hide Read, Woven, Whole;
    HeadingReads(d);
    WovenHeading(d);
  }

  lemma TitleSays(title: string)
    ensures Says(Title(title), [Heading(HeadingText(title))])
  {
    hide Read, Woven, Whole;
    TitleReads(title);
    WovenTitle(title);
  }

  /** The deals of one site, behind the line of the site. */
  lemma {:induction false} SectionSays(deals: seq<Deal>, site: SiteName)
    requires AllOf(deals, site) && deals != []
    ensures Says(Section(deals), Entries(deals))
  {
    hide Says, Paragraph, SiteHeading, SiteText;
    var n := |deals| - 1;
    var init, last := deals[..n], deals[n];
    ParagraphSays(last);
    if n == 0 {
      HeadingSays(last);
      SaysBoth(SiteHeading(last), [SiteLine(last.searchUrl, SiteText(site))], Paragraph(last), [Entry(last)]);
      assert Paragraphs(deals) == "" + Paragraph(last) == Paragraph(last);
      assert Entries(init) + [SiteLine(last.searchUrl, SiteText(site))] == [SiteLine(last.searchUrl, SiteText(site))];
    } else {
      SectionSays(init, site);
      SaysBoth(Section(init), Entries(init), Paragraph(last), [Entry(last)]);
      assert Section(deals) == Section(init) + Paragraph(last);
      assert Entries(init) + [] == Entries(init);
    }
  }

  lemma {:induction false} LastEntries(q: seq<Deal>, last: seq<Line>)
    requires q != []
    requires var n := |q| - 1;
      last == (if n == 0 || q[n - 1].site != q[n].site then [SiteEntry(q[n])] else []) + [Entry(q[n])]
    ensures Entries(q) == Entries(q[..|q| - 1]) + last
  {
    hide SiteEntry, Entry;
  }

  lemma NoEntries()
    ensures Entries([]) == []
  {
  }

  /** Deals of two sites, one behind the other, are listed one behind the other. */
  lemma {:induction false} EntriesConcat(a: seq<Deal>, b: seq<Deal>)
    requires a != [] && b != [] ==> a[|a| - 1].site != b[0].site
    ensures Entries(a + b) == Entries(a) + Entries(b)
  {
    hide SiteEntry, Entry, Entries;
    if b == [] {
      NoEntries();
      assert a + b == a && Entries(a) + [] == Entries(a);
    } else {
      var q, n := a + b, |b| - 1;
      EntriesConcat(a, b[..n]);
      assert q[..|q| - 1] == a + b[..n];
      assert q[|q| - 1] == b[n] && (|q| > 1 ==> q[|q| - 2] == if n > 0 then b[n - 1] else a[|a| - 1]);
      var last := (if n == 0 || b[n - 1].site != b[n].site then [SiteEntry(b[n])] else []) + [Entry(b[n])];
      LastEntries(b, last);
      LastEntries(q, last);
      assert Entries(a) + Entries(b[..n]) + last == Entries(a) + (Entries(b[..n]) + last);
    }
  }

  lemma {:induction false} SitesSay(deals: seq<Deal>, site: SiteName)
    ensures Says(Section(Filter(deals, site)), Entries(Filter(deals, site)))
  {
    hide Says;
    FilterAllOf(deals, site);
    SaysNothing();
    if Filter(deals, site) != [] { SectionSays(Filter(deals, site), site); }
  }

  /** The title, and then the deals, site by site. */
  function PageLines(title: string, deals: seq<Deal>): seq<Line> {
    [Heading(HeadingText(title))] + Entries(BySite(deals))
  }

  lemma PageSays(title: string, deals: seq<Deal>)
    requires deals != []
    ensures Says(EmailContent(title, deals), PageLines(title, deals))
  {
    hide Says, Section, Entries, Title, Filter;
    var a, f, r := Filter(deals, Algumon), Filter(deals, FmKorea), Filter(deals, Ruliweb);
    var t, head := Title(title), [Heading(HeadingText(title))];
    TitleSays(title);
    SitesSay(deals, Algumon);
    SitesSay(deals, FmKorea);
    SitesSay(deals, Ruliweb);
    SaysBoth(t, head, Section(a), Entries(a));
    SaysBoth(t + Section(a), head + Entries(a), Section(f), Entries(f));
    SaysBoth(t + Section(a) + Section(f), head + Entries(a) + Entries(f), Section(r), Entries(r));
    FilterAllOf(deals, Algumon);
    FilterAllOf(deals, FmKorea);
    FilterAllOf(deals, Ruliweb);
    EntriesConcat(a, f);
    if a + f != [] { assert (a + f)[|a + f| - 1] == if f != [] then f[|f| - 1] else a[|a| - 1]; }
    EntriesConcat(a + f, r);
    assert head + Entries(a) + Entries(f) + Entries(r) == head + (Entries(a) + Entries(f) + Entries(r));
  }

  // ---------- the order ----------

  /** The places of all deals, by the name of their site and, for one site, as they come. */
  ghost predicate InNameOrder(deals: seq<Deal>, order: seq<nat>) {
    && |order| == |deals|
    && (forall i :: 0 <= i < |order| ==> order[i] < |deals|)
    && (forall i, j :: 0 <= i < j < |order| ==> Precedes(deals, order[i], order[j]))
  }

  ghost predicate Precedes(deals: seq<Deal>, m: nat, n: nat) {
    m < |deals| && n < |deals| &&
    (StringLess(SiteValue(deals[m].site), SiteValue(deals[n].site)) || (deals[m].site == deals[n].site && m < n))
  }

  /** The deals at these places. */
  function Picked(deals: seq<Deal>, order: seq<nat>): seq<Deal>
    requires forall i :: 0 <= i < |order| ==> order[i] < |deals|
  {
    seq(|order|, i requires 0 <= i < |order| => deals[order[i]])
  }

  /** The places of one site's deals. */
  function Places(deals: seq<Deal>, site: SiteName): seq<nat> {
    if deals == [] then [] else
    var n := |deals| - 1;
    Places(deals[..n], site) + (if deals[n].site == site then [n] else [])
  }

  lemma {:induction false} PlacesPick(deals: seq<Deal>, site: SiteName)
    ensures var ps := Places(deals, site);
      && (forall i :: 0 <= i < |ps| ==> ps[i] < |deals| && deals[ps[i]].site == site)
      && (forall i, j :: 0 <= i < j < |ps| ==> ps[i] < ps[j])
      && Picked(deals, ps) == Filter(deals, site)
  {
    hide Filter;
    if deals == [] {
      FilterNone([], site);
    } else {
      var n := |deals| - 1;
      var init, last := deals[..n], [deals[n]];
      PlacesPick(init, site);
      assert deals == init + last;
      FilterConcat(init, last, site);
      if deals[n].site == site { FilterOfOneSite(last, site, site); } else { FilterNone(last, site); }
      var ps := Places(init, site);
      assert forall i :: 0 <= i < |ps| ==> deals[ps[i]] == init[ps[i]];
      assert Picked(deals, ps) == Picked(init, ps);
    }
  }

  /** Site by site is by name of the site and, for one site, as they come. */
  lemma BySiteIsInOrder(deals: seq<Deal>) returns (order: seq<nat>)
    ensures InNameOrder(deals, order) && Picked(deals, order) == BySite(deals)
  {
    hide Filter, Places, StringLess;
    var a, f, r := Places(deals, Algumon), Places(deals, FmKorea), Places(deals, Ruliweb);
    PlacesPick(deals, Algumon);
    PlacesPick(deals, FmKorea);
    PlacesPick(deals, Ruliweb);
    FilterLengths(deals);
    order := a + f + r;
    BeforeIsByName(Algumon, FmKorea);
    BeforeIsByName(Algumon, Ruliweb);
    BeforeIsByName(FmKorea, Ruliweb);
    assert |Picked(deals, a)| == |a| && |Picked(deals, f)| == |f| && |Picked(deals, r)| == |r|;
    assert Picked(deals, order) == Picked(deals, a) + Picked(deals, f) + Picked(deals, r);
  }

  /** Read back, a page says the title and then every deal once, with its own link, title and price, site by site in
      name order and in their own order, the sites headed by the search of their first deal: for all texts. */
  lemma PageReads(title: string, deals: seq<Deal>) returns (order: seq<nat>)
    requires deals != []
    ensures InNameOrder(deals, order)
    ensures ReadPage(EmailContent(title, deals)) ==
            Some([Heading(HeadingText(title))] + Entries(Picked(deals, order)))
  {
    hide EmailContent, ReadPage, Says;
    PageSays(title, deals);
    SaysIsRead(EmailContent(title, deals), PageLines(title, deals));
    order := BySiteIsInOrder(deals);
  }
}
