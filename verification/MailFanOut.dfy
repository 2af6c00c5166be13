/** From the results of a batch to the messages: every subscriber gets the new deals of their keywords. */
module MailFanOut {
  import opened Sequences
  import opened DealDetection
  import opened MailContent

  datatype Keyword = Keyword(id: int, title: string)

  datatype User = User(email: string, keywords: set<Keyword>)

  /** How one site visit of a keyword ended: with its new deals (none, when it ran out of time), or with an error. */
  datatype SiteResult = NewDealsOf(deals: seq<Deal>) | SiteError

  /** How the crawling of one keyword ended. */
  datatype KeywordResult = KeywordError | Nothing | Found(deals: seq<Deal>)

  datatype Message = Message(to: string, subject: string, body: string)

  /** The keywords with new deals, in the order of the batch. */
  type Findings = seq<(Keyword, seq<Deal>)>

  // ---------- collecting ----------

  /** A keyword that found something found at least one deal. */
  predicate Reportable(r: KeywordResult) {
    r.Found? ==> r.deals != []
  }

  /** The new deals of the sites that answered, site after site. */
  function Merged(results: seq<SiteResult>): seq<Deal> {
    if results == [] then [] else
    Merged(results[..|results| - 1]) + (if results[|results| - 1].SiteError? then [] else results[|results| - 1].deals)
  }

  /** The results of one keyword's visits, put together; a failed site costs only its own deals. */
  method HandleKeyword(results: seq<SiteResult>) returns (r: KeywordResult)
    ensures r == if Merged(results) == [] then Nothing else Found(Merged(results))
    ensures Reportable(r)
  {
    var allDeals: seq<Deal> := [];
    for i := 0 to |results|
      invariant allDeals == Merged(results[..i])
    {
      assert results[..i + 1][..i] == results[..i];
      if results[i].NewDealsOf? {
        allDeals := allDeals + results[i].deals;
      }
    }
    assert results[..|results|] == results;
    r := if allDeals != [] then Found(allDeals) else Nothing;
  }

  function FindingsOf(keywords: seq<Keyword>, results: seq<KeywordResult>): Findings
    requires |keywords| == |results|
  {
    if results == [] then [] else
    var n := |results| - 1;
    FindingsOf(keywords[..n], results[..n]) +
    (if results[n].Found? then [(keywords[n], results[n].deals)] else [])
  }

  function Volume(f: Findings): nat {
    if f == [] then 0 else Volume(f[..|f| - 1]) + |f[|f| - 1].1|
  }

  /** Every finding is a keyword's result, with that keyword, and no keyword has two. */
  lemma {:induction false} FindingsAreResults(keywords: seq<Keyword>, results: seq<KeywordResult>)
    requires |keywords| == |results| && Distinct(keywords)
    ensures forall k, d :: (k, d) in FindingsOf(keywords, results) <==>
              exists i :: 0 <= i < |keywords| && keywords[i] == k && results[i] == Found(d)
    ensures forall i, j :: 0 <= i < j < |FindingsOf(keywords, results)| ==>
              FindingsOf(keywords, results)[i].0 != FindingsOf(keywords, results)[j].0
  {
    if results != [] {
      var n := |results| - 1;
      FindingsAreResults(keywords[..n], results[..n]);
      var before, all := FindingsOf(keywords[..n], results[..n]), FindingsOf(keywords, results);
      forall k, d
        ensures (k, d) in all <==> exists i :: 0 <= i < |keywords| && keywords[i] == k && results[i] == Found(d)
      {
        if i :| 0 <= i < |keywords| && keywords[i] == k && results[i] == Found(d) {
          if i < n { assert keywords[..n][i] == k && results[..n][i] == Found(d); }
        }
        if (k, d) in before {
          var i :| 0 <= i < n && keywords[..n][i] == k && results[..n][i] == Found(d);
          assert keywords[i] == k && results[i] == Found(d);
        }
      }
      forall i | 0 <= i < |before| ensures before[i].0 != keywords[n] {
        assert before[i] in before;
        var j :| 0 <= j < n && keywords[..n][j] == before[i].0 && results[..n][j] == Found(before[i].1);
        assert keywords[j] == before[i].0;
      }
    }
  }

  method Collect(keywords: seq<Keyword>, results: seq<KeywordResult>)
    returns (found: Findings, itemsFound: nat, failed: nat)
    requires |keywords| == |results|
    ensures found == FindingsOf(keywords, results)
    ensures itemsFound == Volume(found)
    ensures failed == CountFailed(results)
  {
    found, itemsFound, failed := [], 0, 0;
    for i := 0 to |results|
      invariant found == FindingsOf(keywords[..i], results[..i])
      invariant itemsFound == Volume(found)
      invariant failed == CountFailed(results[..i])
    {
      FindingsSnoc(keywords[..i], keywords[i], results[..i], results[i]);
      assert results[..i + 1] == results[..i] + [results[i]] && keywords[..i + 1] == keywords[..i] + [keywords[i]];
      match results[i] {
        case KeywordError => failed := failed + 1;
        case Nothing =>
        case Found(deals) =>
          VolumeSnoc(found, (keywords[i], deals));
          itemsFound := itemsFound + |deals|;
          found := found + [(keywords[i], deals)];
      }
    }
    assert results[..|results|] == results && keywords[..|keywords|] == keywords;
  }

  function CountFailed(results: seq<KeywordResult>): nat {
    if results == [] then 0 else
    CountFailed(results[..|results| - 1]) + (if results[|results| - 1].KeywordError? then 1 else 0)
  }

  lemma {:induction false} FindingsSnoc(keywords: seq<Keyword>, k: Keyword, results: seq<KeywordResult>,
                                        r: KeywordResult)
    requires |keywords| == |results|
    ensures FindingsOf(keywords + [k], results + [r]) ==
            FindingsOf(keywords, results) + (if r.Found? then [(k, r.deals)] else [])
    ensures CountFailed(results + [r]) == CountFailed(results) + (if r.KeywordError? then 1 else 0)
  {
    assert (keywords + [k])[..|keywords|] == keywords && (results + [r])[..|results|] == results;
  }

  lemma {:induction false} VolumeSnoc(f: Findings, x: (Keyword, seq<Deal>))
    ensures Volume(f + [x]) == Volume(f) + |x.1|
  {
    assert (f + [x])[..|f|] == f;
  }

  // ---------- mailing ----------

  /** The pairs of a user's address and a keyword whose content could not be written. */
  type Breakages = set<(string, Keyword)>

  /** The findings that go into a user's message, in batch order. */
  function SectionsFor(u: User, found: Findings, broken: Breakages): Findings {
    if found == [] then [] else
    var (k, d) := found[|found| - 1];
    SectionsFor(u, found[..|found| - 1], broken) +
    (if k in u.keywords && (u.email, k) !in broken then [(k, d)] else [])
  }

  function Body(sections: Findings): string {
    if sections == [] then "" else
    Body(sections[..|sections| - 1]) + EmailContent(sections[|sections| - 1].0.title, sections[|sections| - 1].1)
  }

  function Titles(sections: Findings): string {
    if sections == [] then "" else Titles(sections[..|sections| - 1]) + sections[|sections| - 1].0.title + ", "
  }

  /** Python's rstrip(", "): drop commas and blanks from the end. */
  function StripTail(s: string): string {
    if s != "" && (s[|s| - 1] == ',' || s[|s| - 1] == ' ') then StripTail(s[..|s| - 1]) else s
  }

  function MessageOf(u: User, sections: Findings): Message {
    Message(u.email, "[" + StripTail(Titles(sections)) + "] 새로운 핫딜 알림", Body(sections))
  }

  /** The users who have something to read, in order. */
  function Recipients(users: seq<User>, found: Findings, broken: Breakages): seq<User> {
    if users == [] then [] else
    var u := users[|users| - 1];
    Recipients(users[..|users| - 1], found, broken) + (if SectionsFor(u, found, broken) == [] then [] else [u])
  }

  /** One message for each recipient. */
  function Messages(users: seq<User>, found: Findings, broken: Breakages): seq<Message> {
    var rs := Recipients(users, found, broken);
    seq(|rs|, i requires 0 <= i < |rs| => MessageOf(rs[i], SectionsFor(rs[i], found, broken)))
  }

  ghost predicate AllNonEmpty(found: Findings) {
    forall i :: 0 <= i < |found| ==> found[i].1 != []
  }

  /** A message holds exactly the findings of the user's keywords, apart from those that could not be written. */
  lemma {:induction false} SectionsAreExact(u: User, found: Findings, broken: Breakages)
    ensures forall f :: f in SectionsFor(u, found, broken) <==>
              f in found && f.0 in u.keywords && (u.email, f.0) !in broken
    ensures AllNonEmpty(found) ==> AllNonEmpty(SectionsFor(u, found, broken))
  {
    if found != [] {
      var init := found[..|found| - 1];
      SectionsAreExact(u, init, broken);
      assert found == init + [found[|found| - 1]];
    }
  }

  lemma ContentNotEmpty(title: string, deals: seq<Deal>)
    requires deals != []
    ensures EmailContent(title, deals) != ""
  {
    TitleAngles(title);
  }

  /** The body is empty only when there is no section, so testing the text is testing the sections. */
  lemma {:induction false} BodyEmptyIffNoSections(sections: Findings)
    requires AllNonEmpty(sections)
    ensures Body(sections) == "" <==> sections == []
  {
    if sections != [] {
      ContentNotEmpty(sections[|sections| - 1].0.title, sections[|sections| - 1].1);
    }
  }

  lemma {:induction false} SectionsSnoc(u: User, found: Findings, x: (Keyword, seq<Deal>), broken: Breakages)
    ensures SectionsFor(u, found + [x], broken) ==
            SectionsFor(u, found, broken) + (if x.0 in u.keywords && (u.email, x.0) !in broken then [x] else [])
  {
    assert (found + [x])[..|found|] == found;
  }

  lemma {:induction false} TextSnoc(sections: Findings, x: (Keyword, seq<Deal>), content: string)
    requires content == EmailContent(x.0.title, x.1)
    ensures Body(sections + [x]) == Body(sections) + content
    ensures Titles(sections + [x]) == Titles(sections) + x.0.title + ", "
  {
    assert (sections + [x])[..|sections|] == sections;
  }

  /** Write one more section at the end of a message. */
  method AppendSection(body: string, titles: string, x: (Keyword, seq<Deal>), ghost sections: Findings)
    returns (longerBody: string, longerTitles: string)
    requires body == Body(sections) && titles == Titles(sections)
    ensures longerBody == Body(sections + [x]) && longerTitles == Titles(sections + [x])
  {
    var content := MakeHotdealEmailContent(x.0.title, x.1);
    TextSnoc(sections, x, content);
    longerBody := body + content;
    longerTitles := titles + x.0.title + ", ";
  }

  /** The text of one user's message, section by section. */
  method Compose(u: User, found: Findings, broken: Breakages) returns (body: string, titles: string)
    ensures body == Body(SectionsFor(u, found, broken)) && titles == Titles(SectionsFor(u, found, broken))
  {
    body, titles := "", "";
    ghost var sections: Findings := [];
    for i := 0 to |found|
      invariant sections == SectionsFor(u, found[..i], broken)
      invariant body == Body(sections) && titles == Titles(sections)
    {
      var (keyword, deals) := found[i];
      SectionsSnoc(u, found[..i], found[i], broken);
      assert found[..i + 1] == found[..i] + [found[i]];
      if keyword in u.keywords && (u.email, keyword) !in broken {
        body, titles := AppendSection(body, titles, found[i], sections);
        sections := sections + [found[i]];
      }
    }
    assert found[..|found|] == found;
  }

  lemma {:induction false} MessagesSnoc(users: seq<User>, u: User, found: Findings, broken: Breakages)
    ensures var sections := SectionsFor(u, found, broken);
      Messages(users + [u], found, broken) ==
      Messages(users, found, broken) + if sections == [] then [] else [MessageOf(u, sections)]
  {
    assert (users + [u])[..|users|] == users;
  }

  lemma {:induction false} EmptyIffNothingToRead(u: User, found: Findings, broken: Breakages)
    requires AllNonEmpty(found)
    ensures Body(SectionsFor(u, found, broken)) == "" <==> SectionsFor(u, found, broken) == []
  {
    SectionsAreExact(u, found, broken);
    BodyEmptyIffNoSections(SectionsFor(u, found, broken));
  }

  /** One message for each user with something to read; outside production they are only counted as none sent. */
  method FanOut(users: seq<User>, found: Findings, broken: Breakages, production: bool)
    returns (messages: seq<Message>, emailsSent: nat)
    requires AllNonEmpty(found)
    ensures messages == if production then Messages(users, found, broken) else []
    ensures emailsSent == |messages|
  {
    hide StripTail;
    messages := [];
    for i := 0 to |users|
      invariant messages == if production then Messages(users[..i], found, broken) else []
    {
      assert users[..i + 1] == users[..i] + [users[i]];
      MessagesSnoc(users[..i], users[i], found, broken);
      var body, titles := Compose(users[i], found, broken);
      EmptyIffNothingToRead(users[i], found, broken);
      if body != "" && production {
        messages := messages + [Message(users[i].email, "[" + StripTail(titles) + "] 새로운 핫딜 알림", body)];
      }
    }
    assert users[..|users|] == users;
    emailsSent := |messages|;
  }

  ghost predicate DistinctEmails(users: seq<User>) {
    forall i, j :: 0 <= i < j < |users| ==> users[i].email != users[j].email
  }

  /** The recipients are the users of whose findings some could be written, and no address occurs twice. */
  lemma {:induction false} OneMessageEach(users: seq<User>, found: Findings, broken: Breakages)
    requires DistinctEmails(users)
    ensures forall u :: u in Recipients(users, found, broken) <==> u in users && SectionsFor(u, found, broken) != []
    ensures DistinctEmails(Recipients(users, found, broken))
  {
    if users != [] {
      var init, u := users[..|users| - 1], users[|users| - 1];
      OneMessageEach(init, found, broken);
      assert users == init + [u];
      var before := Recipients(init, found, broken);
      forall r | r in before ensures r.email != u.email {
        var j :| 0 <= j < |init| && init[j] == r;
        assert users[j].email != users[|init|].email;
      }
      DistinctEmailsSnoc(before, u);
    }
  }

  lemma DistinctEmailsSnoc(users: seq<User>, u: User)
    requires DistinctEmails(users) && forall r :: r in users ==> r.email != u.email
    ensures DistinctEmails(users + [u])
  {
    forall i, j | 0 <= i < j < |users| + 1 ensures (users + [u])[i].email != (users + [u])[j].email {
      assert (users + [u])[i] == users[i] && users[i] in users;
    }
  }

  /** The messages are addressed to the recipients, one each, so nobody gets two. */
  lemma {:induction false} AddressedToRecipients(users: seq<User>, found: Findings, broken: Breakages)
    requires DistinctEmails(users)
    ensures var ms, rs := Messages(users, found, broken), Recipients(users, found, broken);
      && |ms| == |rs|
      && (forall i :: 0 <= i < |ms| ==> ms[i].to == rs[i].email)
      && (forall i, j :: 0 <= i < j < |ms| ==> ms[i].to != ms[j].to)
  {
    OneMessageEach(users, found, broken);
  }

  // ---------- nothing lost, nothing added ----------

  /** All deals in all messages. */
  function Delivered(users: seq<User>, found: Findings, broken: Breakages): nat {
    if users == [] then 0 else
    Delivered(users[..|users| - 1], found, broken) + Volume(SectionsFor(users[|users| - 1], found, broken))
  }

  function Readers(users: seq<User>, k: Keyword, broken: Breakages): nat {
    if users == [] then 0 else
    var u := users[|users| - 1];
    Readers(users[..|users| - 1], k, broken) + (if k in u.keywords && (u.email, k) !in broken then 1 else 0)
  }

  /** Each keyword's new deals, once for each of its readers. */
  function Due(users: seq<User>, found: Findings, broken: Breakages): nat {
    if found == [] then 0 else
    var (k, d) := found[|found| - 1];
    Due(users, found[..|found| - 1], broken) + |d| * Readers(users, k, broken)
  }

  /** One more user adds, for each keyword they read, that keyword's deals once more. */
  lemma {:induction false} ReadersSnoc(users: seq<User>, u: User, k: Keyword, broken: Breakages, d: nat)
    ensures d * Readers(users + [u], k, broken) ==
            d * Readers(users, k, broken) + (if k in u.keywords && (u.email, k) !in broken then d else 0)
  {
    assert (users + [u])[..|users|] == users;
    OnceMore(d, Readers(users, k, broken));
  }

  lemma OnceMore(d: nat, r: nat)
    ensures d * (r + 1) == d * r + d
  {
  }

  lemma {:induction false} DueOneMore(users: seq<User>, u: User, found: Findings, broken: Breakages)
    ensures Due(users + [u], found, broken) == Due(users, found, broken) + Volume(SectionsFor(u, found, broken))
  {
    if found != [] {
      var init := found[..|found| - 1];
      var (k, d) := found[|found| - 1];
      DueOneMore(users, u, init, broken);
      ReadersSnoc(users, u, k, broken, |d|);
      SectionsSnoc(u, init, (k, d), broken);
      assert found == init + [(k, d)];
      VolumeSnoc(SectionsFor(u, init, broken), (k, d));
      assert SectionsFor(u, init, broken) + [] == SectionsFor(u, init, broken);
    }
  }

  lemma {:induction false} DueNobody(found: Findings, broken: Breakages)
    ensures Due([], found, broken) == 0
  {
    if found != [] { DueNobody(found[..|found| - 1], broken); }
  }

  /** Counted by message or by keyword, the deals mailed are the same: each new deal of a keyword reaches each of
      the keyword's readers once. */
  lemma {:induction false} DeliveredIsDue(users: seq<User>, found: Findings, broken: Breakages)
    ensures Delivered(users, found, broken) == Due(users, found, broken)
  {
    if users == [] {
      DueNobody(found, broken);
    } else {
      var init := users[..|users| - 1];
      DeliveredIsDue(init, found, broken);
      DueOneMore(init, users[|users| - 1], found, broken);
      assert init + [users[|users| - 1]] == users;
    }
  }

  // ---------- a whole batch ----------

  /** How the crawling of one keyword went: with a result for each site, or not at all. */
  datatype KeywordRun = Crawled(sites: seq<SiteResult>) | Crashed

  /** The new deals of one keyword. */
  function DealsOf(r: KeywordRun): seq<Deal> {
    if r.Crashed? then [] else Merged(r.sites)
  }

  function ItemsIn(runs: seq<KeywordRun>): nat {
    if runs == [] then 0 else ItemsIn(runs[..|runs| - 1]) + |DealsOf(runs[|runs| - 1])|
  }

  function Crashes(runs: seq<KeywordRun>): nat {
    if runs == [] then 0 else Crashes(runs[..|runs| - 1]) + (if runs[|runs| - 1].Crashed? then 1 else 0)
  }

  /** The keywords whose crawling failed, by their places in the batch. */
  lemma {:induction false} CrashesAreCounted(runs: seq<KeywordRun>)
    ensures Crashes(runs) == |set i | 0 <= i < |runs| && runs[i].Crashed?|
  {
    if runs != [] {
      var n := |runs| - 1;
      CrashesAreCounted(runs[..n]);
      var before := set i | 0 <= i < n && runs[..n][i].Crashed?;
      assert (set i | 0 <= i < |runs| && runs[i].Crashed?) == before + if runs[n].Crashed? then {n} else {};
    }
  }

  /** What a user is owed by a batch: the new deals of each of their keywords that has any, in batch order, unless
      they cannot be written. */
  function Owed(u: User, keywords: seq<Keyword>, runs: seq<KeywordRun>, broken: Breakages): Findings
    requires |keywords| == |runs|
  {
    if runs == [] then [] else
    var n := |runs| - 1;
    var k := keywords[n];
    Owed(u, keywords[..n], runs[..n], broken) +
    (if DealsOf(runs[n]) != [] && k in u.keywords && (u.email, k) !in broken then [(k, DealsOf(runs[n]))] else [])
  }

  function ResultOf(r: KeywordRun): KeywordResult {
    if r.Crashed? then KeywordError else if Merged(r.sites) == [] then Nothing else Found(Merged(r.sites))
  }

  function ResultsOf(runs: seq<KeywordRun>): seq<KeywordResult> {
    seq(|runs|, i requires 0 <= i < |runs| => ResultOf(runs[i]))
  }

  /** The last keyword adds a finding if it has new deals. */
  lemma {:induction false} FindingsGrow(keywords: seq<Keyword>, runs: seq<KeywordRun>)
    requires |keywords| == |runs| && runs != []
    ensures var n := |runs| - 1;
      && FindingsOf(keywords, ResultsOf(runs)) ==
         FindingsOf(keywords[..n], ResultsOf(runs[..n])) +
         (if DealsOf(runs[n]) != [] then [(keywords[n], DealsOf(runs[n]))] else [])
      && CountFailed(ResultsOf(runs)) ==
         CountFailed(ResultsOf(runs[..n])) + (if runs[n].Crashed? then 1 else 0)
  {
    hide Merged;
    assert ResultsOf(runs)[..|runs| - 1] == ResultsOf(runs[..|runs| - 1]);
  }

  /** The findings of a batch are counted as they should be. */
  lemma {:induction false} FindingsAreCounted(keywords: seq<Keyword>, runs: seq<KeywordRun>)
    requires |keywords| == |runs|
    ensures var found := FindingsOf(keywords, ResultsOf(runs));
      && AllNonEmpty(found) && Volume(found) == ItemsIn(runs)
      && CountFailed(ResultsOf(runs)) == Crashes(runs)
  {
    hide FindingsOf;
    if runs == [] {
      NothingFound(keywords, runs);
    } else {
      var n := |runs| - 1;
      FindingsAreCounted(keywords[..n], runs[..n]);
      FindingsGrow(keywords, runs);
      var before := FindingsOf(keywords[..n], ResultsOf(runs[..n]));
      VolumeSnoc(before, (keywords[n], DealsOf(runs[n])));
      assert before + [] == before;
    }
  }

  lemma {:induction false} NothingFound(keywords: seq<Keyword>, runs: seq<KeywordRun>)
    requires keywords == [] && runs == []
    ensures FindingsOf(keywords, ResultsOf(runs)) == [] && ResultsOf(runs) == []
  {
  }

  /** And they give every user what they are owed. */
  lemma {:induction false} FindingsAreOwed(u: User, keywords: seq<Keyword>, runs: seq<KeywordRun>, broken: Breakages)
    requires |keywords| == |runs|
    ensures SectionsFor(u, FindingsOf(keywords, ResultsOf(runs)), broken) == Owed(u, keywords, runs, broken)
  {
    hide FindingsOf;
    if runs == [] {
      NothingFound(keywords, runs);
    } else {
      var n := |runs| - 1;
      FindingsAreOwed(u, keywords[..n], runs[..n], broken);
      FindingsGrow(keywords, runs);
      var before := FindingsOf(keywords[..n], ResultsOf(runs[..n]));
      SectionsSnoc(u, before, (keywords[n], DealsOf(runs[n])), broken);
      assert before + [] == before;
    }
  }

  /** The messages are those of the users who are owed something, each with what they are owed. */
  lemma {:induction false} MessagesAreOwed(users: seq<User>, keywords: seq<Keyword>, runs: seq<KeywordRun>,
                                           broken: Breakages)
    requires |keywords| == |runs| && DistinctEmails(users)
    ensures var ms := Messages(users, FindingsOf(keywords, ResultsOf(runs)), broken);
      && (forall u :: u in users && Owed(u, keywords, runs, broken) != [] ==>
            MessageOf(u, Owed(u, keywords, runs, broken)) in ms)
      && (forall m :: m in ms ==> exists u :: u in users && Owed(u, keywords, runs, broken) != [] &&
                                              m == MessageOf(u, Owed(u, keywords, runs, broken)))
      && (forall i, j :: 0 <= i < j < |ms| ==> ms[i].to != ms[j].to)
  {
    hide FindingsOf, SectionsFor, Owed, MessageOf, Volume, CountFailed;
    var found := FindingsOf(keywords, ResultsOf(runs));
    forall u: User ensures SectionsFor(u, found, broken) == Owed(u, keywords, runs, broken) {
      FindingsAreOwed(u, keywords, runs, broken);
    }
    OneMessageEach(users, found, broken);
    AddressedToRecipients(users, found, broken);
    var ms, rs := Messages(users, found, broken), Recipients(users, found, broken);
    forall u | u in users && Owed(u, keywords, runs, broken) != []
      ensures MessageOf(u, Owed(u, keywords, runs, broken)) in ms
    {
      var i :| 0 <= i < |rs| && rs[i] == u;
      assert ms[i] == MessageOf(u, Owed(u, keywords, runs, broken));
    }
    forall m | m in ms
      ensures exists u :: u in users && Owed(u, keywords, runs, broken) != [] &&
                          m == MessageOf(u, Owed(u, keywords, runs, broken))
    {
      var i :| 0 <= i < |ms| && ms[i] == m;
      assert rs[i] in rs;
    }
  }

  /** From the crawled sites to the messages: in production everybody who is owed deals gets one message, with
      precisely those, and nobody gets another; the deals found are counted, and so are the keywords that failed. */
  method RunBatch(keywords: seq<Keyword>, runs: seq<KeywordRun>, users: seq<User>, broken: Breakages, production: bool)
    returns (messages: seq<Message>, itemsFound: nat, emailsSent: nat, failed: nat)
    requires |keywords| == |runs| && Distinct(keywords) && DistinctEmails(users)
    ensures itemsFound == ItemsIn(runs) && failed == Crashes(runs) && emailsSent == |messages|
    ensures !production ==> messages == []
    ensures production ==> forall u :: u in users && Owed(u, keywords, runs, broken) != [] ==>
              MessageOf(u, Owed(u, keywords, runs, broken)) in messages
    ensures forall m :: m in messages ==>
              exists u :: u in users && Owed(u, keywords, runs, broken) != [] &&
                          m == MessageOf(u, Owed(u, keywords, runs, broken))
    ensures forall i, j :: 0 <= i < j < |messages| ==> messages[i].to != messages[j].to
  {
    hide MessageOf;
    var results: seq<KeywordResult> := [];
    for i := 0 to |runs|
      invariant results == ResultsOf(runs[..i])
    {
      var r := KeywordError;
      if runs[i].Crawled? {
        r := HandleKeyword(runs[i].sites);
      }
      results := results + [r];
    }
    assert runs[..|runs|] == runs;
    FindingsAreCounted(keywords, runs);
    MessagesAreOwed(users, keywords, runs, broken);
    var found;
    found, itemsFound, failed := Collect(keywords, results);
    messages, emailsSent := FanOut(users, found, broken, production);
  }
}
