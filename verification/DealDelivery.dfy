/** From the pages of the sites to the mail of the users, over any number of batches. */
module DealDelivery {
  import opened Options
  import opened Sequences
  import opened DealDetection
  import opened MailContent
  import opened MailFanOut
  import opened MessageReading
  import DealFeed

  /** What a visit came to: the deals listed, or an error before anything was compared or stored. */
  datatype Visit = Page(deals: seq<Deal>) | Failed

  function Shown(v: Visit): seq<Deal> {
    if v.Failed? then [] else v.deals
  }

  /** One batch: its keywords, what the visit to each site came to for each of them, the users as loaded at its start,
      and the content that could not be written. */
  datatype Job = Job(keywords: seq<Keyword>, visits: seq<seq<Visit>>, users: seq<User>, broken: Breakages, now: int)

  predicate Fits(sites: seq<SiteName>, job: Job) {
    |job.visits| == |job.keywords| && forall n :: 0 <= n < |job.visits| ==> |job.visits[n]| == |sites|
  }

  /** Ids are keys, addresses are distinct, and a site lists deals of its own. */
  ghost predicate Sound(sites: seq<SiteName>, job: Job) {
    && Fits(sites, job) && DistinctEmails(job.users)
    && (forall m, n :: 0 <= m < n < |job.keywords| ==> job.keywords[m].id != job.keywords[n].id)
    && (forall n, j :: 0 <= n < |job.keywords| && 0 <= j < |sites| ==> AllOf(Shown(job.visits[n][j]), sites[j]))
  }

  /** The place of the keyword with an id, or the number of keywords. */
  function Index(keywords: seq<Keyword>, id: int): (n: nat)
    ensures n <= |keywords|
    ensures n < |keywords| ==> keywords[n].id == id
    ensures forall m :: 0 <= m < n ==> keywords[m].id != id
  {
    if keywords == [] || keywords[0].id == id then 0 else 1 + Index(keywords[1..], id)
  }

  /** What a batch was shown for one keyword on one site: nothing if it did not look or failed to. */
  function PageFor(sites: seq<SiteName>, job: Job, key: Key): seq<Deal>
    requires Fits(sites, job)
  {
    var n, j := Index(job.keywords, key.0), Position(sites, key.1);
    if n < |job.keywords| && j < |sites| then Shown(job.visits[n][j]) else []
  }

  function Outcome(row: Option<KeywordSite>, v: Visit): SiteResult {
    if v.Failed? then SiteError else NewDealsOf(NewDeals(row, v.deals))
  }

  type RowOf = Key -> Option<KeywordSite>

  function Rows(m: map<Key, KeywordSite>): RowOf {
    (key: Key) => Lookup(m, key)
  }

  function Outcomes(rowOf: RowOf, k: Keyword, sites: seq<SiteName>, visits: seq<Visit>): seq<SiteResult>
    requires |visits| == |sites|
  {
    seq(|sites|, j requires 0 <= j < |sites| => Outcome(rowOf((k.id, sites[j])), visits[j]))
  }

  function RunsOf(rowOf: RowOf, sites: seq<SiteName>, job: Job): (runs: seq<KeywordRun>)
    requires Fits(sites, job)
    ensures |runs| == |job.keywords|
  {
    seq(|job.keywords|, n requires 0 <= n < |job.keywords| =>
      Crawled(Outcomes(rowOf, job.keywords[n], sites, job.visits[n])))
  }

  predicate AllFit(sites: seq<SiteName>, jobs: seq<Job>) {
    forall i :: 0 <= i < |jobs| ==> Fits(sites, jobs[i])
  }

  /** The stored row after the first `i` batches. */
  function RowAt(sites: seq<SiteName>, jobs: seq<Job>, key: Key, i: nat): Option<KeywordSite>
    requires AllFit(sites, jobs) && i <= |jobs|
  {
    if i == 0 then None
    else RowAfter(RowAt(sites, jobs, key, i - 1), PageFor(sites, jobs[i - 1], key), jobs[i - 1].now)
  }

  function RowsAt(sites: seq<SiteName>, jobs: seq<Job>, i: nat): RowOf
    requires AllFit(sites, jobs) && i <= |jobs|
  {
    (key: Key) => RowAt(sites, jobs, key, i)
  }

  /** How the crawling of each keyword went in batch `i`. */
  function RunsAt(sites: seq<SiteName>, jobs: seq<Job>, i: nat): seq<KeywordRun>
    requires AllFit(sites, jobs) && i < |jobs|
  {
    RunsOf(RowsAt(sites, jobs, i), sites, jobs[i])
  }

  // ---------- the program ----------

  /** All sites for one keyword. */
  method CrawlKeyword(table: KeywordSiteTable, k: Keyword, sites: seq<SiteName>, visits: seq<Visit>, now: int)
    returns (results: seq<SiteResult>)
    requires |visits| == |sites| && Distinct(sites)
    modifies table
    ensures results == Outcomes(Rows(old(table.rows)), k, sites, visits)
    ensures forall key: Key :: Lookup(table.rows, key) ==
              if key.0 == k.id && Position(sites, key.1) < |sites|
              then RowAfter(Lookup(old(table.rows), key), Shown(visits[Position(sites, key.1)]), now)
              else Lookup(old(table.rows), key)
  {
    hide NewDeals, RowAfter;
    results := [];
    ghost var rows := table.rows;
    ghost var all := Outcomes(Rows(rows), k, sites, visits);
    for j := 0 to |sites|
      invariant results == all[..j]
      invariant forall key: Key :: Lookup(table.rows, key) ==
                  if key.0 == k.id && Position(sites, key.1) < j
                  then RowAfter(Lookup(rows, key), Shown(visits[Position(sites, key.1)]), now)
                  else Lookup(rows, key)
    {
      PositionOf(sites, j);
      assert all[j] == Outcome(Lookup(table.rows, (k.id, sites[j])), visits[j]);
      match visits[j] {
        case Page(deals) =>
          var newDeals := table.GetNewHotdealKeywordsForSite(k.id, sites[j], deals, now);
          results := results + [NewDealsOf(newDeals)];
        case Failed =>
          NothingShown(Lookup(rows, (k.id, sites[j])), now);
          results := results + [SiteError];
      }
    }
  }

  lemma {:induction false} PositionOf(sites: seq<SiteName>, j: nat)
    requires Distinct(sites) && j < |sites|
    ensures Position(sites, sites[j]) == j
  {
  }

  lemma NothingShown(row: Option<KeywordSite>, now: int)
    ensures RowAfter(row, [], now) == row && NewDeals(row, []) == []
  {
  }

  /** All keywords of one batch. */
  method CrawlAll(table: KeywordSiteTable, sites: seq<SiteName>, job: Job) returns (runs: seq<KeywordRun>)
    requires Distinct(sites) && Sound(sites, job)
    modifies table
    ensures runs == RunsOf(Rows(old(table.rows)), sites, job)
    ensures forall key: Key ::
              Lookup(table.rows, key) == RowAfter(Lookup(old(table.rows), key), PageFor(sites, job, key), job.now)
  {
    hide NewDeals, RowAfter;
    runs := [];
    ghost var rows := table.rows;
    ghost var all := RunsOf(Rows(rows), sites, job);
    for n := 0 to |job.keywords|
      invariant runs == all[..n]
      invariant forall key: Key :: Lookup(table.rows, key) ==
                  if Index(job.keywords, key.0) < n then RowAfter(Lookup(rows, key), PageFor(sites, job, key), job.now)
                  else Lookup(rows, key)
    {
      var k := job.keywords[n];
      IndexOfKeyword(job.keywords, n);
      ghost var before := table.rows;
      var results := CrawlKeyword(table, k, sites, job.visits[n], job.now);
      assert Outcomes(Rows(before), k, sites, job.visits[n]) == Outcomes(Rows(rows), k, sites, job.visits[n]);
      runs := runs + [Crawled(results)];
      forall key: Key
        ensures Lookup(table.rows, key) ==
                if Index(job.keywords, key.0) < n + 1
                then RowAfter(Lookup(rows, key), PageFor(sites, job, key), job.now)
                else Lookup(rows, key)
      {
        NothingShown(Lookup(rows, key), job.now);
      }
    }
    forall key: Key
      ensures Lookup(table.rows, key) == RowAfter(Lookup(rows, key), PageFor(sites, job, key), job.now)
    {
      NothingShown(Lookup(rows, key), job.now);
    }
  }

  lemma {:induction false} IndexOfKeyword(keywords: seq<Keyword>, n: nat)
    requires n < |keywords| && forall i, j :: 0 <= i < j < |keywords| ==> keywords[i].id != keywords[j].id
    ensures forall id :: Index(keywords, id) == n <==> id == keywords[n].id
  {
  }

  /** Every user who is owed deals by a batch gets one message with precisely those, and nobody gets another. */
  ghost predicate MailIs(job: Job, runs: seq<KeywordRun>, messages: seq<Message>)
    requires |job.keywords| == |runs|
  {
    && (forall u :: u in job.users && Owed(u, job.keywords, runs, job.broken) != [] ==>
          MessageOf(u, Owed(u, job.keywords, runs, job.broken)) in messages)
    && (forall m :: m in messages ==>
          exists u :: u in job.users && Owed(u, job.keywords, runs, job.broken) != [] &&
                      m == MessageOf(u, Owed(u, job.keywords, runs, job.broken)))
    && (forall i, j :: 0 <= i < j < |messages| ==> messages[i].to != messages[j].to)
  }

  /** A message to the user that tells what they are owed. */
  ghost predicate TellsOwed(m: Message, u: User, owed: Findings) {
    owed != [] && m.to == u.email && Tells(m.body, owed)
  }

  ghost predicate TellsAUser(job: Job, runs: seq<KeywordRun>, m: Message)
    requires |job.keywords| == |runs|
  {
    exists u :: u in job.users && TellsOwed(m, u, Owed(u, job.keywords, runs, job.broken))
  }

  ghost predicate Addressed(messages: seq<Message>, to: string) {
    exists i :: 0 <= i < |messages| && messages[i].to == to
  }

  /** The same by what the messages say: whoever is owed deals is sent a message, and each message, read back, tells
      precisely what the user it is addressed to is owed. */
  ghost predicate MailTells(job: Job, runs: seq<KeywordRun>, messages: seq<Message>)
    requires |job.keywords| == |runs|
  {
    && (forall u :: u in job.users && Owed(u, job.keywords, runs, job.broken) != [] ==> Addressed(messages, u.email))
    && (forall i :: 0 <= i < |messages| ==> TellsAUser(job, runs, messages[i]))
    && (forall i, j :: 0 <= i < j < |messages| ==> messages[i].to != messages[j].to)
  }

  /** What is owed are new deals of the batch's keywords. */
  lemma {:induction false} OwedIsFound(u: User, keywords: seq<Keyword>, runs: seq<KeywordRun>, broken: Breakages)
    requires |keywords| == |runs|
    ensures var owed := Owed(u, keywords, runs, broken);
      AllNonEmpty(owed) && forall i :: 0 <= i < |owed| ==> owed[i].0 in keywords
  {
    hide DealsOf;
    if runs != [] {
      var n := |runs| - 1;
      OwedIsFound(u, keywords[..n], runs[..n], broken);
      assert forall k :: k in keywords[..n] ==> k in keywords;
    }
  }

  lemma MessageTells(job: Job, runs: seq<KeywordRun>, messages: seq<Message>, i: nat) returns (u: User)
    requires |job.keywords| == |runs| && MailIs(job, runs, messages) && i < |messages|
    ensures u in job.users && TellsOwed(messages[i], u, Owed(u, job.keywords, runs, job.broken))
  {
    hide Owed, Tells, Body, Titles;
    assert messages[i] in messages;
    u :| u in job.users && Owed(u, job.keywords, runs, job.broken) != [] &&
         messages[i] == MessageOf(u, Owed(u, job.keywords, runs, job.broken));
    OwedIsFound(u, job.keywords, runs, job.broken);
    MessageReads(u, Owed(u, job.keywords, runs, job.broken));
  }

  lemma MailTellsWhatIsOwed(job: Job, runs: seq<KeywordRun>, messages: seq<Message>)
    requires |job.keywords| == |runs| && MailIs(job, runs, messages)
    ensures MailTells(job, runs, messages)
  {
    hide Owed, TellsOwed, Body, Titles;
    forall u | u in job.users && Owed(u, job.keywords, runs, job.broken) != []
      ensures Addressed(messages, u.email)
    {
      var i :| 0 <= i < |messages| && messages[i] == MessageOf(u, Owed(u, job.keywords, runs, job.broken));
    }
    forall i | 0 <= i < |messages| ensures TellsAUser(job, runs, messages[i]) {
      var u := MessageTells(job, runs, messages, i);
    }
  }

  lemma SameRuns(a: RowOf, b: RowOf, sites: seq<SiteName>, job: Job)
    requires Fits(sites, job) && forall key: Key :: a(key) == b(key)
    ensures RunsOf(a, sites, job) == RunsOf(b, sites, job)
  {
    forall n | 0 <= n < |job.keywords|
      ensures Outcomes(a, job.keywords[n], sites, job.visits[n]) == Outcomes(b, job.keywords[n], sites, job.visits[n])
    {
    }
  }

  lemma KeywordsDiffer(sites: seq<SiteName>, job: Job)
    requires Sound(sites, job)
    ensures Distinct(job.keywords)
  {
  }

  /** Batch after batch in production, from an empty table: crawl everything, then mail. */
  method RunJobs(table: KeywordSiteTable, sites: seq<SiteName>, jobs: seq<Job>) returns (mail: seq<seq<Message>>)
    requires table.rows == map[] && Distinct(sites) && AllFit(sites, jobs)
    requires forall i :: 0 <= i < |jobs| ==> Sound(sites, jobs[i])
    modifies table
    ensures |mail| == |jobs|
    ensures forall i :: 0 <= i < |jobs| ==> MailIs(jobs[i], RunsAt(sites, jobs, i), mail[i])
    ensures forall i :: 0 <= i < |jobs| ==> MailTells(jobs[i], RunsAt(sites, jobs, i), mail[i])
    ensures forall key: Key :: Lookup(table.rows, key) == RowAt(sites, jobs, key, |jobs|)
  {
    hide MailIs, MailTells, RowAfter, PageFor, RunsOf, Sound, Distinct;
    mail := [];
    for i := 0 to |jobs|
      invariant |mail| == i
      invariant forall j :: 0 <= j < i ==>
                  MailIs(jobs[j], RunsAt(sites, jobs, j), mail[j]) &&
                  MailTells(jobs[j], RunsAt(sites, jobs, j), mail[j])
      invariant forall key: Key :: Lookup(table.rows, key) == RowAt(sites, jobs, key, i)
    {
      SameRuns(Rows(table.rows), RowsAt(sites, jobs, i), sites, jobs[i]);
      var messages := RunJob(table, sites, jobs[i]);
      MailTellsWhatIsOwed(jobs[i], RunsAt(sites, jobs, i), messages);
      mail := mail + [messages];
    }
  }

  /** One batch. */
  method RunJob(table: KeywordSiteTable, sites: seq<SiteName>, job: Job) returns (messages: seq<Message>)
    requires Distinct(sites) && Sound(sites, job)
    modifies table
    ensures MailIs(job, RunsOf(Rows(old(table.rows)), sites, job), messages)
    ensures forall key: Key ::
              Lookup(table.rows, key) == RowAfter(Lookup(old(table.rows), key), PageFor(sites, job, key), job.now)
  {
    KeywordsDiffer(sites, job);
    var runs := CrawlAll(table, sites, job);
    var items, sent, failed;
    messages, items, sent, failed := RunBatch(job.keywords, runs, job.users, job.broken, true);
  }

  // ---------- what one user is mailed of one keyword on one site ----------

  /** What the crawling of a keyword found. */
  function DealsFor(keywords: seq<Keyword>, runs: seq<KeywordRun>, k: Keyword): seq<Deal>
    requires |keywords| == |runs|
  {
    if runs == [] then [] else
    var l := |runs| - 1;
    DealsFor(keywords[..l], runs[..l], k) + (if keywords[l] == k then DealsOf(runs[l]) else [])
  }

  /** A reader of a keyword that can be written is owed what its crawling found. */
  lemma {:induction false} SectionOwed(u: User, keywords: seq<Keyword>, runs: seq<KeywordRun>, broken: Breakages,
                                       k: Keyword)
    requires |keywords| == |runs| && k in u.keywords && (u.email, k) !in broken
    ensures SectionOf(Owed(u, keywords, runs, broken), k) == DealsFor(keywords, runs, k)
  {
    hide SectionOf, DealsOf;
    if runs == [] {
      NoSection(k);
    } else {
      var l := |runs| - 1;
      SectionOwed(u, keywords[..l], runs[..l], broken, k);
      var before := Owed(u, keywords[..l], runs[..l], broken);
      SectionSnoc(before, (keywords[l], DealsOf(runs[l])), k);
      assert before + [] == before;
    }
  }

  /** A keyword that occurs once found what its one crawling found, and one that does not occur found nothing. */
  lemma {:induction false} FoundOnce(keywords: seq<Keyword>, runs: seq<KeywordRun>, k: Keyword, n: nat)
    requires |keywords| == |runs| && n <= |keywords| && (n < |keywords| ==> keywords[n] == k)
    requires forall m :: 0 <= m < |keywords| && m != n ==> keywords[m] != k
    ensures DealsFor(keywords, runs, k) == if n < |keywords| then DealsOf(runs[n]) else []
  {
    hide DealsOf;
    if runs != [] {
      var l := |runs| - 1;
      FoundOnce(keywords[..l], runs[..l], k, if n < l then n else l);
    }
  }

  lemma {:induction false} NothingMerged(s: SiteName)
    ensures Filter(Merged([]), s) == []
  {
  }

  lemma NewIsPrefix(row: Option<KeywordSite>, page: seq<Deal>)
    ensures NewDeals(row, page) <= page
  {
  }

  /** Of all that a keyword's sites report, what comes from one site is what the visit to it found new. */
  lemma {:induction false} MergedFromSite(rowOf: RowOf, k: Keyword, sites: seq<SiteName>, visits: seq<Visit>,
                                          s: SiteName, m: nat)
    requires |visits| == |sites| && Distinct(sites) && m <= |sites|
    requires forall j :: 0 <= j < |sites| ==> AllOf(Shown(visits[j]), sites[j])
    ensures Filter(Merged(Outcomes(rowOf, k, sites, visits)[..m]), s) ==
            if Position(sites, s) < m then NewDeals(rowOf((k.id, s)), Shown(visits[Position(sites, s)])) else []
  {
    hide NewDeals, Filter, Merged, Outcome, Position;
    if m == 0 {
      NothingMerged(s);
    } else {
      var all := Outcomes(rowOf, k, sites, visits);
      MergedFromSite(rowOf, k, sites, visits, s, m - 1);
      var row := rowOf((k.id, sites[m - 1]));
      var latest := NewDeals(row, Shown(visits[m - 1]));
      assert all[..m] == all[..m - 1] + [Outcome(row, visits[m - 1])];
      MergedSnoc(all[..m - 1], row, visits[m - 1]);
      NewIsPrefix(row, Shown(visits[m - 1]));
      FilterConcat(Merged(all[..m - 1]), latest, s);
      FilterOfOneSite(latest, sites[m - 1], s);
      PositionOf(sites, m - 1);
    }
  }

  lemma {:induction false} MergedSnoc(results: seq<SiteResult>, row: Option<KeywordSite>, v: Visit)
    ensures Merged(results + [Outcome(row, v)]) == Merged(results) + NewDeals(row, Shown(v))
  {
    assert (results + [Outcome(row, v)])[..|results|] == results;
    NothingShown(row, 0);
  }

  /** The deals of site `s` that batch `i` mails to `u` under the keyword `k`. */
  function MailedIn(u: User, k: Keyword, s: SiteName, sites: seq<SiteName>, jobs: seq<Job>, i: nat): seq<Deal>
    requires AllFit(sites, jobs) && i < |jobs|
  {
    Filter(SectionOf(Owed(u, jobs[i].keywords, RunsAt(sites, jobs, i), jobs[i].broken), k), s)
  }

  /** All of them, over the first `i` batches; `us` is the user as loaded by each. */
  function Mailed(us: seq<User>, k: Keyword, s: SiteName, sites: seq<SiteName>, jobs: seq<Job>, i: nat): seq<Deal>
    requires AllFit(sites, jobs) && |us| == |jobs| && i <= |jobs|
  {
    if i == 0 then [] else Mailed(us, k, s, sites, jobs, i - 1) + MailedIn(us[i - 1], k, s, sites, jobs, i - 1)
  }

  /** In each batch the user reads the keyword, which is known by its id, and its content can be written. */
  ghost predicate ReadsAlways(us: seq<User>, k: Keyword, jobs: seq<Job>) {
    && |us| == |jobs|
    && (forall i :: 0 <= i < |jobs| ==>
          us[i] in jobs[i].users && k in us[i].keywords && (us[i].email, k) !in jobs[i].broken)
    && (forall i, n :: 0 <= i < |jobs| && 0 <= n < |jobs[i].keywords| && jobs[i].keywords[n].id == k.id ==>
          jobs[i].keywords[n] == k)
  }

  /** A batch mails to a reader of a keyword exactly what its visit to the site found new. */
  lemma {:induction false} MailedIsNew(us: seq<User>, k: Keyword, s: SiteName, sites: seq<SiteName>, jobs: seq<Job>,
                                       i: nat)
    requires AllFit(sites, jobs) && i < |jobs| && Distinct(sites) && Sound(sites, jobs[i]) && ReadsAlways(us, k, jobs)
    ensures MailedIn(us[i], k, s, sites, jobs, i) ==
            NewDeals(RowAt(sites, jobs, (k.id, s), i), PageFor(sites, jobs[i], (k.id, s)))
  {
    hide NewDeals, RowAt, Owed, Merged;
    var job, runs := jobs[i], RunsAt(sites, jobs, i);
    var n := Index(job.keywords, k.id);
    SectionOwed(us[i], job.keywords, runs, job.broken, k);
    FoundOnce(job.keywords, runs, k, n);
    NothingShown(RowAt(sites, jobs, (k.id, s), i), 0);
    if n < |job.keywords| {
      assert job.keywords[n] == k;
      var outcomes := Outcomes(RowsAt(sites, jobs, i), k, sites, job.visits[n]);
      MergedFromSite(RowsAt(sites, jobs, i), k, sites, job.visits[n], s, |sites|);
      assert outcomes[..|sites|] == outcomes;
      assert runs[n] == Crawled(outcomes);
    }
  }

  /** Over all batches a reader is mailed what the visits to the site have returned. */
  lemma {:induction false} MailedIsDelivered(us: seq<User>, k: Keyword, s: SiteName, sites: seq<SiteName>,
                                             jobs: seq<Job>, history: seq<Deal>, views: seq<DealFeed.View>,
                                             times: seq<int>, i: nat)
    requires AllFit(sites, jobs) && i <= |jobs| && Distinct(sites) && ReadsAlways(us, k, jobs)
    requires forall j :: 0 <= j < |jobs| ==> Sound(sites, jobs[j])
    requires |views| == |jobs| == |times| && DealFeed.AllWithin(history, views)
    requires forall j :: 0 <= j < |jobs| ==>
               times[j] == jobs[j].now && PageFor(sites, jobs[j], (k.id, s)) == DealFeed.PageOf(history, views[j])
    ensures RowAt(sites, jobs, (k.id, s), i) == DealFeed.StoredTrack(history, views, times, i).row
    ensures Mailed(us, k, s, sites, jobs, i) == DealFeed.StoredTrack(history, views, times, i).delivered
  {
    hide NewDeals, RowAfter, Sound, PageFor, MailedIn, DealFeed.PageOf, ReadsAlways;
    if i > 0 {
      MailedIsDelivered(us, k, s, sites, jobs, history, views, times, i - 1);
      MailedIsNew(us, k, s, sites, jobs, i - 1);
    }
  }

  /** End to end: over any number of batches in which a user reads a keyword and nothing of it breaks, the deals of a
      site mailed to the user under that keyword are free of repeats and precisely those owed, if and only if every
      page was anchored, pages that pass over news apart. */
  lemma {:induction false} MailedExactlyOnce(us: seq<User>, k: Keyword, s: SiteName, sites: seq<SiteName>,
                                             jobs: seq<Job>, history: seq<Deal>, views: seq<DealFeed.View>)
    requires AllFit(sites, jobs) && Distinct(sites) && ReadsAlways(us, k, jobs)
    requires forall j :: 0 <= j < |jobs| ==> Sound(sites, jobs[j])
    requires |views| == |jobs| && DealFeed.AllWithin(history, views)
    requires forall j :: 0 <= j < |jobs| ==>
               PageFor(sites, jobs[j], (k.id, s)) == DealFeed.PageOf(history, views[j])
    requires DealFeed.Catalogue(history) && DealFeed.Feed(views) && DealFeed.NoGaps(views)
    ensures var mailed := Mailed(us, k, s, sites, jobs, |jobs|);
      (forall j :: 0 <= j < |views| ==> DealFeed.AnchoredAt(views, j)) <==>
      && Distinct(Ids(mailed))
      && (forall x: nat :: x < |history| ==>
            (history[x].id in Ids(mailed) <==> DealFeed.Owed(DealFeed.Track(views, |views|), x)))
  {
    hide PageFor, Mailed, DealFeed.Feed, DealFeed.NoGaps, DealFeed.Catalogue, DealFeed.AnchoredAt, DealFeed.Owed;
    var times := seq(|jobs|, i requires 0 <= i < |jobs| => jobs[i].now);
    MailedIsDelivered(us, k, s, sites, jobs, history, views, times, |jobs|);
    DealFeed.ExactlyOnceDelivered(history, views, times);
  }

  /** And while pages stay anchored the user misses nothing, if and only if no page passed over any news: every deal
      that was up at a visit that showed anything, and is no older than the first one mailed, is mailed. */
  lemma {:induction false} MailedNothingLostIff(us: seq<User>, k: Keyword, s: SiteName, sites: seq<SiteName>,
                                                jobs: seq<Job>, history: seq<Deal>, views: seq<DealFeed.View>)
    requires AllFit(sites, jobs) && Distinct(sites) && ReadsAlways(us, k, jobs)
    requires forall j :: 0 <= j < |jobs| ==> Sound(sites, jobs[j])
    requires |views| == |jobs| && DealFeed.AllWithin(history, views)
    requires forall j :: 0 <= j < |jobs| ==>
               PageFor(sites, jobs[j], (k.id, s)) == DealFeed.PageOf(history, views[j])
    requires DealFeed.Catalogue(history) && DealFeed.Feed(views)
    requires forall j, x: nat :: 0 <= j < |views| && x in views[j].live ==> x < |history|
    requires forall j :: 0 <= j < |views| ==> DealFeed.AnchoredAt(views, j)
    ensures DealFeed.NoGaps(views) <==>
            forall j, x: nat :: 0 <= j < |views| && DealFeed.Promised(views, j, x) ==>
              x < |history| && history[x].id in Ids(Mailed(us, k, s, sites, jobs, |jobs|))
  {
    hide PageFor, Mailed, DealFeed.Feed, DealFeed.NoGaps, DealFeed.Catalogue, DealFeed.AnchoredAt, DealFeed.Track,
         DealFeed.StoredTrack, DealFeed.Listed;
    var times := seq(|jobs|, i requires 0 <= i < |jobs| => jobs[i].now);
    MailedIsDelivered(us, k, s, sites, jobs, history, views, times, |jobs|);
    DealFeed.NothingLostIff(views);
    forall x: nat | x < |history|
      ensures history[x].id in Ids(Mailed(us, k, s, sites, jobs, |jobs|)) <==>
              x in DealFeed.Track(views, |views|).reported
    {
      DealFeed.DeliveredIsReported(history, views, times, x);
    }
  }
}
