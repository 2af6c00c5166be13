/** What a reader finds in the mail, from the pages of the sites to the text of the messages. */
module DealReading {
  import opened Sequences
  import opened DealDetection
  import opened MailContent
  import opened MailFanOut
  import opened MailReading
  import opened MessageReading
  import opened DealDelivery
  import DealFeed

  /** What stands under a heading and there under a site in the messages to an address. */
  function ReadIn(messages: seq<Message>, to: string, heading: string, site: string): seq<Line> {
    if messages == [] then [] else
    var n := |messages| - 1;
    ReadIn(messages[..n], to, heading, site) +
    (if messages[n].to == to && ReadPage(messages[n].body).Some?
     then Listed(ReadPage(messages[n].body).value, heading, site) else [])
  }

  lemma {:induction false} ReadInNone(messages: seq<Message>, to: string, heading: string, site: string)
    requires forall m :: m in messages ==> m.to != to
    ensures ReadIn(messages, to, heading, site) == []
  {
    if messages != [] { ReadInNone(messages[..|messages| - 1], to, heading, site); }
  }

  /** One message to an address is all there is to read there. */
  lemma {:induction false} ReadInOne(messages: seq<Message>, n: nat, heading: string, site: string)
    requires n < |messages| && ReadPage(messages[n].body).Some?
    requires forall i, j :: 0 <= i < j < |messages| ==> messages[i].to != messages[j].to
    ensures ReadIn(messages, messages[n].to, heading, site) ==
            Listed(ReadPage(messages[n].body).value, heading, site)
  {
    hide ReadPage, Listed;
    var l, to := |messages| - 1, messages[n].to;
    if n < l {
      ReadInOne(messages[..l], n, heading, site);
    } else {
      ReadInNone(messages[..l], to, heading, site);
    }
  }

  /** No other keyword of the batch has the same title. */
  ghost predicate OwnTitle(k: Keyword, job: Job) {
    forall n :: 0 <= n < |job.keywords| && job.keywords[n].title == k.title ==> job.keywords[n] == k
  }

  /** In the mail of a batch a user finds, under a keyword and a site, the deals of that site owed for the keyword. */
  lemma {:induction false} ReadIsOwed(u: User, k: Keyword, s: SiteName, job: Job, runs: seq<KeywordRun>,
                                      messages: seq<Message>)
    requires |job.keywords| == |runs| && MailIs(job, runs, messages)
    requires u in job.users && DistinctEmails(job.users) && OwnTitle(k, job)
    ensures ReadIn(messages, u.email, HeadingText(k.title), SiteText(s)) ==
            EntriesOf(Filter(SectionOf(Owed(u, job.keywords, runs, job.broken), k), s))
  {
    hide Owed, Body, Titles, ReadPage, Listed, MessageLines, SectionOf, Filter, SiteText, HeadingText, Tells, ReadIn;
    var owed := Owed(u, job.keywords, runs, job.broken);
    OwedIsFound(u, job.keywords, runs, job.broken);
    if owed == [] {
      NoSection(k);
      FilterNone([], s);
      forall m | m in messages ensures m.to != u.email {
        var v :| v in job.users && Owed(v, job.keywords, runs, job.broken) != [] &&
                 m == MessageOf(v, Owed(v, job.keywords, runs, job.broken));
        SameAddress(job.users, u, v);
      }
      ReadInNone(messages, u.email, HeadingText(k.title), SiteText(s));
    } else {
      MessageReads(u, owed);
      ListedIsSection(owed, k, s);
      var n :| 0 <= n < |messages| && messages[n] == MessageOf(u, owed);
      ReadInOne(messages, n, HeadingText(k.title), SiteText(s));
    }
  }

  lemma SameAddress(users: seq<User>, u: User, v: User)
    requires DistinctEmails(users) && u in users && v in users
    ensures u.email == v.email <==> u == v
  {
  }

  /** The same over the first `i` batches. */
  function ReadOver(mail: seq<seq<Message>>, us: seq<User>, k: Keyword, s: SiteName, i: nat): seq<Line>
    requires |us| == |mail| && i <= |mail|
  {
    if i == 0 then [] else
    ReadOver(mail, us, k, s, i - 1) + ReadIn(mail[i - 1], us[i - 1].email, HeadingText(k.title), SiteText(s))
  }

  /** Over all batches, what a reader finds under a keyword and a site are the entries of the deals mailed. */
  lemma {:induction false} ReadIsMailed(mail: seq<seq<Message>>, us: seq<User>, k: Keyword, s: SiteName,
                                        sites: seq<SiteName>, jobs: seq<Job>, i: nat)
    requires AllFit(sites, jobs) && |us| == |jobs| == |mail| && i <= |jobs|
    requires forall j :: 0 <= j < |jobs| ==>
               us[j] in jobs[j].users && DistinctEmails(jobs[j].users) && OwnTitle(k, jobs[j]) &&
               MailIs(jobs[j], RunsAt(sites, jobs, j), mail[j])
    ensures ReadOver(mail, us, k, s, i) == EntriesOf(Mailed(us, k, s, sites, jobs, i))
  {
    hide MailIs, OwnTitle, ReadIn, HeadingText, SiteText, Owed, Filter, SectionOf, Entry;
    if i > 0 {
      ReadIsMailed(mail, us, k, s, sites, jobs, i - 1);
      ReadIsOwed(us[i - 1], k, s, jobs[i - 1], RunsAt(sites, jobs, i - 1), mail[i - 1]);
    }
  }

  /** No two deals of a feed look the same in a message. */
  ghost predicate TellsApart(history: seq<Deal>) {
    forall x, y :: 0 <= x < y < |history| ==> Entry(history[x]) != Entry(history[y])
  }

  ghost predicate AllFrom(deals: seq<Deal>, history: seq<Deal>) {
    forall i :: 0 <= i < |deals| ==> deals[i] in history
  }

  lemma {:induction false} MailedIsListed(us: seq<User>, k: Keyword, s: SiteName, sites: seq<SiteName>,
                                          jobs: seq<Job>, history: seq<Deal>, views: seq<DealFeed.View>, i: nat)
    requires AllFit(sites, jobs) && i <= |jobs| && Distinct(sites) && ReadsAlways(us, k, jobs)
    requires forall j :: 0 <= j < |jobs| ==> Sound(sites, jobs[j])
    requires |views| == |jobs| && DealFeed.AllWithin(history, views)
    requires forall j :: 0 <= j < |jobs| ==> PageFor(sites, jobs[j], (k.id, s)) == DealFeed.PageOf(history, views[j])
    ensures AllFrom(Mailed(us, k, s, sites, jobs, i), history)
  {
    hide PageFor, MailedIn, RowAt, NewDeals, Sound, ReadsAlways, DealFeed.Listed;
    if i > 0 {
      MailedIsListed(us, k, s, sites, jobs, history, views, i - 1);
      MailedIsNew(us, k, s, sites, jobs, i - 1);
      var row, page := RowAt(sites, jobs, (k.id, s), i - 1), PageFor(sites, jobs[i - 1], (k.id, s));
      NewIsPrefix(row, page);
      assert AllFrom(page, history);
    }
  }

  /** Where deals look different, their entries are as distinct as their ids, and tell which they are. */
  lemma EntriesTellIds(deals: seq<Deal>, history: seq<Deal>)
    requires AllFrom(deals, history) && DealFeed.Catalogue(history) && TellsApart(history)
    ensures Distinct(EntriesOf(deals)) <==> Distinct(Ids(deals))
    ensures forall x :: 0 <= x < |history| ==> (Entry(history[x]) in EntriesOf(deals) <==> history[x].id in Ids(deals))
  {
    hide Entry;
    forall i, x | 0 <= i < |deals| && 0 <= x < |history|
      ensures EntriesOf(deals)[i] == Entry(history[x]) <==> Ids(deals)[i] == history[x].id
    {
      var y :| 0 <= y < |history| && history[y] == deals[i];
      assert x < y || x == y || y < x;
    }
    forall i, j | 0 <= i < |deals| && 0 <= j < |deals|
      ensures EntriesOf(deals)[i] == EntriesOf(deals)[j] <==> Ids(deals)[i] == Ids(deals)[j]
    {
      var y :| 0 <= y < |history| && history[y] == deals[j];
      assert EntriesOf(deals)[j] == Entry(history[y]) && Ids(deals)[j] == history[y].id;
    }
  }

  /** End to end in the text of the mail: a user who always reads a keyword finds under it and a site no deal twice and
      precisely those owed, if and only if every page was anchored, pages that pass over news apart. */
  lemma {:induction false} ReadExactlyOnce(mail: seq<seq<Message>>, us: seq<User>, k: Keyword, s: SiteName,
                                           sites: seq<SiteName>, jobs: seq<Job>, history: seq<Deal>,
                                           views: seq<DealFeed.View>)
    requires AllFit(sites, jobs) && Distinct(sites) && ReadsAlways(us, k, jobs) && |mail| == |jobs|
    requires forall j :: 0 <= j < |jobs| ==>
               Sound(sites, jobs[j]) && OwnTitle(k, jobs[j]) && MailIs(jobs[j], RunsAt(sites, jobs, j), mail[j])
    requires |views| == |jobs| && DealFeed.AllWithin(history, views)
    requires forall j :: 0 <= j < |jobs| ==> PageFor(sites, jobs[j], (k.id, s)) == DealFeed.PageOf(history, views[j])
    requires DealFeed.Catalogue(history) && DealFeed.Feed(views) && DealFeed.NoGaps(views) && TellsApart(history)
    ensures var read := ReadOver(mail, us, k, s, |jobs|);
      (forall j :: 0 <= j < |views| ==> DealFeed.AnchoredAt(views, j)) <==>
      && Distinct(read)
      && (forall x: nat :: x < |history| ==>
            (Entry(history[x]) in read <==> DealFeed.Owed(DealFeed.Track(views, |views|), x)))
  {
    hide PageFor, Mailed, DealFeed.Feed, DealFeed.NoGaps, DealFeed.Catalogue, DealFeed.AnchoredAt, DealFeed.Owed,
         DealFeed.Track, MailIs, OwnTitle, TellsApart, Entry, AllFrom, RunsAt;
    var mailed := Mailed(us, k, s, sites, jobs, |jobs|);
    MailedExactlyOnce(us, k, s, sites, jobs, history, views);
    ReadIsMailed(mail, us, k, s, sites, jobs, |jobs|);
    MailedIsListed(us, k, s, sites, jobs, history, views, |jobs|);
    EntriesTellIds(mailed, history);
  }
}
