/** The job search assistant: the crawl over listing and posting pages, the two tables it keeps, and
    the planning, relevance and scoring steps. The language model, the network, the HTML parser, the
    search engine and the clock are parameters. */
module Assistant {
  import opened Common
  import opened Strings
  import opened Store
  import opened Llm
  import opened Prompts
  import opened Extraction
  import Urls
  import Scraper

  /** An `<a href=...>` element: its href and `json.dumps({'attrs': a.attrs})`. */
  datatype Anchor = Anchor(href: string, attrsJson: string)

  /** Everything outside the program: the model, the network, the anchors and the text the HTML parser
      finds in a page, the search engine, and the clock, which stamps the next row written as a function
      of how many rows the two tables hold. */
  datatype Env = Env(llm: Oracle, net: Scraper.Network, anchors: string -> seq<Anchor>,
                     text: string -> string, search: (string, int) -> seq<SearchResult>,
                     clock: nat -> string)

  /** The stamp the clock gives the next row written when the two tables hold `rows` rows. */
  function Stamp(env: Env, rows: nat): string {
    env.clock(rows)
  }

  /** A fresh verdict of `is_url_job_description`: the answer, newlines removed, names a job description. */
  function PageVerdict(tag: string): bool {
    Contains(RemoveChar(tag, '\n'), "Job Description")
  }

  /** A fresh verdict of `get_links`: the <answer> tag reads "yes" (a missing tag reads as no). */
  function LinkVerdict(answer: string): bool {
    SearchForTag(answer, "answer") == Some("yes")
  }

  // ---------------------------------------------------------------------------------------------
  // get_links

  /** An anchor of the page being scanned: its href, the url `fix_url` makes of it, and its attributes. */
  datatype Target = Target(href: string, url: string, attrsJson: string)

  /** The anchors of a page as `get_links` sees them from the page at `src`. */
  function Targets(anchors: seq<Anchor>, src: string): (ts: seq<Target>)
    ensures |ts| == |anchors|
  {
    seq(|anchors|, k requires 0 <= k < |anchors| =>
      Target(anchors[k].href, Urls.FixUrl(anchors[k].href, src), anchors[k].attrsJson))
  }

  /** The hrefs, in anchor order, whose fixed url the table marks as a job page. */
  function Selected(ts: seq<Target>, links: seq<LinkRow>): seq<string>
    decreases |ts|
  {
    if |ts| == 0 then []
    else
      Selected(ts[..|ts| - 1], links)
      + (if StoredVerdict(links, ts[|ts| - 1].url) == Some(true) then [ts[|ts| - 1].href] else [])
  }

  /** Some target with href `h` is a known job page. */
  predicate SelectsHref(ts: seq<Target>, links: seq<LinkRow>, h: string) {
    exists k :: 0 <= k < |ts| && ts[k].href == h && StoredVerdict(links, ts[k].url) == Some(true)
  }

  lemma SelectsHrefSnoc(ts: seq<Target>, links: seq<LinkRow>, h: string)
    requires |ts| > 0
    ensures SelectsHref(ts, links, h) <==>
      SelectsHref(ts[..|ts| - 1], links, h)
      || (ts[|ts| - 1].href == h && StoredVerdict(links, ts[|ts| - 1].url) == Some(true))
  {
    var n := |ts| - 1;
    if SelectsHref(ts, links, h) {
      var k :| 0 <= k < |ts| && ts[k].href == h && StoredVerdict(links, ts[k].url) == Some(true);
      if k < n {
        assert ts[..n][k] == ts[k];
      }
    }
    if SelectsHref(ts[..n], links, h) {
      var k :| 0 <= k < n && ts[..n][k].href == h && StoredVerdict(links, ts[..n][k].url) == Some(true);
      assert ts[k] == ts[..n][k];
    }
  }

  /** An href is selected exactly when some anchor carries it and its fixed url is a known job page. */
  lemma {:induction false} SelectedMembers(ts: seq<Target>, links: seq<LinkRow>, h: string)
    ensures h in Selected(ts, links) <==> SelectsHref(ts, links, h)
    decreases |ts|
  {
    if |ts| > 0 {
      SelectedMembers(ts[..|ts| - 1], links, h);
      SelectsHrefSnoc(ts, links, h);
    }
  }

  /** Rows added for other urls do not change the selection of targets already known. */
  lemma {:induction false} SelectedGrows(ts: seq<Target>, links: seq<LinkRow>, more: seq<LinkRow>)
    requires forall k :: 0 <= k < |ts| ==> KnownLink(links, ts[k].url)
    ensures Selected(ts, links + more) == Selected(ts, links)
    decreases |ts|
  {
    if |ts| > 0 {
      var n := |ts| - 1;
      SelectedGrows(ts[..n], links, more);
      StoredVerdictAppend(links, more, ts[n].url);
    }
  }

  /** The questions `get_links` asks and the rows it adds. */

  datatype Scan = Scan(qs: seq<Question>, rows: seq<LinkRow>)

  /** One target of `get_links`, given the scan `s` so far: a target whose url is not yet known is put
      to gpt-4o-mini and its verdict recorded. */
  function ScanStep(s: Scan, t: Target, env: Env, verdict: string -> bool, history: seq<Question>,
                    links: seq<LinkRow>, jobCount: nat): Scan
  {
    var table := links + s.rows;
    if KnownLink(table, t.url) then s
    else
      var q := Question(Gpt4oMini, LinkPrompt(t.attrsJson));
      var v := verdict(env.llm(history + s.qs + [q]));
      Scan(s.qs + [q], s.rows + [NewLinkRow(table, t.url, v, Stamp(env, jobCount + |table|))])
  }

  /** `get_links` scanning the targets in order from the table `links`, after the questions `history`,
      with `jobCount` rows in the jobs table. */
  function ScanLinks(ts: seq<Target>, env: Env, verdict: string -> bool, history: seq<Question>,
                     links: seq<LinkRow>, jobCount: nat): Scan
    decreases |ts|
  {
    if |ts| == 0 then Scan([], [])
    else ScanStep(ScanLinks(ts[..|ts| - 1], env, verdict, history, links, jobCount), ts[|ts| - 1],
                  env, verdict, history, links, jobCount)
  }

  /** Scanning one more target is one more step of the scan. */
  lemma ScanLinksStep(ts: seq<Target>, i: int, env: Env, verdict: string -> bool, history: seq<Question>,
                      links: seq<LinkRow>, jobCount: nat)
    requires 0 <= i < |ts|
    ensures ScanLinks(ts[..i + 1], env, verdict, history, links, jobCount)
         == ScanStep(ScanLinks(ts[..i], env, verdict, history, links, jobCount), ts[i], env, verdict, history, links, jobCount)
  {
    assert ts[..i + 1][..i] == ts[..i];
  }

  /** The selection after one more target: the selection so far, which rows added since leave alone,
      and the new target's href when the table now marks its url as a job page. */
  lemma SelectedStep(ts: seq<Target>, i: int, env: Env, verdict: string -> bool, history: seq<Question>,
                     links: seq<LinkRow>, jobCount: nat, later: seq<LinkRow>)
    requires 0 <= i < |ts| && links + ScanLinks(ts[..i], env, verdict, history, links, jobCount).rows <= later
    ensures Selected(ts[..i + 1], later)
         == Selected(ts[..i], links + ScanLinks(ts[..i], env, verdict, history, links, jobCount).rows)
            + if StoredVerdict(later, ts[i].url) == Some(true) then [ts[i].href] else []
  {
    var table := links + ScanLinks(ts[..i], env, verdict, history, links, jobCount).rows;
    assert ts[..i + 1][..i] == ts[..i];
    ScanKnows(ts[..i], env, verdict, history, links, jobCount);
    assert later == table + later[|table|..];
    SelectedGrows(ts[..i], table, later[|table|..]);
  }

  /** Some target has url `url`. */
  predicate Names(ts: seq<Target>, url: string) {
    exists j :: 0 <= j < |ts| && ts[j].url == url
  }

  /** After the scan every target's url is known. */
  lemma {:induction false} ScanKnows(ts: seq<Target>, env: Env, verdict: string -> bool, history: seq<Question>, links: seq<LinkRow>, jobCount: nat)
    ensures forall k :: 0 <= k < |ts| ==> KnownLink(links + ScanLinks(ts, env, verdict, history, links, jobCount).rows, ts[k].url)
    decreases |ts|
  {
    if |ts| > 0 {
      var n := |ts| - 1;
      var s0 := ScanLinks(ts[..n], env, verdict, history, links, jobCount);
      var s := ScanLinks(ts, env, verdict, history, links, jobCount);
      ScanKnows(ts[..n], env, verdict, history, links, jobCount);
      forall k | 0 <= k < |ts| ensures KnownLink(links + s.rows, ts[k].url) {
        if k < n {
          assert ts[..n][k] == ts[k];
          StoredVerdictPrefix(links + s0.rows, links + s.rows, ts[k].url);
        } else if s != s0 {
          StoredVerdictAppend(links + s0.rows, [s.rows[|s0.rows|]], ts[k].url);
          assert links + s.rows == links + s0.rows + [s.rows[|s0.rows|]];
        }
      }
    }
  }

  /** The scan asks one question per row it adds. */
  lemma {:induction false} ScanCounts(ts: seq<Target>, env: Env, verdict: string -> bool, history: seq<Question>, links: seq<LinkRow>, jobCount: nat)
    ensures var s := ScanLinks(ts, env, verdict, history, links, jobCount); |s.qs| == |s.rows|
    decreases |ts|
  {
    if |ts| > 0 {
      ScanCounts(ts[..|ts| - 1], env, verdict, history, links, jobCount);
    }
  }

  /** Each row the scan adds is for the url of some target that the table did not know. */
  lemma {:induction false} ScanRowsFresh(ts: seq<Target>, env: Env, verdict: string -> bool, history: seq<Question>, links: seq<LinkRow>, jobCount: nat)
    ensures forall k :: 0 <= k < |ScanLinks(ts, env, verdict, history, links, jobCount).rows| ==>
      Names(ts, ScanLinks(ts, env, verdict, history, links, jobCount).rows[k].url)
    ensures forall k :: 0 <= k < |ScanLinks(ts, env, verdict, history, links, jobCount).rows| ==>
      !KnownLink(links + ScanLinks(ts, env, verdict, history, links, jobCount).rows[..k], ScanLinks(ts, env, verdict, history, links, jobCount).rows[k].url)
    decreases |ts|
  {
    if |ts| > 0 {
      var n := |ts| - 1;
      var s0 := ScanLinks(ts[..n], env, verdict, history, links, jobCount);
      var s := ScanLinks(ts, env, verdict, history, links, jobCount);
      ScanRowsFresh(ts[..n], env, verdict, history, links, jobCount);
      forall k | 0 <= k < |s0.rows| ensures Names(ts, s0.rows[k].url) {
        assert Names(ts[..n], s0.rows[k].url);
        var j :| 0 <= j < n && ts[..n][j].url == s0.rows[k].url;
        assert ts[j] == ts[..n][j];
      }
      if s != s0 {
        var m := |s0.rows|;
        assert s.rows[..m] == s0.rows;
        forall k | 0 <= k < m ensures s.rows[..k] == s0.rows[..k] {
        }
        assert ts[n].url == s.rows[m].url;
      }
    }
  }

  /** Each row of `s` carries the verdict on the answer to its own question. */
  predicate VerdictsRead(s: Scan, env: Env, verdict: string -> bool, history: seq<Question>) {
    forall k :: 0 <= k < |s.rows| && k < |s.qs| ==> s.rows[k].isJobPage == verdict(env.llm(history + s.qs[..k + 1]))
  }

  /** One step of the scan keeps every verdict tied to its own question. */
  lemma ScanStepVerdicts(s: Scan, t: Target, env: Env, verdict: string -> bool, history: seq<Question>,
                         links: seq<LinkRow>, jobCount: nat)
    requires |s.qs| == |s.rows| && VerdictsRead(s, env, verdict, history)
    ensures VerdictsRead(ScanStep(s, t, env, verdict, history, links, jobCount), env, verdict, history)
  {
    var s' := ScanStep(s, t, env, verdict, history, links, jobCount);
    if s' != s {
      var m := |s.rows|;
      forall k | 0 <= k < m ensures s'.rows[k] == s.rows[k] && s'.qs[..k + 1] == s.qs[..k + 1] {
      }
      assert s'.qs[..m + 1] == s'.qs;
      assert history + s'.qs == history + s.qs + [s'.qs[m]];
    }
  }

  /** The verdict of each row added is read off the answer to its own question. */
  lemma {:induction false} ScanVerdicts(ts: seq<Target>, env: Env, verdict: string -> bool, history: seq<Question>, links: seq<LinkRow>, jobCount: nat)
    ensures VerdictsRead(ScanLinks(ts, env, verdict, history, links, jobCount), env, verdict, history)
    decreases |ts|
  {
    if |ts| > 0 {
      var n := |ts| - 1;
      ScanVerdicts(ts[..n], env, verdict, history, links, jobCount);
      ScanCounts(ts[..n], env, verdict, history, links, jobCount);
      ScanStepVerdicts(ScanLinks(ts[..n], env, verdict, history, links, jobCount), ts[n], env, verdict, history, links, jobCount);
    }
  }

  /** A scan of targets whose urls are all known asks nothing and writes nothing. */
  lemma {:induction false} ScanNothingNew(ts: seq<Target>, env: Env, verdict: string -> bool, history: seq<Question>, links: seq<LinkRow>, jobCount: nat)
    requires forall j :: 0 <= j < |ts| ==> KnownLink(links, ts[j].url)
    ensures ScanLinks(ts, env, verdict, history, links, jobCount) == Scan([], [])
    decreases |ts|
  {
    if |ts| > 0 {
      var n := |ts| - 1;
      forall j | 0 <= j < n ensures KnownLink(links, ts[..n][j].url) {
        assert ts[..n][j] == ts[j];
      }
      ScanNothingNew(ts[..n], env, verdict, history, links, jobCount);
      assert links + [] == links;
    }
  }

  /** The scan keeps the known links free of repeated urls. */
  lemma {:induction false} ScanUnique(ts: seq<Target>, env: Env, verdict: string -> bool, history: seq<Question>, links: seq<LinkRow>, jobCount: nat)
    ensures UniqueLinks(links) ==> UniqueLinks(links + ScanLinks(ts, env, verdict, history, links, jobCount).rows)
    decreases |ts|
  {
    if |ts| > 0 {
      var n := |ts| - 1;
      var s0 := ScanLinks(ts[..n], env, verdict, history, links, jobCount);
      var s := ScanLinks(ts, env, verdict, history, links, jobCount);
      ScanUnique(ts[..n], env, verdict, history, links, jobCount);
      var table := links + s0.rows;
      assert s == ScanStep(s0, ts[n], env, verdict, history, links, jobCount);
      if !KnownLink(table, ts[n].url) && UniqueLinks(table) {
        var q := Question(Gpt4oMini, LinkPrompt(ts[n].attrsJson));
        var v := verdict(env.llm(history + s0.qs + [q]));
        var now := Stamp(env, jobCount + |table|);
        assert s.rows == s0.rows + [NewLinkRow(table, ts[n].url, v, now)];
        AddLinkKeepsUnique(table, ts[n].url, v, now);
        assert links + s.rows == table + [NewLinkRow(table, ts[n].url, v, now)];
      }
    } else {
      assert links + [] == links;
    }
  }

  // ---------------------------------------------------------------------------------------------
  // process_job_description, as a function of the fetched text and the model's answers

  /** The relevance prompt; `str.replace` given None for the domain or the description is a TypeError. */
  function RelevanceFor(domain: Option<string>, want: string, context: string, desc: Option<string>)
    : (r: Result<Prompt>)
    ensures r.Err? <==> domain.None? || desc.None?
    ensures r.Err? ==> r.error.TypeError?
    ensures r.Ok? ==> r.value == RelevancePrompt(domain.value, want, context, desc.value)
  {
    if domain.None? || desc.None? then Err(TypeError("replace() argument 2 must be str, not None"))
    else Ok(RelevancePrompt(domain.value, want, context, desc.value))
  }

  /** The scoring prompt; a domain of None or a description that is not text is a TypeError. */
  function ScoreFor(domain: Option<string>, context: string, desc: Value): (r: Result<Prompt>)
    ensures r.Err? <==> domain.None? || !desc.Text?
    ensures r.Err? ==> r.error.TypeError?
    ensures r.Ok? ==> r.value == ScorePrompt(domain.value, context, desc.s)
  {
    if domain.None? || !desc.Text? then Err(TypeError("replace() argument 2 must be str"))
    else Ok(ScorePrompt(domain.value, context, desc.s))
  }

  /** The questions `process_job_description` asks about a new url once its page is fetched, and the
      record it then hands to `add_job` (or the exception raised instead). */
  function DescribeJob(url: string, text: Option<string>, llm: Oracle, history: seq<Question>,
                       domain: Option<string>, want: string, context: string)
    : (seq<Question>, Result<JobDetails>)
  {
    match text
    case None => ([], Ok(EmptyJobResult(url)))
    case Some(t) =>
      var fq := Question(Haiku, FormatterPrompt(t));
      match FormatAnswer(llm(history + [fq]))
      case None => ([fq], Ok(EmptyJobResult(url)))
      case Some(f) =>
        match RelevanceFor(domain, want, context, f.description)
        case Err(e) => ([fq], Err(e))
        case Ok(p) =>
          var qs := RelevanceQuestions(p);
          ([fq] + qs, Ok(FormattedDetails(f, url, Majority(Votes(Answers(llm, history + [fq], qs))))))
  }

  /** No question without text; otherwise the formatter question, then the six votes only for an
      accepted posting. The sentinel record is stored exactly when there is no text or the formatter
      rejects; every record carries the url; the only exception is the TypeError of a missing domain
      or description. */
  lemma DescribeJobSpec(url: string, text: Option<string>, llm: Oracle, history: seq<Question>,
                        domain: Option<string>, want: string, context: string)
    ensures var (qs, d) := DescribeJob(url, text, llm, history, domain, want, context);
      && (text.None? <==> |qs| == 0)
      && (text.Some? ==> |qs| >= 1 && qs[0] == Question(Haiku, FormatterPrompt(text.value)))
      && (|qs| == 0 || |qs| == 1 || |qs| == 7)
      && (|qs| == 7 ==> forall k :: 1 <= k < 7 ==> qs[k].prompt.RelevancePrompt?)
      && (d.Ok? ==> Lookup(d.value, Url) == Text(url))
      && (d.Err? ==> d.error.TypeError? && |qs| == 1)
      && (d == Ok(EmptyJobResult(url)) <==>
          text.None? || FormatAnswer(llm(history + [Question(Haiku, FormatterPrompt(text.value))])).None?)
  {
    var (qs, d) := DescribeJob(url, text, llm, history, domain, want, context);
    if text.Some? {
      var fq := Question(Haiku, FormatterPrompt(text.value));
      var f := FormatAnswer(llm(history + [fq]));
      if f.Some? && d.Ok? {
        assert d.value.salary.Some? && EmptyJobResult(url).salary.None?;
      }
    }
  }

  /** What `process_job_description` does once the page of a url not yet stored has been fetched (or the
      fetch raised): the questions asked, the outcome, and the jobs table afterwards. */
  datatype Flow = Flow(qs: seq<Question>, r: Result<()>, jobs: seq<JobRow>)

  /** `add_job` for a record, or the exception raised instead of it. */
  function StoreOutcome(jobs: seq<JobRow>, d: Result<JobDetails>, now: string): (Result<()>, seq<JobRow>) {
    match d
    case Err(e) => (Err(e), jobs)
    case Ok(details) => (Ok(()), InsertJob(jobs, details, now))
  }

  /** Describing the text of a page and storing the record: the questions, the outcome and the table. */
  function StoreText(url: string, text: Option<string>, llm: Oracle, jobs: seq<JobRow>, history: seq<Question>,
                     domain: Option<string>, want: string, context: string, now: string): (f: Flow)
    ensures f.r.Err? ==> f.jobs == jobs
  {
    var described := DescribeJob(url, text, llm, history, domain, want, context);
    var stored := StoreOutcome(jobs, described.1, now);
    Flow(described.0, stored.0, stored.1)
  }

  /** Describing and storing is the description followed by the store of what it gave. */
  lemma StoreTextSplit(url: string, text: Option<string>, llm: Oracle, jobs: seq<JobRow>, history: seq<Question>,
                       domain: Option<string>, want: string, context: string, now: string, details: Result<JobDetails>)
    requires details == DescribeJob(url, text, llm, history, domain, want, context).1
    ensures var f := StoreText(url, text, llm, jobs, history, domain, want, context, now);
      && f.qs == DescribeJob(url, text, llm, history, domain, want, context).0
      && (f.r, f.jobs) == StoreOutcome(jobs, details, now)
  {
  }

  function StoreFetched(url: string, fetched: Result<Scraper.Content>, env: Env, jobs: seq<JobRow>,
                        history: seq<Question>, domain: Option<string>, want: string, context: string,
                        now: string): (f: Flow)
    ensures fetched.Err? ==> f == Flow([], Err(fetched.error), jobs)
    ensures f.r.Err? ==> f.jobs == jobs
  {
    match fetched
    case Err(e) => Flow([], Err(e), jobs)
    case Ok(content) =>
      StoreText(url, ExtractJobContent(content, env.text), env.llm, jobs, history, domain, want, context, now)
  }

  /** After a fetch the jobs table keeps its rows and gains at most one, for the url, and stays free of
      repeated urls; the questions are those `DescribeJob` lists. */
  lemma StoreFetchedGrows(url: string, fetched: Result<Scraper.Content>, env: Env, jobs: seq<JobRow>,
                          history: seq<Question>, domain: Option<string>, want: string, context: string, now: string)
    ensures var f := StoreFetched(url, fetched, env, jobs, history, domain, want, context, now);
      && (f.jobs == jobs || (|f.jobs| == |jobs| + 1 && f.jobs[..|jobs|] == jobs && f.jobs[|jobs|].url == Text(url)))
      && (UniqueJobs(jobs) ==> UniqueJobs(f.jobs))
      && (fetched.Ok? ==> f.qs == DescribeJob(url, ExtractJobContent(fetched.value, env.text), env.llm, history,
                                               domain, want, context).0)
  {
    if fetched.Ok? {
      var (qs, d) := DescribeJob(url, ExtractJobContent(fetched.value, env.text), env.llm, history, domain, want, context);
      DescribeJobSpec(url, ExtractJobContent(fetched.value, env.text), env.llm, history, domain, want, context);
      if d.Ok? {
        InsertJobOutcome(jobs, d.value, now, Text(url));
        if UniqueJobs(jobs) {
          InsertJobKeepsUnique(jobs, d.value, now);
        }
      }
    }
  }

  /** The tables before and after a fetched page is stored, as `Grows` sees them. */
  lemma StoreFetchedTables(url: string, fetched: Result<Scraper.Content>, env: Env, t: Tables,
                           domain: Option<string>, want: string, context: string, now: string)
    ensures var f := StoreFetched(url, fetched, env, t.jobs, t.asked, domain, want, context, now);
      Grows(t, Tables(f.jobs, t.links, t.asked + f.qs, t.descs)) && |f.jobs| <= |t.jobs| + 1
  {
    StoreFetchedGrows(url, fetched, env, t.jobs, t.asked, domain, want, context, now);
  }

  /** Every key is text holding ':' (as a url does). */
  predicate UrlKeysOnly(todo: seq<(Value, Value)>) {
    forall k :: 0 <= k < |todo| ==> todo[k].0.Text? && ':' in todo[k].0.s
  }

  datatype Verdict = Verdict(r: Result<bool>, links: seq<LinkRow>, asked: seq<Question>)

  /** `is_url_job_description` on the known links table `links` after the questions `history`: a known
      url gives its stored verdict without a question or a write; an unknown one is put to haiku once
      and its verdict recorded in one new row, unless the answer lacks the tag, which raises before
      anything is written. */
  function UrlVerdict(links: seq<LinkRow>, history: seq<Question>, url: string, env: Env, jobCount: nat): Verdict {
    if KnownLink(links, url) then Verdict(Ok(StoredVerdict(links, url).value), links, history)
    else
      var asked := history + [Question(Haiku, UrlPrompt(url))];
      match SearchForTag(env.llm(asked), "answer")
      case None => Verdict(Err(AttributeError("'NoneType' object has no attribute 'replace'")), links, asked)
      case Some(tag) =>
        Verdict(Ok(PageVerdict(tag)), links + [NewLinkRow(links, url, PageVerdict(tag), Stamp(env, jobCount + |links|))], asked)
  }

  /** The verdict returned is the one the table now holds for the url; the tables only grow and stay
      free of repeated urls. */
  lemma UrlVerdictRecorded(links: seq<LinkRow>, history: seq<Question>, url: string, env: Env, jobCount: nat)
    ensures var v := UrlVerdict(links, history, url, env, jobCount);
      && links <= v.links && history <= v.asked
      && (v.r.Ok? ==> StoredVerdict(v.links, url) == Some(v.r.value))
      && (UniqueLinks(links) ==> UniqueLinks(v.links))
  {
    var v := UrlVerdict(links, history, url, env, jobCount);
    if !KnownLink(links, url) && v.r.Ok? {
      var now := Stamp(env, jobCount + |links|);
      StoredVerdictAppend(links, [NewLinkRow(links, url, v.r.value, now)], url);
      if UniqueLinks(links) {
        AddLinkKeepsUnique(links, url, v.r.value, now);
      }
    }
  }

  /** What the crawl accumulates: the two tables, the questions asked and the job description urls. */
  datatype Tables = Tables(jobs: seq<JobRow>, links: seq<LinkRow>, asked: seq<Question>, descs: set<string>)

  /** The tables and traces only grow from `a` to `b`, and the tables stay free of repeated urls. */
  predicate Grows(a: Tables, b: Tables) {
    && a.jobs <= b.jobs && a.links <= b.links && a.asked <= b.asked && a.descs <= b.descs
    && (UniqueJobs(a.jobs) ==> UniqueJobs(b.jobs)) && (UniqueLinks(a.links) ==> UniqueLinks(b.links))
  }

  /** Adding questions and description urls, the tables left alone, is growth. */
  lemma GrowsByAsking(a: Tables, b: Tables)
    requires b.jobs == a.jobs && b.links == a.links && a.asked <= b.asked && a.descs <= b.descs
    ensures Grows(a, b)
  {
  }

  /** Growth composes. */
  lemma GrowsTrans(a: Tables, b: Tables, c: Tables)
    requires Grows(a, b) && Grows(b, c)
    ensures Grows(a, c)
  {
    assert a.jobs <= c.jobs by { assert c.jobs[..|a.jobs|] == c.jobs[..|b.jobs|][..|a.jobs|]; }
    assert a.links <= c.links by { assert c.links[..|a.links|] == c.links[..|b.links|][..|a.links|]; }
    assert a.asked <= c.asked by { assert c.asked[..|a.asked|] == c.asked[..|b.asked|][..|a.asked|]; }
  }

  // ---------------------------------------------------------------------------------------------
  // The crawl as a function of the state it starts from

  /** What the crawl reads and never changes: the scraper's settings, the domain of interest, the
      wanted job, the user's profile and the domains to skip. */
  datatype Ctx = Ctx(config: Scraper.Config, domain: Option<string>, want: string, context: string,
                     skip: seq<string>)

  /** What the crawl changes: the tables and the scraper's trace. */
  datatype World = World(t: Tables, s: Scraper.Trace)

  /** Some skip string occurs in the url's domain. */
  predicate SkippedBy(skip: seq<string>, url: string) {
    exists k :: 0 <= k < |skip| && Contains(Urls.GetDomainName(url), skip[k])
  }

  /** The stamp the clock gives the next row written in `w`. */
  function NowIn(env: Env, w: World): string {
    Stamp(env, |w.t.jobs| + |w.t.links|)
  }

  /** `process_job_description`: nothing for a url already stored; otherwise the page is fetched with
      `retry_with_backoff` and the record `DescribeJob` gives is stored. */
  function JobDescription(c: Ctx, env: Env, url: string, w: World): (World, Result<()>) {
    if HasJobUrl(w.t.jobs, Text(url)) then (w, Ok(()))
    else
      var (s, fetched) := Scraper.Backoff(c.config, env.net, url, 0, 0, w.s);
      var f := StoreFetched(url, fetched, env, w.t.jobs, w.t.asked, c.domain, c.want, c.context, NowIn(env, w));
      (World(w.t.(jobs := f.jobs, asked := w.t.asked + f.qs), s), f.r)
  }

  /** The fetch branch of `process_job_description`, for a fetch that left the trace `s` and gave
      `fetched`, and a store that left `jobs` and `asked` and gave `r`. */
  lemma JobDescriptionFetched(c: Ctx, env: Env, url: string, w: World, s: Scraper.Trace,
                              fetched: Result<Scraper.Content>, jobs: seq<JobRow>, asked: seq<Question>, r: Result<()>)
    requires !HasJobUrl(w.t.jobs, Text(url))
    requires (s, fetched) == Scraper.Backoff(c.config, env.net, url, 0, 0, w.s)
    requires var f := StoreFetched(url, fetched, env, w.t.jobs, w.t.asked, c.domain, c.want, c.context, NowIn(env, w));
      jobs == f.jobs && asked == w.t.asked + f.qs && r == f.r
    ensures JobDescription(c, env, url, w) == (World(Tables(jobs, w.t.links, asked, w.t.descs), s), r)
  {
  }

  /** The job page branch of `process_url`: the url joins the job descriptions, then is processed. */
  function JobPage(c: Ctx, env: Env, url: string, w: World): (World, Result<()>) {
    JobDescription(c, env, url, World(w.t.(descs := w.t.descs + {url}), w.s))
  }

  /** The fetch of a listing and `get_links` on its anchors; the hrefs returned join the job
      descriptions. A fetch that succeeds always gives a page (`BackoffOutcome`). */
  function CollectLinks(c: Ctx, env: Env, url: string, w: World): (World, Result<seq<string>>) {
    var (s, fetched) := Scraper.Backoff(c.config, env.net, url, 0, 0, w.s);
    match fetched
    case Err(e) => (World(w.t, s), Err(e))
    case Ok(content) =>
      Scraper.BackoffOutcome(c.config, env.net, url, 0, 0, w.s);
      var ts := Targets(env.anchors(content.body), url);
      var scan := ScanLinks(ts, env, LinkVerdict, w.t.asked, w.t.links, |w.t.jobs|);
      var found := Selected(ts, w.t.links + scan.rows);
      (World(Tables(w.t.jobs, w.t.links + scan.rows, w.t.asked + scan.qs, w.t.descs + set l | l in found), s),
       Ok(found))
  }

  /** `process_url` with at most `fuel` further pages: a skipped domain changes nothing; otherwise the
      url's verdict is read or asked for, and a job page is described while a listing is scanned. */
  function Crawl(c: Ctx, env: Env, url: string, fuel: nat, w: World): (World, Result<()>)
    decreases fuel, 3
  {
    if SkippedBy(c.skip, url) then (w, Ok(()))
    else
      var v := UrlVerdict(w.t.links, w.t.asked, url, env, |w.t.jobs|);
      var w1 := World(w.t.(links := v.links, asked := v.asked), w.s);
      match v.r
      case Err(e) => (w1, Err(e))
      case Ok(isJob) => if isJob then JobPage(c, env, url, w1) else Listing(c, env, url, fuel, w1)
  }

  /** The listing branch of `process_url`: the page's job links are collected, then the next page. */
  function Listing(c: Ctx, env: Env, url: string, fuel: nat, w: World): (World, Result<()>)
    decreases fuel, 2
  {
    var (w1, found) := CollectLinks(c, env, url, w);
    if found.Err? then (w1, Err(found.error)) else NextPage(c, env, url, fuel, w1)
  }

  /** The end of `process_url` on a listing: sonnet is asked for the next page, which is followed. */
  function NextPage(c: Ctx, env: Env, url: string, fuel: nat, w: World): (World, Result<()>)
    decreases fuel, 1
  {
    var w1 := World(w.t.(asked := w.t.asked + [Question(Sonnet, NextPagePrompt(url))]), w.s);
    Follow(c, env, NextPageResult(SearchForTag(env.llm(w1.t.asked), "result"), url), fuel, w1)
  }

  /** The next page read off the answer is crawled when it is not empty and fuel remains. */
  function Follow(c: Ctx, env: Env, next: Result<Option<string>>, fuel: nat, w: World): (World, Result<()>)
    decreases fuel, 0
  {
    match next
    case Err(e) => (w, Err(e))
    case Ok(n) => if n.Some? && n.value != "" && fuel > 0 then Crawl(c, env, n.value, fuel - 1, w) else (w, Ok(()))
  }

  /** A next page that is followed gives what crawling it gives. */
  lemma FollowCrawls(c: Ctx, env: Env, next: Result<Option<string>>, fuel: nat, w: World, w': World, r: Result<()>)
    requires next.Ok? && next.value.Some? && next.value.value != "" && fuel > 0
    requires (w', r) == Crawl(c, env, next.value.value, fuel - 1, w)
    ensures (w', r) == Follow(c, env, next, fuel, w)
  {
  }

  /** `process_initial_links`: each link crawled in turn, up to the first exception. */
  function CrawlAll(c: Ctx, env: Env, targets: seq<SearchResult>, fuel: nat, w: World): (World, Result<()>)
    decreases |targets|
  {
    if |targets| == 0 then (w, Ok(()))
    else
      var (w1, r1) := Crawl(c, env, targets[0].link, fuel, w);
      if r1.Err? then (w1, r1) else CrawlAll(c, env, targets[1..], fuel, w1)
  }

  /** `process_descriptions`: each url described in turn, up to the first exception. */
  function DescribeAll(c: Ctx, env: Env, urls: seq<string>, w: World): (World, Result<()>)
    decreases |urls|
  {
    if |urls| == 0 then (w, Ok(()))
    else
      var (w1, r1) := JobDescription(c, env, urls[0], w);
      if r1.Err? then (w1, r1) else DescribeAll(c, env, urls[1..], w1)
  }

  /** `apply_job_search_plan`: nothing without a plan; otherwise the search results, first occurrence
      of each link, are crawled and then the job pages stamped since `day` are described. */
  function Apply(c: Ctx, env: Env, plan: seq<string>, limit: int, day: string, fuel: nat, w: World)
    : (World, Result<()>)
  {
    if plan == [] then (w, Ok(()))
    else
      var (w1, r1) := CrawlAll(c, env, KeepFirst(AllResults(plan, limit, env.search)), fuel, w);
      if r1.Err? then (w1, r1) else DescribeAll(c, env, GetJobsDescriptions(w1.t.links, day), w1)
  }

  /** What `score_jobs` leaves: the jobs table, the questions asked and the outcome. */
  datatype Scored = Scored(jobs: seq<JobRow>, asked: seq<Question>, r: Result<()>)

  /** `score_jobs` over the pairs `todo`: each description scored by gpt-4o-mini and the score written
      with the url as key, up to the first exception. */
  function ScoreAll(c: Ctx, env: Env, todo: seq<(Value, Value)>, jobs: seq<JobRow>, asked: seq<Question>): Scored
    decreases |todo|
  {
    if |todo| == 0 then Scored(jobs, asked, Ok(()))
    else
      match ScoreFor(c.domain, c.context, todo[0].1)
      case Err(e) => Scored(jobs, asked, Err(e))
      case Ok(p) =>
        var asked' := asked + [Question(Gpt4oMini, p)];
        ScoreAll(c, env, todo[1..], Store.UpdateScore(jobs, todo[0].0, FromOption(SearchForTag(env.llm(asked'), "answer"))), asked')
  }

  // ---------------------------------------------------------------------------------------------
  // What the crawl keeps and what it promises

  /** Describing a url only grows the tables: at most one job row, no link row, no new description. */
  lemma JobDescriptionGrows(c: Ctx, env: Env, url: string, w: World)
    ensures var w' := JobDescription(c, env, url, w).0;
      && Grows(w.t, w'.t) && |w'.t.jobs| <= |w.t.jobs| + 1 && w'.t.links == w.t.links && w'.t.descs == w.t.descs
  {
    if !HasJobUrl(w.t.jobs, Text(url)) {
      var fetched := Scraper.Backoff(c.config, env.net, url, 0, 0, w.s).1;
      StoreFetchedTables(url, fetched, env, w.t, c.domain, c.want, c.context, NowIn(env, w));
    }
  }

  /** Collecting a listing's links only grows the tables and writes no job row. */
  lemma CollectLinksGrows(c: Ctx, env: Env, url: string, w: World)
    ensures var w' := CollectLinks(c, env, url, w).0; Grows(w.t, w'.t) && w'.t.jobs == w.t.jobs
  {
    var fetched := Scraper.Backoff(c.config, env.net, url, 0, 0, w.s).1;
    if fetched.Ok? {
      Scraper.BackoffOutcome(c.config, env.net, url, 0, 0, w.s);
      var ts := Targets(env.anchors(fetched.value.body), url);
      ScanUnique(ts, env, LinkVerdict, w.t.asked, w.t.links, |w.t.jobs|);
    }
  }

  /** After a listing's links are collected every anchor's fixed url is known, and the hrefs returned,
      all now among the job descriptions, are exactly those whose fixed url is marked a job page. */
  lemma CollectLinksSelects(c: Ctx, env: Env, url: string, w: World)
    ensures var (w', r) := CollectLinks(c, env, url, w);
      var fetched := Scraper.Backoff(c.config, env.net, url, 0, 0, w.s).1;
      r.Ok? ==>
        && fetched.Ok? && fetched.value.Page?
        && var ts := Targets(env.anchors(fetched.value.body), url);
           && (forall k :: 0 <= k < |ts| ==> KnownLink(w'.t.links, ts[k].url))
           && (forall h :: h in r.value <==> SelectsHref(ts, w'.t.links, h))
           && (forall h :: h in r.value ==> h in w'.t.descs)
  {
    var fetched := Scraper.Backoff(c.config, env.net, url, 0, 0, w.s).1;
    if fetched.Ok? {
      Scraper.BackoffOutcome(c.config, env.net, url, 0, 0, w.s);
      var ts := Targets(env.anchors(fetched.value.body), url);
      var links := w.t.links + ScanLinks(ts, env, LinkVerdict, w.t.asked, w.t.links, |w.t.jobs|).rows;
      ScanKnows(ts, env, LinkVerdict, w.t.asked, w.t.links, |w.t.jobs|);
      forall h ensures h in Selected(ts, links) <==> SelectsHref(ts, links, h) {
        SelectedMembers(ts, links, h);
      }
    }
  }

  /** The crawl from one url only grows the tables: rows and questions are appended, urls join the job
      descriptions, and neither table gains a repeated url. */
  lemma {:induction false} CrawlGrows(c: Ctx, env: Env, url: string, fuel: nat, w: World)
    ensures Grows(w.t, Crawl(c, env, url, fuel, w).0.t)
    decreases fuel, 3
  {
    if !SkippedBy(c.skip, url) {
      var v := UrlVerdict(w.t.links, w.t.asked, url, env, |w.t.jobs|);
      var w1 := World(w.t.(links := v.links, asked := v.asked), w.s);
      UrlVerdictRecorded(w.t.links, w.t.asked, url, env, |w.t.jobs|);
      if v.r.Ok? {
        if v.r.value {
          var w2 := World(w1.t.(descs := w1.t.descs + {url}), w1.s);
          JobDescriptionGrows(c, env, url, w2);
          GrowsTrans(w.t, w2.t, JobPage(c, env, url, w1).0.t);
        } else {
          ListingGrows(c, env, url, fuel, w1);
          GrowsTrans(w.t, w1.t, Listing(c, env, url, fuel, w1).0.t);
        }
      }
    }
  }

  lemma {:induction false} ListingGrows(c: Ctx, env: Env, url: string, fuel: nat, w: World)
    ensures Grows(w.t, Listing(c, env, url, fuel, w).0.t)
    decreases fuel, 2
  {
    var (w1, found) := CollectLinks(c, env, url, w);
    CollectLinksGrows(c, env, url, w);
    if found.Ok? {
      NextPageGrows(c, env, url, fuel, w1);
      GrowsTrans(w.t, w1.t, NextPage(c, env, url, fuel, w1).0.t);
    }
  }

  lemma {:induction false} NextPageGrows(c: Ctx, env: Env, url: string, fuel: nat, w: World)
    ensures Grows(w.t, NextPage(c, env, url, fuel, w).0.t)
    decreases fuel, 1
  {
    var w1 := World(w.t.(asked := w.t.asked + [Question(Sonnet, NextPagePrompt(url))]), w.s);
    GrowsByAsking(w.t, w1.t);
    var next := NextPageResult(SearchForTag(env.llm(w1.t.asked), "result"), url);
    FollowGrows(c, env, next, fuel, w1);
    GrowsTrans(w.t, w1.t, Follow(c, env, next, fuel, w1).0.t);
  }

  lemma {:induction false} FollowGrows(c: Ctx, env: Env, next: Result<Option<string>>, fuel: nat, w: World)
    ensures Grows(w.t, Follow(c, env, next, fuel, w).0.t)
    decreases fuel, 0
  {
    if next.Ok? && next.value.Some? && next.value.value != "" && fuel > 0 {
      CrawlGrows(c, env, next.value.value, fuel - 1, w);
    } else {
      GrowsByAsking(w.t, w.t);
    }
  }

  /** A url the crawl gets through without an exception is known afterwards, unless its domain is
      skipped, and it is among the job descriptions when its verdict says job page. */
  lemma CrawlKnows(c: Ctx, env: Env, url: string, fuel: nat, w: World)
    ensures var (w', r) := Crawl(c, env, url, fuel, w);
      !SkippedBy(c.skip, url) && r.Ok? ==>
        && KnownLink(w'.t.links, url)
        && (StoredVerdict(w'.t.links, url) == Some(true) ==> url in w'.t.descs)
  {
    var (w', r) := Crawl(c, env, url, fuel, w);
    if !SkippedBy(c.skip, url) && r.Ok? {
      var v := UrlVerdict(w.t.links, w.t.asked, url, env, |w.t.jobs|);
      var w1 := World(w.t.(links := v.links, asked := v.asked), w.s);
      UrlVerdictRecorded(w.t.links, w.t.asked, url, env, |w.t.jobs|);
      if v.r.value {
        JobDescriptionGrows(c, env, url, World(w1.t.(descs := w1.t.descs + {url}), w1.s));
      } else {
        ListingGrows(c, env, url, fuel, w1);
        StoredVerdictPrefix(w1.t.links, w'.t.links, url);
      }
    }
  }

  /** The current url or the not-found sentence, whitespace around it or not, ends the pagination:
      sonnet is asked once and no further url is visited. */
  lemma NextPageStops(c: Ctx, env: Env, url: string, fuel: nat, w: World, pre: string, post: string)
    requires forall k :: 0 <= k < |pre| ==> pre[k] in WHITESPACE
    requires forall k :: 0 <= k < |post| ==> post[k] in WHITESPACE
    requires |url| > 0 && url[0] !in WHITESPACE && url[|url| - 1] !in WHITESPACE
    requires var tag := SearchForTag(env.llm(w.t.asked + [Question(Sonnet, NextPagePrompt(url))]), "result");
      tag == Some(pre + url + post) || tag == Some(pre + NO_NEXT_PAGE + post)
    ensures NextPage(c, env, url, fuel, w) ==
      (World(w.t.(asked := w.t.asked + [Question(Sonnet, NextPagePrompt(url))]), w.s), Ok(()))
  {
    var tag := SearchForTag(env.llm(w.t.asked + [Question(Sonnet, NextPagePrompt(url))]), "result");
    if tag == Some(pre + url + post) {
      NextPagePadded(pre, url, post, url);
    } else {
      NextPagePadded(pre, NO_NEXT_PAGE, post, url);
    }
  }

  /** Crawling the initial links only grows the tables, and every link it gets through is known
      afterwards unless its domain is skipped. */
  lemma {:induction false} CrawlAllKnows(c: Ctx, env: Env, targets: seq<SearchResult>, fuel: nat, w: World)
    ensures var (w', r) := CrawlAll(c, env, targets, fuel, w);
      && Grows(w.t, w'.t)
      && (r.Ok? ==> forall k :: 0 <= k < |targets| && !SkippedBy(c.skip, targets[k].link) ==>
                      KnownLink(w'.t.links, targets[k].link))
    decreases |targets|
  {
    if |targets| > 0 {
      var (w1, r1) := Crawl(c, env, targets[0].link, fuel, w);
      CrawlGrows(c, env, targets[0].link, fuel, w);
      CrawlKnows(c, env, targets[0].link, fuel, w);
      if r1.Ok? {
        var (w', r) := CrawlAll(c, env, targets[1..], fuel, w1);
        CrawlAllKnows(c, env, targets[1..], fuel, w1);
        GrowsTrans(w.t, w1.t, w'.t);
        if r.Ok? {
          forall k | 0 <= k < |targets| && !SkippedBy(c.skip, targets[k].link)
            ensures KnownLink(w'.t.links, targets[k].link)
          {
            if k == 0 {
              StoredVerdictPrefix(w1.t.links, w'.t.links, targets[0].link);
            } else {
              assert targets[1..][k - 1] == targets[k];
            }
          }
        }
      }
    }
  }

  /** Describing urls only grows the tables, by at most one job row per url and no link row. */
  lemma {:induction false} DescribeAllGrows(c: Ctx, env: Env, urls: seq<string>, w: World)
    ensures var w' := DescribeAll(c, env, urls, w).0;
      Grows(w.t, w'.t) && |w'.t.jobs| <= |w.t.jobs| + |urls| && w'.t.links == w.t.links
    decreases |urls|
  {
    if |urls| > 0 {
      var (w1, r1) := JobDescription(c, env, urls[0], w);
      JobDescriptionGrows(c, env, urls[0], w);
      if r1.Ok? {
        DescribeAllGrows(c, env, urls[1..], w1);
        GrowsTrans(w.t, w1.t, DescribeAll(c, env, urls[1..], w1).0.t);
      }
    }
  }

  /** Applying a plan only grows the tables. */
  lemma ApplyGrows(c: Ctx, env: Env, plan: seq<string>, limit: int, day: string, fuel: nat, w: World)
    ensures Grows(w.t, Apply(c, env, plan, limit, day, fuel, w).0.t)
  {
    if plan != [] {
      var (w1, r1) := CrawlAll(c, env, KeepFirst(AllResults(plan, limit, env.search)), fuel, w);
      CrawlAllKnows(c, env, KeepFirst(AllResults(plan, limit, env.search)), fuel, w);
      if r1.Ok? {
        DescribeAllGrows(c, env, GetJobsDescriptions(w1.t.links, day), w1);
        GrowsTrans(w.t, w1.t, DescribeAll(c, env, GetJobsDescriptions(w1.t.links, day), w1).0.t);
      }
    }
  }

  /** After `s`, the questions added to `asked` are one scoring question to gpt-4o-mini per pair of
      `todo`, in order, and all of them were asked exactly when the result is `Ok`. */
  predicate AskedForEach(c: Ctx, todo: seq<(Value, Value)>, asked: seq<Question>, s: Scored) {
    && asked <= s.asked && |s.asked| <= |asked| + |todo|
    && (forall k :: |asked| <= k < |s.asked| ==>
          s.asked[k].model == Gpt4oMini && ScoreFor(c.domain, c.context, todo[k - |asked|].1) == Ok(s.asked[k].prompt))
    && (s.r.Ok? <==> |s.asked| == |asked| + |todo|)
  }

  /** Scoring asks gpt-4o-mini one scoring question per pair, in order, up to the first pair whose prompt
      cannot be built (a TypeError); on success every pair was asked about. */
  lemma {:induction false} ScoreAllAsks(c: Ctx, env: Env, todo: seq<(Value, Value)>, jobs: seq<JobRow>, asked: seq<Question>)
    ensures var s := ScoreAll(c, env, todo, jobs, asked);
      AskedForEach(c, todo, asked, s) && (s.r.Err? ==> s.r.error.TypeError?)
    decreases |todo|
  {
    if |todo| > 0 {
      match ScoreFor(c.domain, c.context, todo[0].1)
      case Err(e) =>
      case Ok(p) =>
        var asked' := asked + [Question(Gpt4oMini, p)];
        var jobs' := Store.UpdateScore(jobs, todo[0].0, FromOption(SearchForTag(env.llm(asked'), "answer")));
        ScoreAllAsks(c, env, todo[1..], jobs', asked');
        ScoreAllAsksStep(c, todo, asked, p, ScoreAll(c, env, todo[1..], jobs', asked'));
    }
  }

  /** The step of `ScoreAllAsks`: the question about the first pair, then those about the rest. */
  lemma ScoreAllAsksStep(c: Ctx, todo: seq<(Value, Value)>, asked: seq<Question>, p: Prompt, s: Scored)
    requires |todo| > 0 && ScoreFor(c.domain, c.context, todo[0].1) == Ok(p)
    requires AskedForEach(c, todo[1..], asked + [Question(Gpt4oMini, p)], s)
    ensures AskedForEach(c, todo, asked, s)
  {
    var asked' := asked + [Question(Gpt4oMini, p)];
    assert s.asked[..|asked|] == s.asked[..|asked'|][..|asked|];
    forall k | |asked| <= k < |s.asked|
      ensures s.asked[k].model == Gpt4oMini && ScoreFor(c.domain, c.context, todo[k - |asked|].1) == Ok(s.asked[k].prompt)
    {
      if k == |asked| {
        assert s.asked[k] == asked'[k];
      } else {
        assert todo[1..][k - |asked'|] == todo[k - |asked|];
      }
    }
  }

  /** Scoring changes no column but the score, and with url keys holding ':' it changes nothing: the
      integer id compared with such text never matches. */
  lemma {:induction false} ScoreAllOnlyScores(c: Ctx, env: Env, todo: seq<(Value, Value)>, jobs: seq<JobRow>, asked: seq<Question>)
    ensures var s := ScoreAll(c, env, todo, jobs, asked);
      && |s.jobs| == |jobs|
      && (forall i :: 0 <= i < |jobs| ==> s.jobs[i] == jobs[i].(score := s.jobs[i].score))
      && (UrlKeysOnly(todo) ==> s.jobs == jobs)
    decreases |todo|
  {
    if |todo| > 0 {
      match ScoreFor(c.domain, c.context, todo[0].1)
      case Err(e) =>
      case Ok(p) =>
        var asked' := asked + [Question(Gpt4oMini, p)];
        var score := FromOption(SearchForTag(env.llm(asked'), "answer"));
        var jobs' := Store.UpdateScore(jobs, todo[0].0, score);
        UpdateScoreOnlyScore(jobs, todo[0].0, score);
        ScoreAllOnlyScores(c, env, todo[1..], jobs', asked');
        if UrlKeysOnly(todo) {
          UpdateScoreWithUrlKey(jobs, todo[0].0.s, score);
          assert UrlKeysOnly(todo[1..]) by {
            forall k | 0 <= k < |todo[1..]| ensures todo[1..][k].0.Text? && ':' in todo[1..][k].0.s {
              assert todo[1..][k] == todo[k + 1];
            }
          }
        }
    }
  }

  class JobSearchAssistant {
    /** The `jobs` table, in rowid order. */
    var jobs: seq<JobRow>
    /** The `known_links` table, in rowid order. */
    var knownLinks: seq<LinkRow>
    /** The urls of the postings found during the crawl. */
    var jobsDescriptions: set<string>
    /** The <domain_of_interest> of the plan; None when the answer lacked the tag. */
    var domainOfInterest: Option<string>
    var jobSearchPlan: seq<string>
    var initialLinks: seq<SearchResult>
    /** Every question put to the model, in order. */
    var asked: seq<Question>
    const scraper: Scraper.Scraper
    /** `json.dumps` of the user's profile, and the wanted job as read from file. */
    const userContext: string
    const userWant: string
    const skipDomains: seq<string>
    const queryLimit: int
    /** The filter date, `YYYY/MM/DD`. */
    const date: string

    /** The constructor, for a date that passes its assertion (`weekAgo` is the default date the clock
        gives); the tables found on disk are `storedJobs`, `storedLinks` and `storedDomains`. */
    constructor (userContext: string, userWant: string, skipDomains: seq<string>, queryLimit: int,
                 date: string, weekAgo: string, scrapeApiKey: string,
                 storedJobs: seq<JobRow>, storedLinks: seq<LinkRow>, storedDomains: map<string, int>)
      requires ResolveDate(date, weekAgo).Ok?
      ensures this.date == ResolveDate(date, weekAgo).value && DateShaped(this.date)
      ensures jobs == storedJobs && knownLinks == storedLinks && jobsDescriptions == {}
      ensures domainOfInterest == Some("") && jobSearchPlan == [] && initialLinks == [] && asked == []
      ensures this.userContext == userContext && this.userWant == userWant
      ensures this.skipDomains == skipDomains && this.queryLimit == queryLimit
      ensures fresh(scraper) && scraper.config == Scraper.Config(scrapeApiKey, 1, 2, 2, Scraper.DEFAULT_HANDLED)
      ensures scraper.webdomains == storedDomains && scraper.sent == [] && scraper.slept == []
    {
      jobs := storedJobs;
      knownLinks := storedLinks;
      jobsDescriptions := {};
      domainOfInterest := Some("");
      jobSearchPlan := [];
      initialLinks := [];
      asked := [];
      scraper := new Scraper.Scraper(scrapeApiKey, 1, 2, 2, [], storedDomains);
      this.userContext := userContext;
      this.userWant := userWant;
      this.skipDomains := skipDomains;
      this.queryLimit := queryLimit;
      this.date := ResolveDate(date, weekAgo).value;
    }

    function Snapshot(): Tables
      reads this
    {
      Tables(jobs, knownLinks, asked, jobsDescriptions)
    }

    /** The settings the crawl reads. */
    function Settings(): Ctx
      reads this
    {
      Ctx(scraper.config, domainOfInterest, userWant, userContext, skipDomains)
    }

    /** The tables and the scraper's trace. */
    function Current(): World
      reads this, scraper
    {
      World(Snapshot(), scraper.State())
    }

    /** `query_llm` for one of the keys (each of which it accepts, `KeysAccepted`); the cost
        bookkeeping is not modelled. */
    method Ask(model: Model, prompt: Prompt, env: Env) returns (answer: string)
      modifies this`asked
      ensures asked == old(asked) + [Question(model, prompt)]
      ensures answer == env.llm(asked)
    {
      asked := asked + [Question(model, prompt)];
      answer := env.llm(asked);
    }

    /** `add_job`. */
    method AddJob(details: JobDetails, env: Env)
      modifies this`jobs
      ensures jobs == InsertJob(old(jobs), details, Stamp(env, |old(jobs)| + |old(knownLinks)|))
      ensures UniqueJobs(old(jobs)) ==> UniqueJobs(jobs)
    {
      var now := Stamp(env, |jobs| + |knownLinks|);
      if UniqueJobs(jobs) {
        InsertJobKeepsUnique(jobs, details, now);
      }
      jobs := InsertJob(jobs, details, now);
    }

    /** `update_score`. */
    method UpdateScore(key: Value, score: Value)
      modifies this`jobs
      ensures jobs == Store.UpdateScore(old(jobs), key, score)
    {
      jobs := Store.UpdateScore(jobs, key, score);
    }

    /** `update_job`; a statement SQLite refuses raises and changes nothing. */
    method UpdateJob(url: string, kwargs: seq<(Field, Value)>) returns (r: Result<()>)
      modifies this`jobs
      ensures match Store.UpdateJob(old(jobs), url, kwargs)
              case Ok(t) => r == Ok(()) && jobs == t
              case Err(e) => r == Err(e) && jobs == old(jobs)
    {
      match Store.UpdateJob(jobs, url, kwargs)
      case Ok(t) =>
        jobs := t;
        r := Ok(());
      case Err(e) =>
        r := Err(e);
    }

    /** `add_known_link`. */
    method AddKnownLink(url: string, isJobPage: bool, env: Env)
      modifies this`knownLinks
      ensures knownLinks == old(knownLinks) + [NewLinkRow(old(knownLinks), url, isJobPage, Stamp(env, |jobs| + |old(knownLinks)|))]
      ensures !KnownLink(old(knownLinks), url) ==>
        StoredVerdict(knownLinks, url) == Some(isJobPage) && (UniqueLinks(old(knownLinks)) ==> UniqueLinks(knownLinks))
    {
      var now := Stamp(env, |jobs| + |knownLinks|);
      if !KnownLink(knownLinks, url) {
        StoredVerdictAppend(knownLinks, [NewLinkRow(knownLinks, url, isJobPage, now)], url);
        if UniqueLinks(knownLinks) {
          AddLinkKeepsUnique(knownLinks, url, isJobPage, now);
        }
      }
      knownLinks := knownLinks + [NewLinkRow(knownLinks, url, isJobPage, now)];
    }

    /** `is_url_job_description`: the stored verdict, or the verdict of haiku's answer, recorded. */
    method IsUrlJobDescription(url: string, env: Env) returns (r: Result<bool>)
      modifies this`knownLinks, this`asked
      ensures var v := UrlVerdict(old(knownLinks), old(asked), url, env, |jobs|);
        r == v.r && knownLinks == v.links && asked == v.asked
    {
      if KnownLink(knownLinks, url) {
        return Ok(StoredVerdict(knownLinks, url).value);
      }
      var answer := Ask(Haiku, UrlPrompt(url), env);
      var tag := SearchForTag(answer, "answer");
      if tag.None? {
        return Err(AttributeError("'NoneType' object has no attribute 'replace'"));
      }
      var isJobPage := PageVerdict(tag.value);
      knownLinks := knownLinks + [NewLinkRow(knownLinks, url, isJobPage, Stamp(env, |jobs| + |knownLinks|))];
      r := Ok(isJobPage);
    }

    /** One anchor of `get_links`, with `s` the scan so far: the table and the questions move on by one
        step of the scan, and the anchor is kept when its url is now a known job page. */
    method VisitTarget(t: Target, env: Env, ghost s: Scan, ghost asked0: seq<Question>, ghost links0: seq<LinkRow>)
      returns (keep: bool)
      requires asked == asked0 + s.qs && knownLinks == links0 + s.rows
      modifies this`knownLinks, this`asked
      ensures var next := ScanStep(s, t, env, LinkVerdict, asked0, links0, |jobs|);
        asked == asked0 + next.qs && knownLinks == links0 + next.rows
      ensures keep == (StoredVerdict(knownLinks, t.url) == Some(true))
      ensures old(knownLinks) <= knownLinks
    {
      if KnownLink(knownLinks, t.url) {
        var val := StoredVerdict(knownLinks, t.url).value;
        keep := val;
      } else {
        ghost var table := knownLinks;
        var answer := Ask(Gpt4oMini, LinkPrompt(t.attrsJson), env);
        var isJobPage := LinkVerdict(answer);
        AddKnownLink(t.url, isJobPage, env);
        StoredVerdictAppend(table, [knownLinks[|table|]], t.url);
        assert asked0 + s.qs + [Question(Gpt4oMini, LinkPrompt(t.attrsJson))] == asked;
        keep := isJobPage;
      }
    }

    /** `get_links`: the questions and rows are those of the scan of the page's anchors, and the hrefs
        returned are those whose fixed url the table now marks as a job page, in anchor order. */
    method GetLinks(content: string, src: string, env: Env) returns (links: seq<string>)
      modifies this`knownLinks, this`asked
      ensures var s := ScanLinks(Targets(env.anchors(content), src), env, LinkVerdict, old(asked), old(knownLinks), |jobs|);
        asked == old(asked) + s.qs && knownLinks == old(knownLinks) + s.rows
      ensures links == Selected(Targets(env.anchors(content), src), knownLinks)
      ensures UniqueLinks(old(knownLinks)) ==> UniqueLinks(knownLinks)
    {
      var anchors := env.anchors(content);
      ghost var ts := Targets(anchors, src);
      ghost var links0 := knownLinks;
      ghost var asked0 := asked;
      links := [];
      for i := 0 to |anchors|
        invariant var s := ScanLinks(ts[..i], env, LinkVerdict, asked0, links0, |jobs|);
          asked == asked0 + s.qs && knownLinks == links0 + s.rows
        invariant links == Selected(ts[..i], knownLinks)
      {
        var link := anchors[i].href;
        var t := Target(link, Urls.FixUrl(link, src), anchors[i].attrsJson);
        assert t == ts[i];
        ghost var table := knownLinks;
        var keep := VisitTarget(t, env, ScanLinks(ts[..i], env, LinkVerdict, asked0, links0, |jobs|), asked0, links0);
        ScanLinksStep(ts, i, env, LinkVerdict, asked0, links0, |jobs|);
        SelectedStep(ts, i, env, LinkVerdict, asked0, links0, |jobs|, knownLinks);
        if keep {
          links := links + [link];
        }
      }
      assert ts[..|anchors|] == ts;
      ScanUnique(ts, env, LinkVerdict, asked0, links0, |jobs|);
    }

    /** `next_page_finder`: one question to sonnet and the test of its <result> tag. */
    method NextPageFinder(url: string, env: Env) returns (r: Result<Option<string>>)
      modifies this`asked
      ensures asked == old(asked) + [Question(Sonnet, NextPagePrompt(url))]
      ensures r == NextPageResult(SearchForTag(env.llm(asked), "result"), url)
    {
      var answer := Ask(Sonnet, NextPagePrompt(url), env);
      r := NextPageResult(SearchForTag(answer, "result"), url);
    }

    /** `format_text_to_markdown`: one question to haiku. */
    method FormatTextToMarkdown(text: string, env: Env) returns (r: Option<Formatted>)
      modifies this`asked
      ensures asked == old(asked) + [Question(Haiku, FormatterPrompt(text))]
      ensures r == FormatAnswer(env.llm(asked))
    {
      var answer := Ask(Haiku, FormatterPrompt(text), env);
      r := FormatAnswer(answer);
    }

    /** `is_job_relevant`: the six votes on one prompt and their mean against one half. */
    method IsJobRelevant(desc: Option<string>, env: Env) returns (r: Result<bool>)
      modifies this`asked
      ensures match RelevanceFor(domainOfInterest, userWant, userContext, desc)
              case Err(e) => r == Err(e) && asked == old(asked)
              case Ok(p) =>
                && asked == old(asked) + RelevanceQuestions(p)
                && r == Ok(Majority(Votes(Answers(env.llm, old(asked), RelevanceQuestions(p)))))
    {
      var prompt :- RelevanceFor(domainOfInterest, userWant, userContext, desc);
      var qs := RelevanceQuestions(prompt);
      var allRes: seq<int> := [];
      for k := 0 to |RELEVANCE_MODELS|
        invariant asked == old(asked) + qs[..k]
        invariant allRes == Votes(Answers(env.llm, old(asked), qs[..k]))
      {
        var answer := Ask(RELEVANCE_MODELS[k], prompt, env);
        assert qs[..k + 1] == qs[..k] + [qs[k]];
        AnswersSnoc(env.llm, old(asked), qs[..k], qs[k]);
        assert old(asked) + qs[..k] + [qs[k]] == asked;
        allRes := allRes + [Vote(answer)];
      }
      assert qs[..6] == qs;
      r := Ok(Majority(allRes));
    }

    /** `score_description`: one question to gpt-4o-mini unless the prompt cannot be built. */
    method ScoreDescription(desc: Value, env: Env) returns (r: Result<Value>)
      modifies this`asked
      ensures match ScoreFor(domainOfInterest, userContext, desc)
              case Err(e) => r == Err(e) && asked == old(asked)
              case Ok(p) =>
                && asked == old(asked) + [Question(Gpt4oMini, p)]
                && r == Ok(FromOption(SearchForTag(env.llm(asked), "answer")))
    {
      var prompt :- ScoreFor(domainOfInterest, userContext, desc);
      var answer := Ask(Gpt4oMini, prompt, env);
      r := Ok(FromOption(SearchForTag(answer, "answer")));
    }

    /** `score_jobs`: the pairs `get_jobs_to_score` lists, scored in turn (`ScoreAllAsks`,
        `ScoreAllOnlyScores`). */
    method ScoreJobs(env: Env) returns (r: Result<()>)
      modifies this`jobs, this`asked
      ensures var s := ScoreAll(Settings(), env, GetJobsToScore(old(jobs)), old(jobs), old(asked));
        jobs == s.jobs && asked == s.asked && r == s.r
    {
      var todo := GetJobsToScore(jobs);
      for i := 0 to |todo|
        invariant ScoreAll(Settings(), env, todo, old(jobs), old(asked)) == ScoreAll(Settings(), env, todo[i..], jobs, asked)
      {
        var (key, desc) := todo[i];
        assert todo[i..][1..] == todo[i + 1..];
        var score :- ScoreDescription(desc, env);
        UpdateScore(key, score);
      }
      r := Ok(());
    }

    /** The part of `process_job_description` after the fetch: the formatter question unless there is no
        text, then the relevance vote for an accepted posting; the record to store, or the TypeError. */
    method DescribeFetched(url: string, text: Option<string>, env: Env) returns (d: Result<JobDetails>)
      modifies this`asked
      ensures var described := DescribeJob(url, text, env.llm, old(asked), old(domainOfInterest), userWant, userContext);
        asked == old(asked) + described.0 && d == described.1
    {
      if text.None? {
        return Ok(EmptyJobResult(url));
      }
      ghost var asked0 := asked;
      var res := FormatTextToMarkdown(text.value, env);
      if res.None? {
        return Ok(EmptyJobResult(url));
      }
      ghost var fq := Question(Haiku, FormatterPrompt(text.value));
      assert asked == asked0 + [fq];
      var relevant :- IsJobRelevant(res.value.description, env);
      ghost var p := RelevanceFor(domainOfInterest, userWant, userContext, res.value.description).value;
      assert asked == asked0 + [fq] + RelevanceQuestions(p);
      d := Ok(FormattedDetails(res.value, url, relevant));
    }

    /** Describing the text of a fetched page and storing the record. */
    method DescribeAndStore(url: string, text: Option<string>, env: Env) returns (r: Result<()>)
      modifies this`jobs, this`asked
      ensures var f := StoreText(url, text, env.llm, old(jobs), old(asked), old(domainOfInterest), userWant,
                                 userContext, Stamp(env, |old(jobs)| + |old(knownLinks)|));
        asked == old(asked) + f.qs && (r, jobs) == (f.r, f.jobs)
    {
      ghost var jobs0, now := jobs, Stamp(env, |jobs| + |knownLinks|);
      var details := DescribeFetched(url, text, env);
      assert jobs == jobs0 && Stamp(env, |jobs| + |knownLinks|) == now;
      r := StoreDetails(details, env);
      StoreTextSplit(url, text, env.llm, jobs0, old(asked), old(domainOfInterest), userWant, userContext, now, details);
    }

    /** `add_job` on a described record; the exception instead leaves the table alone. */
    method StoreDetails(d: Result<JobDetails>, env: Env) returns (r: Result<()>)
      modifies this`jobs
      ensures (r, jobs) == StoreOutcome(old(jobs), d, Stamp(env, |old(jobs)| + |old(knownLinks)|))
    {
      if d.Err? {
        return Err(d.error);
      }
      AddJob(d.value, env);
      r := Ok(());
    }

    /** The part of `process_job_description` after the fetch. */
    method StoreFetchedPage(url: string, fetched: Result<Scraper.Content>, env: Env) returns (r: Result<()>)
      modifies this`jobs, this`asked
      ensures var f := StoreFetched(url, fetched, env, old(jobs), old(asked), old(domainOfInterest), userWant,
                                    userContext, Stamp(env, |old(jobs)| + |old(knownLinks)|));
        asked == old(asked) + f.qs && r == f.r && jobs == f.jobs
    {
      if fetched.Err? {
        return Err(fetched.error);
      }
      r := DescribeAndStore(url, ExtractJobContent(fetched.value, env.text), env);
    }

    /** `process_job_description`: nothing for a url already stored; otherwise fetch the page and store
        the record `DescribeJob` gives, the fetch failure or the TypeError leaving the table alone. */
    method ProcessJobDescription(url: string, env: Env) returns (r: Result<()>)
      modifies this`jobs, this`asked, scraper`sent, scraper`slept, scraper`webdomains
      ensures (Current(), r) == JobDescription(Settings(), env, url, old(Current()))
    {
      if HasJobUrl(jobs, Text(url)) {
        return Ok(());
      }
      r := FetchAndDescribe(url, env);
    }

    /** The fetch branch of `process_job_description`, for a url not stored yet. */
    method FetchAndDescribe(url: string, env: Env) returns (r: Result<()>)
      requires !HasJobUrl(jobs, Text(url))
      modifies this`jobs, this`asked, scraper`sent, scraper`slept, scraper`webdomains
      ensures (Current(), r) == JobDescription(Settings(), env, url, old(Current()))
    {
      ghost var w0, c := Current(), Settings();
      var fetched := scraper.RetryWithBackoff(url, 0, 0, env.net);
      ghost var s1 := scraper.State();
      ghost var now := Stamp(env, |jobs| + |knownLinks|);
      assert now == NowIn(env, w0) && jobs == w0.t.jobs && asked == w0.t.asked;
      r := StoreFetchedPage(url, fetched, env);
      JobDescriptionFetched(c, env, url, w0, s1, fetched, jobs, asked, r);
      assert knownLinks == w0.t.links && jobsDescriptions == w0.t.descs && scraper.State() == s1;
      assert Settings() == c;
    }

    /** `process_url` with at most `fuel` further pages (`CrawlGrows`, `CrawlKnows`). */
    method ProcessUrl(url: string, fuel: nat, env: Env) returns (r: Result<()>)
      modifies this`jobs, this`knownLinks, this`asked, this`jobsDescriptions
      modifies scraper`sent, scraper`slept, scraper`webdomains
      decreases fuel, 3
      ensures (Current(), r) == Crawl(Settings(), env, url, fuel, old(Current()))
    {
      if SkippedBy(skipDomains, url) {
        return Ok(());
      }
      var isJob := IsUrlJobDescription(url, env);
      if isJob.Err? {
        return Err(isJob.error);
      }
      if isJob.value {
        r := ProcessJobPage(url, env);
      } else {
        r := ProcessListing(url, fuel, env);
      }
    }

    /** The job page branch of `process_url`: the url joins the job descriptions and is processed. */
    method ProcessJobPage(url: string, env: Env) returns (r: Result<()>)
      modifies this`jobs, this`asked, this`jobsDescriptions
      modifies scraper`sent, scraper`slept, scraper`webdomains
      ensures (Current(), r) == JobPage(Settings(), env, url, old(Current()))
    {
      jobsDescriptions := jobsDescriptions + {url};
      r := ProcessJobDescription(url, env);
    }

    /** The listing branch of `process_url`: the page's job links are collected, then the next page. */
    method ProcessListing(url: string, fuel: nat, env: Env) returns (r: Result<()>)
      modifies this`jobs, this`knownLinks, this`asked, this`jobsDescriptions
      modifies scraper`sent, scraper`slept, scraper`webdomains
      decreases fuel, 2
      ensures (Current(), r) == Listing(Settings(), env, url, fuel, old(Current()))
    {
      var found := CollectJobLinks(url, env);
      if found.Err? {
        return Err(found.error);
      }
      r := FollowNextPage(url, fuel, env);
    }

    /** The end of `process_url` on a listing: the next page the model names is followed while `fuel`
        lasts (`NextPageStops`). */
    method FollowNextPage(url: string, fuel: nat, env: Env) returns (r: Result<()>)
      modifies this`jobs, this`knownLinks, this`asked, this`jobsDescriptions
      modifies scraper`sent, scraper`slept, scraper`webdomains
      decreases fuel, 1
      ensures (Current(), r) == NextPage(Settings(), env, url, fuel, old(Current()))
    {
      var next := NextPageFinder(url, env);
      r := FollowNext(next, fuel, env);
    }

    /** The next page, when there is one and `fuel` lasts, is processed in turn. */
    method FollowNext(next: Result<Option<string>>, fuel: nat, env: Env) returns (r: Result<()>)
      modifies this`jobs, this`knownLinks, this`asked, this`jobsDescriptions
      modifies scraper`sent, scraper`slept, scraper`webdomains
      decreases fuel, 0
      ensures (Current(), r) == Follow(Settings(), env, next, fuel, old(Current()))
    {
      if next.Err? {
        r := Err(next.error);
      } else if next.value.Some? && next.value.value != "" && fuel > 0 {
        ghost var c, w0 := Settings(), Current();
        r := ProcessUrl(next.value.value, fuel - 1, env);
        FollowCrawls(c, env, next, fuel, w0, Current(), r);
      } else {
        r := Ok(());
      }
    }

    /** The fetch of a listing and `get_links` on it; the links returned join the job descriptions
        (`CollectLinksSelects`). */
    method CollectJobLinks(url: string, env: Env) returns (r: Result<seq<string>>)
      modifies this`knownLinks, this`asked, this`jobsDescriptions
      modifies scraper`sent, scraper`slept, scraper`webdomains
      ensures (Current(), r) == CollectLinks(Settings(), env, url, old(Current()))
    {
      ghost var before := scraper.State();
      var content := scraper.RetryWithBackoff(url, 0, 0, env.net);
      if content.Err? {
        return Err(content.error);
      }
      Scraper.BackoffOutcome(scraper.config, env.net, url, 0, 0, before);
      var links := GetLinks(content.value.body, url, env);
      jobsDescriptions := jobsDescriptions + (set l | l in links);
      r := Ok(links);
    }

    /** `process_initial_links`: every initial link in turn, up to the first exception
        (`CrawlAllKnows`). */
    method ProcessInitialLinks(fuel: nat, env: Env) returns (r: Result<()>)
      modifies this`jobs, this`knownLinks, this`asked, this`jobsDescriptions
      modifies scraper`sent, scraper`slept, scraper`webdomains
      ensures (Current(), r) == CrawlAll(Settings(), env, initialLinks, fuel, old(Current()))
    {
      for i := 0 to |initialLinks|
        invariant CrawlAll(Settings(), env, initialLinks, fuel, old(Current()))
               == CrawlAll(Settings(), env, initialLinks[i..], fuel, Current())
      {
        assert initialLinks[i..][1..] == initialLinks[i + 1..];
        var done := ProcessUrl(initialLinks[i].link, fuel, env);
        if done.Err? {
          return Err(done.error);
        }
      }
      r := Ok(());
    }

    /** `process_descriptions`: `process_job_description` for each url `get_jobs_descriptions` lists,
        up to the first exception (`DescribeAllGrows`). */
    method ProcessDescriptions(day: string, env: Env) returns (r: Result<()>)
      modifies this`jobs, this`asked, scraper`sent, scraper`slept, scraper`webdomains
      ensures (Current(), r) == DescribeAll(Settings(), env, GetJobsDescriptions(knownLinks, day), old(Current()))
    {
      var todo := GetJobsDescriptions(knownLinks, day);
      for i := 0 to |todo|
        invariant DescribeAll(Settings(), env, todo, old(Current())) == DescribeAll(Settings(), env, todo[i..], Current())
      {
        assert todo[i..][1..] == todo[i + 1..];
        var done := ProcessJobDescription(todo[i], env);
        if done.Err? {
          return Err(done.error);
        }
      }
      r := Ok(());
    }

    /** `apply_job_search_plan`: nothing without a plan; otherwise the search results, first occurrence
        of each link, become the initial links, which are crawled before the stored job pages since
        the filter date are described (`ApplyGrows`). */
    method ApplyJobSearchPlan(fuel: nat, env: Env) returns (r: Result<()>)
      modifies this`jobs, this`knownLinks, this`asked, this`jobsDescriptions, this`initialLinks
      modifies scraper`sent, scraper`slept, scraper`webdomains
      ensures initialLinks == if jobSearchPlan == [] then old(initialLinks)
                              else KeepFirst(AllResults(jobSearchPlan, queryLimit, env.search))
      ensures (Current(), r) == Apply(Settings(), env, jobSearchPlan, queryLimit, date, fuel, old(Current()))
    {
      if jobSearchPlan == [] {
        return Ok(());
      }
      var all := CollectResults(jobSearchPlan, queryLimit, env.search);
      initialLinks := all;
      var done := ProcessInitialLinks(fuel, env);
      if done.Err? {
        return Err(done.error);
      }
      r := ProcessDescriptions(date, env);
    }

    /** `plan_job_search`: one question to gpt-4o-mini; the domain of interest is set from its answer
        even when the query list then fails to parse. */
    method PlanJobSearch(env: Env) returns (r: Result<seq<string>>)
      modifies this`asked, this`domainOfInterest, this`jobSearchPlan
      ensures asked == old(asked) + [Question(Gpt4oMini, PlanPrompt(userContext))]
      ensures domainOfInterest == SearchForTag(env.llm(asked), "domain_of_interest")
      ensures r == ParseQueryList(SearchForTag(env.llm(asked), "query_list"))
      ensures jobSearchPlan == if r.Ok? then r.value else old(jobSearchPlan)
    {
      var answer := Ask(Gpt4oMini, PlanPrompt(userContext), env);
      domainOfInterest := SearchForTag(answer, "domain_of_interest");
      r := ParseQueryList(SearchForTag(answer, "query_list"));
      if r.Ok? {
        jobSearchPlan := r.value;
      }
    }

    /** `run`: plan, then apply the plan under the domain of interest the plan's answer names; a plan
        that parses is never empty, so its search results always become the initial links. */
    method Run(fuel: nat, env: Env) returns (r: Result<()>)
      modifies this, scraper`sent, scraper`slept, scraper`webdomains
      ensures var q := Question(Gpt4oMini, PlanPrompt(userContext));
        var answer := env.llm(old(asked) + [q]);
        var plan := ParseQueryList(SearchForTag(answer, "query_list"));
        var planned := World(old(Snapshot()).(asked := old(asked) + [q]), old(scraper.State()));
        && domainOfInterest == SearchForTag(answer, "domain_of_interest")
        && (plan.Err? ==> && r == Err(plan.error) && Current() == planned
                          && jobSearchPlan == old(jobSearchPlan) && initialLinks == old(initialLinks))
        && (plan.Ok? ==> && jobSearchPlan == plan.value
                         && initialLinks == KeepFirst(AllResults(plan.value, queryLimit, env.search))
                         && (Current(), r) == Apply(Settings(), env, plan.value, queryLimit, date, fuel, planned))
    {
      var plan :- PlanJobSearch(env);
      r := ApplyJobSearchPlan(fuel, env);
    }
  }
}
