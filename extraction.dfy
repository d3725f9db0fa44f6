/** The pure pieces of the assistant: reading the model's answers (query list, next page, formatted
    posting, relevance votes), the records built from them, the date check and result de-duplication. */
module Extraction {
  import opened Common
  import opened Strings
  import opened Store
  import opened Llm
  import opened Prompts
  import Scraper

  // ---------------------------------------------------------------------------------------------
  // plan_job_search: the <query_list> tag

  /** The characters `strip(' "')` removes from each query. */
  const QUERY_PAD: set<char> := {' ', '"'}

  /** The query list: no tag is an AttributeError (`None.replace`); nothing left once newlines are
      removed is the ValueError; otherwise the comma-separated pieces, each stripped of spaces and quotes. */
  function ParseQueryList(tag: Option<string>): (r: Result<seq<string>>)
    ensures tag.None? ==> r.Err? && r.error.AttributeError?
    ensures tag.Some? ==> (r.Err? <==> RemoveChar(tag.value, '\n') == "")
    ensures r.Err? && tag.Some? ==> r.error.ValueError?
    ensures r.Ok? ==> |r.value| >= 1 && forall k :: 0 <= k < |r.value| ==> QueryShaped(r.value[k])
  {
    match tag
    case None => Err(AttributeError("'NoneType' object has no attribute 'replace'"))
    case Some(t) =>
      var res := RemoveChar(t, '\n');
      if res == "" then Err(ValueError("Could not find <query_list> tag in job search plan."))
      else
        var parts := Split(res, ',');
        SplitPiecesFree(res, ',');
        SplitPiecesLack(res, ',', '\n');
        Ok(seq(|parts|, k requires 0 <= k < |parts| => StripFree(parts[k], QUERY_PAD, ',', '\n')))
  }

  /** A query as the parse leaves it: no comma, no newline, no space or quote at either end. */
  predicate QueryShaped(q: string) {
    ',' !in q && '\n' !in q && (|q| > 0 ==> q[0] !in QUERY_PAD && q[|q| - 1] !in QUERY_PAD)
  }

  /** `Strip`, for a string known to lack two characters; the result lacks them too. */
  function StripFree(s: string, cs: set<char>, a: char, b: char): (r: string)
    ensures r == Strip(s, cs)
    ensures a !in s && b !in s ==> a !in r && b !in r
    ensures |r| > 0 ==> r[0] !in cs && r[|r| - 1] !in cs
  {
    var t := TrimStart(s, cs);
    var r := TrimEnd(t, cs);
    assert r == s[|s| - |t|..][..|r|];
    assert forall x :: x in r ==> x in s;
    r
  }

  /** A character absent from the string is absent from every piece. */
  lemma {:induction false} SplitPiecesLack(s: string, c: char, x: char)
    requires x !in s
    ensures forall k :: 0 <= k < |Split(s, c)| ==> x !in Split(s, c)[k]
    decreases |s|
  {
    if |s| > 0 {
      SplitPiecesLack(s[1..], c, x);
    }
  }

  /** How the model is asked to write the list: each query in double quotes, separated by ", ". */
  function RenderQueries(qs: seq<string>): string
    requires |qs| >= 1
  {
    Join(QuotedPieces(qs), ',')
  }

  function QuotedPieces(qs: seq<string>): (ps: seq<string>)
    ensures |ps| == |qs|
    ensures forall k :: 0 <= k < |qs| ==> ps[k] == (if k == 0 then "\"" else " \"") + qs[k] + "\""
  {
    seq(|qs|, k requires 0 <= k < |qs| => (if k == 0 then "\"" else " \"") + qs[k] + "\"")
  }

  /** A character in none of the parts, other than the separator, is not in their join. */
  lemma {:induction false} JoinLacks(parts: seq<string>, c: char, x: char)
    requires |parts| >= 1 && x != c
    requires forall k :: 0 <= k < |parts| ==> x !in parts[k]
    ensures x !in Join(parts, c)
    decreases |parts|
  {
    if |parts| > 1 {
      JoinLacks(parts[1..], c, x);
      assert parts[0] + [c] + Join(parts[1..], c) == Join(parts, c);
    }
  }

  /** The rendered list has no newline, starts with a quote and splits back into its quoted pieces. */
  lemma RenderedPieces(qs: seq<string>)
    requires |qs| >= 1
    requires forall k :: 0 <= k < |qs| ==> QueryShaped(qs[k])
    ensures var s := RenderQueries(qs);
      RemoveChar(s, '\n') == s && s != "" && Split(s, ',') == QuotedPieces(qs)
  {
    var ps := QuotedPieces(qs);
    var s := RenderQueries(qs);
    forall k | 0 <= k < |ps| ensures ',' !in ps[k] && '\n' !in ps[k] {
      var pre := if k == 0 then "\"" else " \"";
      assert ps[k] == pre + qs[k] + "\"";
    }
    JoinLacks(ps, ',', '\n');
    RemoveAbsent(s, '\n');
    assert |s| > 0 by {
      if |ps| > 1 {
        assert s == ps[0] + [','] + Join(ps[1..], ',');
      }
    }
    SplitJoin(ps, ',');
  }

  /** Stripping spaces and quotes from a quoted piece gives the query back. */
  lemma StripQuoted(pre: string, q: string)
    requires pre == "\"" || pre == " \""
    requires QueryShaped(q)
    ensures Strip(pre + q + "\"", QUERY_PAD) == q
  {
    if |q| == 0 {
      StripPadded(pre + "\"", "", "", QUERY_PAD);
      assert pre + "\"" + "" + "" == pre + q + "\"";
    } else {
      StripPadded(pre, q, "\"", QUERY_PAD);
    }
  }

  /** The parse gives back a list written in the requested format, for queries with no comma, no
      newline and no space or quote at either end. */
  lemma ParseQueryRoundTrip(qs: seq<string>)
    requires |qs| >= 1
    requires forall k :: 0 <= k < |qs| ==> QueryShaped(qs[k])
    ensures ParseQueryList(Some(RenderQueries(qs))) == Ok(qs)
  {
    var ps := QuotedPieces(qs);
    var s := RenderQueries(qs);
    RenderedPieces(qs);
    var r := ParseQueryList(Some(s));
    assert r == Ok(seq(|ps|, k requires 0 <= k < |ps| => StripFree(ps[k], QUERY_PAD, ',', '\n')));
    forall k | 0 <= k < |qs| ensures r.value[k] == qs[k] {
      var pre := if k == 0 then "\"" else " \"";
      assert ps[k] == pre + qs[k] + "\"";
      StripQuoted(pre, qs[k]);
    }
    assert |r.value| == |qs|;
    assert r.value == qs;
  }

  // ---------------------------------------------------------------------------------------------
  // next_page_finder: the <result> tag

  /** The model's answer when a page has no next page. */
  const NO_NEXT_PAGE: string := "No \"next page\" link found on this page."

  /** The next page to crawl: no tag is an AttributeError (`None.strip`); the not-found sentence and
      the current url both mean no next page; anything else, stripped of whitespace, is the next page. */
  function NextPageResult(tag: Option<string>, url: string): (r: Result<Option<string>>)
    ensures r.Err? <==> tag.None?
    ensures r.Err? ==> r.error.AttributeError?
    ensures r.Ok? ==> (r.value.None? <==> Strip(tag.value, WHITESPACE) in {NO_NEXT_PAGE, url})
    ensures r.Ok? && r.value.Some? ==>
      var s := r.value.value;
      && s == Strip(tag.value, WHITESPACE)
      && s != url && s != NO_NEXT_PAGE && (|s| > 0 ==> s[0] !in WHITESPACE && s[|s| - 1] !in WHITESPACE)
  {
    match tag
    case None => Err(AttributeError("'NoneType' object has no attribute 'strip'"))
    case Some(t) =>
      var s := StripFree(t, WHITESPACE, ',', ',');
      Ok(if s == NO_NEXT_PAGE || s == url then None else Some(s))
  }

  /** Whitespace around the answer does not matter: a padded link to another page is followed, and
      a padded copy of the current url stops the pagination. */
  lemma NextPagePadded(pre: string, link: string, post: string, url: string)
    requires forall k :: 0 <= k < |pre| ==> pre[k] in WHITESPACE
    requires forall k :: 0 <= k < |post| ==> post[k] in WHITESPACE
    requires |link| > 0 && link[0] !in WHITESPACE && link[|link| - 1] !in WHITESPACE
    ensures NextPageResult(Some(pre + link + post), url) ==
            Ok(if link == url || link == NO_NEXT_PAGE then None else Some(link))
  {
    StripPadded(pre, link, post, WHITESPACE);
  }

  // ---------------------------------------------------------------------------------------------
  // format_text_to_markdown

  /** The five tags read from the formatter's answer. */
  datatype Formatted = Formatted(description: Option<string>, title: Option<string>,
                                 salary: Option<string>, location: Option<string>, company: Option<string>)

  /** The formatter's result: rejected exactly when the description or the title reads "None"
      (a membership test of the string in the pair, so a missing tag does not reject). */
  function FormatAnswer(answer: string): (r: Option<Formatted>)
    ensures r.None? <==> SearchForTag(answer, "formatted_job_description") == Some("None")
                         || SearchForTag(answer, "job_title") == Some("None")
    ensures r.Some? ==> r.value.description == SearchForTag(answer, "formatted_job_description")
                        && r.value.title == SearchForTag(answer, "job_title")
  {
    var desc := SearchForTag(answer, "formatted_job_description");
    var title := SearchForTag(answer, "job_title");
    if desc == Some("None") || title == Some("None") then None
    else Some(Formatted(desc, title, SearchForTag(answer, "salary"), SearchForTag(answer, "location"),
                        SearchForTag(answer, "company")))
  }

  /** Two tag blocks one after the other, the second tag starting with another letter than the first
      and not with '/', neither text holding '<': each search finds its own block. */
  lemma TwoTagsRendered(t1: string, v1: string, t2: string, v2: string, rest: string)
    requires |t1| > 0 && |t2| > 0 && '<' !in t1 && '<' !in v1 && '<' !in v2
    requires t2[0] != t1[0] && t2[0] != '/'
    ensures var block := Opening(t1) + v1 + Closing(t1);
      var answer := block + Opening(t2) + v2 + Closing(t2) + rest;
      SearchForTag(answer, t1) == Some(v1) && SearchForTag(answer, t2) == Some(v2)
  {
    var block := Opening(t1) + v1 + Closing(t1);
    var tail := Opening(t2) + v2 + Closing(t2) + rest;
    SearchForTagRendered("", t1, v1, tail);
    assert "" + Opening(t1) + v1 + Closing(t1) + tail == block + Opening(t2) + v2 + Closing(t2) + rest;
    TagBlockFollowers(t1, v1, t2[0]);
    SearchForTagAfter(block, t2, v2, rest);
  }

  /** An answer that writes the title and then the description, neither "None" nor holding '<', is
      accepted with those texts. */
  lemma FormatAnswerRendered(title: string, desc: string, rest: string)
    requires '<' !in desc && '<' !in title && desc != "None" && title != "None"
    ensures var answer := Opening("job_title") + title + Closing("job_title")
                          + Opening("formatted_job_description") + desc + Closing("formatted_job_description") + rest;
      var r := FormatAnswer(answer);
      r.Some? && r.value.title == Some(title) && r.value.description == Some(desc)
  {
    var t1 := "job_title";
    var t2 := "formatted_job_description";
    assert '<' !in t1;
    assert t2[0] == 'f' && t1[0] == 'j';
    TwoTagsRendered(t1, title, t2, desc, rest);
  }

  // ---------------------------------------------------------------------------------------------
  // is_job_relevant: six votes

  /** The six models asked, in order. */
  const RELEVANCE_MODELS: seq<Model> := [Sonnet, Sonnet, Sonnet, Gpt4oMini, Gpt4oMini, Gpt4oMini]

  /** The six relevance questions for one prompt: the same prompt, three times to sonnet, then three
      times to gpt-4o-mini. */
  function RelevanceQuestions(p: Prompt): (qs: seq<Question>)
    ensures |qs| == 6
    ensures forall k :: 0 <= k < 6 ==> qs[k].prompt == p && qs[k].model == (if k < 3 then Sonnet else Gpt4oMini)
  {
    seq(6, k requires 0 <= k < 6 => Question(RELEVANCE_MODELS[k], p))
  }

  /** One vote: 1 when the <answer> tag reads exactly "relevant", else 0 (a missing tag votes 0). */
  function Vote(answer: string): (v: int)
    ensures v == 1 <==> SearchForTag(answer, "answer") == Some("relevant")
    ensures v == 0 <==> SearchForTag(answer, "answer") != Some("relevant")
  {
    if SearchForTag(answer, "answer") == Some("relevant") then 1 else 0
  }

  function Votes(answers: seq<string>): (vs: seq<int>)
    ensures |vs| == |answers| && forall k :: 0 <= k < |answers| ==> vs[k] == Vote(answers[k])
  {
    seq(|answers|, k requires 0 <= k < |answers| => Vote(answers[k]))
  }

  function Sum(vs: seq<int>): int
    decreases |vs|
  {
    if |vs| == 0 then 0 else Sum(vs[..|vs| - 1]) + vs[|vs| - 1]
  }

  /** The number of answers voting "relevant". */
  function CountRelevant(answers: seq<string>): (n: nat)
    ensures n <= |answers|
    decreases |answers|
  {
    if |answers| == 0 then 0
    else CountRelevant(answers[..|answers| - 1]) + (if Vote(answers[|answers| - 1]) == 1 then 1 else 0)
  }

  /** The decision on a list of votes: their mean is at least one half. */
  function Majority(vs: seq<int>): bool {
    2 * Sum(vs) >= |vs|
  }

  /** Summing the votes counts the "relevant" answers. */
  lemma {:induction false} SumVotes(answers: seq<string>)
    ensures Sum(Votes(answers)) == CountRelevant(answers)
    decreases |answers|
  {
    if |answers| > 0 {
      var n := |answers| - 1;
      assert Votes(answers)[..n] == Votes(answers[..n]);
      SumVotes(answers[..n]);
    }
  }

  /** `np.mean(votes) >= 0.5` is the integer test `2 * sum >= count`. */
  lemma MajorityIsMean(vs: seq<int>)
    requires |vs| > 0
    ensures Majority(vs) <==> (Sum(vs) as real) / (|vs| as real) >= 0.5
  {
    var s := Sum(vs) as real;
    var n := |vs| as real;
    assert s / n * n == s;
    if s / n >= 0.5 {
      assert s >= 0.5 * n;
    }
    if 2.0 * s >= n {
      assert s / n >= 0.5 * n / n;
    }
  }

  /** Six answers decide "relevant" exactly when at least three of them say so; a 3-3 tie is relevant. */
  lemma RelevantIffThreeOfSix(answers: seq<string>)
    requires |answers| == 6
    ensures Majority(Votes(answers)) <==> CountRelevant(answers) >= 3
    ensures Majority(Votes(answers)) <==>
      (Sum(Votes(answers)) as real) / (|Votes(answers)| as real) >= 0.5
  {
    SumVotes(answers);
    MajorityIsMean(Votes(answers));
  }

  // ---------------------------------------------------------------------------------------------
  // process_job_description: the records handed to add_job

  /** `_create_empty_job_result`: the url with "No title", "No description" and not relevant. */
  function EmptyJobResult(url: string): (d: JobDetails)
    ensures Lookup(d, Url) == Text(url) && Lookup(d, Title) == Text("No title")
    ensures Lookup(d, Description) == Text("No description") && Lookup(d, IsRelevant) == FromBool(false)
    ensures forall f :: f !in {Url, Title, Description, IsRelevant} ==> Lookup(d, f) == Null
  {
    JobDetails(Some(FromBool(false)), Some(Text(url)), Some(Text("No title")), Some(Text("No description")),
               None, None, None, None, None, None)
  }

  /** The sentinel is stored exactly for a non-empty url not yet in the table; for the empty url,
      which `add_job` finds falsy, and for a stored one the table is unchanged. */
  lemma EmptyJobResultStored(jobs: seq<JobRow>, url: string, now: string)
    ensures var r := InsertJob(jobs, EmptyJobResult(url), now);
      if url != "" && !HasJobUrl(jobs, Text(url)) then
        |r| == |jobs| + 1 && r[..|jobs|] == jobs && r[|jobs|].url == Text(url)
        && r[|jobs|].title == Text("No title") && r[|jobs|].isRelevant == Int(0)
      else r == jobs
  {
    var d := EmptyJobResult(url);
    if url != "" && !HasJobUrl(jobs, Text(url)) {
      assert AddJobAccepts(jobs, d);
    } else {
      assert !AddJobAccepts(jobs, d);
    }
  }

  /** The formatter's fields plus the url and the relevance verdict, the `numpy.bool_` of the vote. */
  function FormattedDetails(f: Formatted, url: string, relevant: bool): (d: JobDetails)
    ensures Lookup(d, Url) == Text(url) && Lookup(d, IsRelevant) == NumpyBool(relevant)
    ensures Lookup(d, Title) == FromOption(f.title) && Lookup(d, Description) == FromOption(f.description)
    ensures Lookup(d, Salary) == FromOption(f.salary) && Lookup(d, Location) == FromOption(f.location)
    ensures Lookup(d, Company) == FromOption(f.company)
    ensures forall g :: g in {Score, IsValid, DocumentsPath, Date} ==> Lookup(d, g) == Null
  {
    JobDetails(Some(NumpyBool(relevant)), Some(Text(url)), Some(FromOption(f.title)),
               Some(FromOption(f.description)), None, None, None, Some(FromOption(f.location)),
               Some(FromOption(f.salary)), Some(FromOption(f.company)))
  }

  /** A formatted posting is stored exactly when it has a non-empty title and description and its url
      is new; a missing title or description tag (None) means it is not stored. */
  lemma FormattedStored(jobs: seq<JobRow>, f: Formatted, url: string, relevant: bool)
    ensures AddJobAccepts(jobs, FormattedDetails(f, url, relevant)) <==>
      url != "" && f.title.Some? && f.title.value != "" && f.description.Some? && f.description.value != ""
      && !HasJobUrl(jobs, Text(url))
  {
  }

  /** A posting stored with its vote never reaches `get_jobs_to_score`: the vote is bound as a BLOB,
      which `is_relevant = 1` does not match, whatever the vote said. */
  lemma VotedJobNeverScored(jobs: seq<JobRow>, f: Formatted, url: string, relevant: bool, now: string)
    ensures GetJobsToScore(InsertJob(jobs, FormattedDetails(f, url, relevant), now)) == GetJobsToScore(jobs)
  {
    var d := FormattedDetails(f, url, relevant);
    if AddJobAccepts(jobs, d) {
      var row := NewJobRow(NextRowId(JobIds(jobs)), d, now);
      NewJobRowFields(NextRowId(JobIds(jobs)), d, now, IsRelevant);
      RelevantJobsAppend(jobs, row);
      assert RelevantJobs(jobs + [row]) == RelevantJobs(jobs);
    }
  }

  /** `_extract_job_content`: nothing for a list, else the page's text. */
  function ExtractJobContent(content: Scraper.Content, text: string -> string): (r: Option<string>)
    ensures r.None? <==> content.EmptyList?
    ensures content.Page? ==> r == Some(text(content.body))
  {
    match content
    case EmptyList => None
    case Page(body) => Some(text(body))
  }

  // ---------------------------------------------------------------------------------------------
  // The filter date

  /** The constructor's date: the given one, or a week ago when it is empty, and then the assertion
      that it has ten characters with two '/'. */
  function ResolveDate(date: string, weekAgo: string): (r: Result<string>)
    ensures r.Ok? <==> DateShaped(if date == "" then weekAgo else date)
    ensures r.Ok? ==> r.value == (if date == "" then weekAgo else date)
    ensures r.Err? ==> r.error == AssertionError
  {
    var d := if date == "" then weekAgo else date;
    if |d| == 10 && Count(d, '/') == 2 then Ok(d) else Err(AssertionError)
  }

  predicate DateShaped(d: string) {
    |d| == 10 && Count(d, '/') == 2
  }

  lemma {:induction false} CountAppend(a: string, b: string, c: char)
    ensures Count(a + b, c) == Count(a, c) + Count(b, c)
    decreases |a|
  {
    if |a| > 0 {
      assert (a + b)[1..] == a[1..] + b;
      CountAppend(a[1..], b, c);
    } else {
      assert a + b == b;
    }
  }

  /** Zero-padded decimal digits of `n`, `width` of them. */
  function Digits(n: nat, width: nat): (r: string)
    ensures |r| == width && forall k :: 0 <= k < width ==> IsDigit(r[k])
    decreases width
  {
    if width == 0 then "" else Digits(n / 10, width - 1) + [DigitChar(n % 10)]
  }

  /** `strftime('%Y/%m/%d')` for a four-digit year. */
  function FormatDay(year: nat, month: nat, day: nat): string {
    Digits(year, 4) + "/" + Digits(month, 2) + "/" + Digits(day, 2)
  }

  lemma DigitsNoSlash(n: nat, width: nat)
    ensures Count(Digits(n, width), '/') == 0
  {
    var d := Digits(n, width);
    assert forall k :: 0 <= k < |d| ==> d[k] != '/';
  }

  /** The default date, a week ago as `strftime` writes it, passes the assertion. */
  lemma DefaultDatePasses(year: nat, month: nat, day: nat)
    ensures ResolveDate("", FormatDay(year, month, day)) == Ok(FormatDay(year, month, day))
  {
    var y := Digits(year, 4);
    var m := Digits(month, 2);
    var d := Digits(day, 2);
    DigitsNoSlash(year, 4);
    DigitsNoSlash(month, 2);
    DigitsNoSlash(day, 2);
    CountAppend(y, "/", '/');
    CountAppend(y + "/", m, '/');
    CountAppend(y + "/" + m, "/", '/');
    CountAppend(y + "/" + m + "/", d, '/');
  }

  /** A date given without any '/' (written with dashes, say) fails the assertion, whatever the default. */
  lemma SlashlessDateFails(date: string, weekAgo: string)
    requires date != "" && '/' !in date
    ensures ResolveDate(date, weekAgo) == Err(AssertionError)
  {
  }

  // ---------------------------------------------------------------------------------------------
  // apply_job_search_plan: search results, first occurrence of each link

  /** One result of `search_serper`: the organic hit's link and the query that found it. */
  datatype SearchResult = SearchResult(link: string, query: string)

  /** `search_serper(query, limit)` for each query in turn, concatenated. */
  function AllResults(queries: seq<string>, limit: int, search: (string, int) -> seq<SearchResult>)
    : seq<SearchResult>
    decreases |queries|
  {
    if |queries| == 0 then [] else AllResults(queries[..|queries| - 1], limit, search) + search(queries[|queries| - 1], limit)
  }

  predicate HasLink(rs: seq<SearchResult>, link: string) {
    exists j :: 0 <= j < |rs| && rs[j].link == link
  }

  /** Each result whose link has not been kept yet, in order. */
  function KeepFirst(rs: seq<SearchResult>): seq<SearchResult>
    decreases |rs|
  {
    if |rs| == 0 then []
    else
      var kept := KeepFirst(rs[..|rs| - 1]);
      if HasLink(kept, rs[|rs| - 1].link) then kept else kept + [rs[|rs| - 1]]
  }

  predicate DistinctLinks(rs: seq<SearchResult>) {
    forall i, j :: 0 <= i < j < |rs| ==> rs[i].link != rs[j].link
  }

  /** The kept results have distinct links. */
  lemma {:induction false} KeepFirstDistinctLinks(rs: seq<SearchResult>)
    ensures DistinctLinks(KeepFirst(rs))
    decreases |rs|
  {
    if |rs| > 0 {
      var n := |rs| - 1;
      var kept := KeepFirst(rs[..n]);
      KeepFirstDistinctLinks(rs[..n]);
      if !HasLink(kept, rs[n].link) {
        forall i, j | 0 <= i < j < |kept| + 1 ensures (kept + [rs[n]])[i].link != (kept + [rs[n]])[j].link {
          assert (kept + [rs[n]])[i] == kept[i];
        }
      }
    }
  }

  /** The kept results carry exactly the links of all the results. */
  lemma {:induction false} KeepFirstLinks(rs: seq<SearchResult>)
    ensures forall l :: HasLink(KeepFirst(rs), l) <==> HasLink(rs, l)
    decreases |rs|
  {
    if |rs| > 0 {
      var n := |rs| - 1;
      var init := rs[..n];
      var kept := KeepFirst(init);
      KeepFirstLinks(init);
      forall l ensures HasLink(KeepFirst(rs), l) <==> HasLink(rs, l) {
        if HasLink(init, l) {
          var j :| 0 <= j < |init| && init[j].link == l;
          assert rs[j].link == l;
        }
        if HasLink(rs, l) && l != rs[n].link {
          var j :| 0 <= j < |rs| && rs[j].link == l;
          assert init[j].link == l;
        }
        if HasLink(KeepFirst(rs), l) && !HasLink(kept, rs[n].link) {
          var j :| 0 <= j < |kept + [rs[n]]| && (kept + [rs[n]])[j].link == l;
          if j < |kept| {
            assert kept[j].link == l;
          }
        }
        if !HasLink(kept, rs[n].link) && l == rs[n].link {
          assert (kept + [rs[n]])[|kept|].link == l;
        }
        if HasLink(kept, l) {
          var j :| 0 <= j < |kept| && kept[j].link == l;
          if !HasLink(kept, rs[n].link) {
            assert (kept + [rs[n]])[j].link == l;
          }
        }
      }
    }
  }

  /** Each kept result is the first result with its link. */
  lemma {:induction false} KeepFirstFirsts(rs: seq<SearchResult>)
    ensures forall i :: 0 <= i < |KeepFirst(rs)| ==>
      exists j :: 0 <= j < |rs| && rs[j] == KeepFirst(rs)[i] && forall m :: 0 <= m < j ==> rs[m].link != rs[j].link
    decreases |rs|
  {
    if |rs| > 0 {
      var n := |rs| - 1;
      var init := rs[..n];
      var kept := KeepFirst(init);
      KeepFirstFirsts(init);
      KeepFirstLinks(init);
      forall i | 0 <= i < |KeepFirst(rs)|
        ensures exists j :: 0 <= j < |rs| && rs[j] == KeepFirst(rs)[i] && forall m :: 0 <= m < j ==> rs[m].link != rs[j].link
      {
        if i < |kept| {
          assert KeepFirst(rs)[i] == kept[i];
          var j :| 0 <= j < |init| && init[j] == kept[i] && forall m :: 0 <= m < j ==> init[m].link != init[j].link;
          assert rs[j] == init[j];
          assert forall m :: 0 <= m < j ==> rs[m] == init[m];
          assert 0 <= j < |rs| && rs[j] == KeepFirst(rs)[i] && forall m :: 0 <= m < j ==> rs[m].link != rs[j].link;
        } else {
          assert KeepFirst(rs)[i] == rs[n];
          forall m | 0 <= m < n ensures rs[m].link != rs[n].link {
            assert init[m] == rs[m];
            assert HasLink(init, rs[m].link);
          }
          assert 0 <= n < |rs| && rs[n] == KeepFirst(rs)[i] && forall m :: 0 <= m < n ==> rs[m].link != rs[n].link;
        }
      }
    } else {
      assert |KeepFirst(rs)| == 0;
    }
  }

  /** With distinct links nothing is dropped, so de-duplicating twice is de-duplicating once. */
  lemma {:induction false} KeepFirstDistinct(rs: seq<SearchResult>)
    requires DistinctLinks(rs)
    ensures KeepFirst(rs) == rs
    decreases |rs|
  {
    if |rs| > 0 {
      var n := |rs| - 1;
      var init := rs[..n];
      assert DistinctLinks(init) by {
        forall i, j | 0 <= i < j < |init| ensures init[i].link != init[j].link {
          assert init[i] == rs[i] && init[j] == rs[j];
        }
      }
      KeepFirstDistinct(init);
      assert !HasLink(init, rs[n].link) by {
        forall j | 0 <= j < |init| ensures init[j].link != rs[n].link {
          assert init[j] == rs[j];
        }
      }
      assert init + [rs[n]] == rs;
    }
  }

  lemma KeepFirstIdempotent(rs: seq<SearchResult>)
    ensures KeepFirst(KeepFirst(rs)) == KeepFirst(rs)
  {
    KeepFirstDistinctLinks(rs);
    KeepFirstDistinct(KeepFirst(rs));
  }

  /** `any(r['link'] == link for r in all_res)`. */
  method LinkPresent(all: seq<SearchResult>, link: string) returns (present: bool)
    ensures present == HasLink(all, link)
  {
    present := false;
    for j := 0 to |all|
      invariant present <==> exists m :: 0 <= m < j && all[m].link == link
    {
      if all[j].link == link {
        present := true;
      }
    }
  }

  /** The inner loop: the results of one query added to those kept so far. */
  method AbsorbResults(all: seq<SearchResult>, ghost before: seq<SearchResult>, res: seq<SearchResult>)
    returns (all': seq<SearchResult>)
    requires all == KeepFirst(before)
    ensures all' == KeepFirst(before + res)
  {
    all' := all;
    assert before + res[..0] == before;
    for k := 0 to |res|
      invariant all' == KeepFirst(before + res[..k])
    {
      var present := LinkPresent(all', res[k].link);
      assert (before + res[..k + 1])[..|before + res[..k + 1]| - 1] == before + res[..k];
      if !present {
        all' := all' + [res[k]];
      }
    }
    assert res[..|res|] == res;
  }

  /** The loop of `apply_job_search_plan` that gathers the initial links. */
  method CollectResults(queries: seq<string>, limit: int, search: (string, int) -> seq<SearchResult>)
    returns (all: seq<SearchResult>)
    ensures all == KeepFirst(AllResults(queries, limit, search))
  {
    all := [];
    for q := 0 to |queries|
      invariant all == KeepFirst(AllResults(queries[..q], limit, search))
    {
      assert queries[..q + 1][..q] == queries[..q];
      all := AbsorbResults(all, AllResults(queries[..q], limit, search), search(queries[q], limit));
    }
    assert queries[..|queries|] == queries;
  }
}
