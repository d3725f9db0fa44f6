# job_research: the crawl-and-store core, modelled in Dafny

This project models the core of `job_research`, a Python job-search assistant. A language model plans the
search queries. The assistant then crawls the search results: each page is classified as a job posting or a
listing. Listings are scanned for links to postings and followed to their next page. Postings are fetched,
formatted by the model, put to a six-model relevance vote and stored. Two SQLite tables hold the state:
`jobs` holds the postings and `known_links` caches every verdict on a URL. Pages are fetched by a scraper.
It makes direct attempts with exponential backoff, then falls back to the ScrapeOps proxy, whose protection
level climbs on HTTP 500 and is remembered per domain in a `webdomains` table.

The modules follow the three source files:

- `Common`: `Option`, `Result` and the Python exceptions that escape the modelled code (`AttributeError` on
  `None.replace`, `TypeError` from `str.replace(…, None)`, `ValueError`, a failed `assert`, an exception from the
  HTTP client).
- `Strings`: the parts of Python's `str` the code uses: `find`, `in`, `split`, `join`, `strip`,
  `replace` of one character, `count`, `str(n)`, and SQLite's text comparison.
- `Urls`: `urlparse(url).netloc`, `get_domain_name` and `fix_url`.
- `Llm`: `MODEL_NAMES`, the dispatch of `query_llm` and `search_for_tag`.
- `Prompts`: the questions put to the model. A question is the model key plus the template and its
  substituted values. The model itself is an oracle from the history of questions to the answer text, so six
  identical relevance questions can get six different answers.
- `Scraper`: the `Scraper` class. Its `webdomains` table is a `map`. The requests sent and the delays slept
  are traces. The network is an oracle from the history of requests to the reply.
- `Store`: the rows of `jobs` and `known_links` and the queries over them (`add_job`, `update_job`,
  `update_score`, `get_is_job_page`, `get_jobs_descriptions`, `get_jobs_to_score`).
- `Extraction`: the pure pieces of `main.py`:
  - the query-list parse and the result test of `next_page_finder`;
  - the formatter's "None" test and the relevance vote;
  - the sentinel record and the date assertion;
  - the de-duplication of search results.
- `Assistant`: the `JobSearchAssistant` class. The two tables, the questions asked and the set of job
  description URLs are its fields. Each crawl method (`process_url` and its two branches,
  `process_job_description`, `process_initial_links`, `process_descriptions`, `apply_job_search_plan`, `run`)
  ensures that its new state and result are those of a function of the old state (`Crawl`, `Listing`,
  `NextPage`, `JobDescription`, `CrawlAll`, `DescribeAll`, `Apply`). The lemmas about those functions state
  what the crawl promises: the tables only grow and keep one row per url, the urls gone through are known,
  and pagination stops at the current page.

Every oracle is a field of the `Env` parameter: the model, the network, the HTML parser's anchors and page
text, the Serper search and the clock. An exception raised by the modelled code, or by the HTTP client under
the scraper, is an `Err` result that leaves the state as the code leaves it when the exception propagates.
The model and Serper oracles always answer; the exceptions they can raise are listed under "Left out".

## Model

| member | source | states |
|---|---|---|
| Strings.FindSpec | job_research/llm.py:158-159 | `find` names the first occurrence of the pattern and finds nothing only when there is none |
| Strings.FindFromSpec | job_research/llm.py:158-159 | the search from an offset names the first occurrence at or after it, or there is none |
| Strings.Split | job_research/main.py:304 | `split` always gives at least one piece |
| Strings.SplitPiecesFree | job_research/main.py:304 | no piece of `split(',')` contains the separator |
| Strings.JoinSplit | job_research/main.py:372-373 | joining the pieces of a split with the same separator gives the string back |
| Strings.SplitJoin | job_research/main.py:372-373 | splitting a join of separator-free parts gives the parts back |
| Strings.JoinSuffix | job_research/main.py:373 | the join of the last parts of a list is a suffix of the join of all of them |
| Strings.TrimStartDrops | job_research/main.py:304 | every leading character `strip` drops is one of the stripped characters, and the first character kept is not |
| Strings.TrimEndDrops | job_research/main.py:304 | every trailing character `strip` drops is one of the stripped characters, and the last character kept is not |
| Strings.StripPadded | job_research/main.py:326 | a text whose two ends are outside the stripped set comes out of `strip` unchanged, whatever padding from the set surrounds it |
| Strings.RemoveChar | job_research/main.py:301 | `replace('\n', '')` keeps exactly the other characters and never lengthens the text |
| Strings.Count | job_research/main.py:95 | `count('/')` is at most the length, and zero exactly when the character is absent |
| Strings.PrefixLexLessEq | job_research/main.py:265 | a row stamped on the filter day itself (the day plus a time) passes `date >= day` |
| Strings.LexLessEqTotal | job_research/main.py:265 | the text comparison of dates is total |
| Strings.Decimal | job_research/scraper.py:94 | `str(level)` is a non-empty string of decimal digits |
| Strings.DecimalRoundTrip | job_research/scraper.py:94 | the level written into `cloudflare_level_{level}` reads back as the same number |
| Strings.Reverse | job_research/main.py:268 | `list.reverse()` keeps the length and puts element `k` at position `n - 1 - k` |
| Urls.AfterScheme | job_research/main.py:371 | what follows the URL scheme is a suffix of the URL |
| Urls.FirstOfSpec | job_research/main.py:371 | the network location ends at the first delimiter, and no delimiter comes before it |
| Urls.NetlocDelimiters | job_research/main.py:371 | the network location holds no '/', '?' or '#' |
| Urls.SanitizeSuffix | job_research/main.py:371 | for a URL without tab, carriage return or line feed, what `urlsplit` parses is a suffix of the URL |
| Urls.NetlocAt | job_research/main.py:371 | the network location is a slice of what `urlsplit` parses, and of the URL itself when it holds no tab, carriage return or line feed |
| Urls.LastTwoLabels | job_research/main.py:372-373 | the last two labels of a host with more than two split back into exactly those labels and occur at the end of the host |
| Urls.DomainNameLabels | job_research/main.py:371-374 | `get_domain_name` is the last two dot-labels when the host has more than two, and the host unchanged otherwise |
| Urls.DomainInUrl | job_research/main.py:387-389 | the domain of a URL occurs in what `urlsplit` parses, and in the URL itself when it holds no tab, carriage return or line feed, so `url_src.split(domain)[0]` then cuts at an occurrence |
| Urls.BeforeFirst | job_research/main.py:389 | `split(sep)[0]` is a prefix, and the whole text when the separator is absent |
| Urls.BeforeFirstEndsAtFirst | job_research/main.py:389 | when the separator occurs, `split(sep)[0]` ends exactly at its first occurrence |
| Urls.SuffixContained | job_research/main.py:388 | a suffix of an occurrence of the host occurs in the URL |
| Urls.WithDomainShape | job_research/main.py:388-389 | a link without the domain becomes the source URL up to the domain's first occurrence, then the domain, then the link |
| Urls.WithDomainCases | job_research/main.py:388-389 | `fix_url`'s body keeps a link naming the domain, and otherwise prefixes the source URL's part up to the domain |
| Urls.FixUrlShape | job_research/main.py:387-390 | `fix_url` returns the link unchanged when it contains the domain of the source URL; otherwise the source URL up to the end of the domain's first occurrence, then the link; and the whole source URL, the domain and the link when the domain does not occur in the source URL |
| Llm.Route | job_research/llm.py:119-129 | a key outside `MODEL_NAMES` is a `ValueError` naming it; any other key resolves to its `MODEL_NAMES` entry |
| Llm.QueryLlm | job_research/llm.py:103-129 | `query_llm` fails exactly for an unsupported key |
| Llm.KeysAccepted | job_research/llm.py:25-34 | every model key the assistant uses is accepted and routed to its family's provider |
| Llm.ClaudeRouting | job_research/llm.py:124-125 | opus, sonnet and haiku go to Claude with their dated model names |
| Llm.OpenAIRouting | job_research/llm.py:126-127 | gpt3.5, gpt4 and gpt-4o-mini go to OpenAI with their model names |
| Llm.OllamaRouting | job_research/llm.py:128-129 | both llama3 keys go to the local Ollama server |
| Llm.SearchForTagSomeIff | job_research/llm.py:158-163 | `search_for_tag` finds something exactly when some `<tag>` is followed by a `</tag>` |
| Llm.MatchIsFound | job_research/llm.py:158-161 | any opening tag followed by a closing tag makes the search succeed |
| Llm.FoundIsMatch | job_research/llm.py:158-163 | a successful search names an opening tag followed by a closing tag |
| Llm.SearchForTagIsLeftmostMatch | job_research/llm.py:158-161 | the result is the text of the leftmost match, ended by the nearest closing tag, as the non-greedy `re.search` picks it |
| Llm.SearchForTagFound | job_research/llm.py:158-161 | the text found never holds `</tag>`, and `<tag>` + text + `</tag>` occurs in the answer |
| Llm.SearchForTagRendered | job_research/llm.py:158-161 | an answer written as text, `<tag>v</tag>`, more text (no '<' before the tag or in `v`) gives `v` back |
| Llm.SearchForTagAfter | job_research/llm.py:158-161 | the same when other tags come first, none starting with the tag's first letter |
| Prompts.Answers | job_research/main.py:497-500 | the answers to a run of questions, one per question |
| Prompts.AnswersSnoc | job_research/main.py:497-501 | asking one more question appends its answer to the answers so far |
| Scraper.PayloadParams | job_research/scraper.py:92-96 | the proxy payload always carries the key and the URL, and a `bypass` parameter exactly for a positive level, `cloudflare_level_{level}` |
| Scraper.Classify | job_research/scraper.py:104-110 | a status in `handled_status_codes` gives `(status, [])`, any other status gives the content |
| Scraper.LevelOf | job_research/scraper.py:70-74 | `get_level` is None exactly for a domain never stored, and otherwise the stored level |
| Scraper.Scraper.constructor | job_research/scraper.py:34-55 | one direct attempt, delay 2, factor 2, statuses 403, 404, 429 and 500 unless others are given; the table as found on disk |
| Scraper.Scraper.InsertOrUpdate | job_research/scraper.py:62-68 | afterwards `get_level(domain)` is the new level and every other domain's level is unchanged |
| Scraper.Scraper.ProcessRequest | job_research/scraper.py:98-110 | one request is appended to the history; an exception from the client is an error, a reply is classified by its status |
| Scraper.Scraper.RetryWithScrapeops | job_research/scraper.py:112-130 | the table, the requests and the result are those of the ladder function `Ladder` on the old state, whose properties `LadderRequests`, `LadderReplies` and `LadderLevels` state |
| Scraper.Scraper.RetryWithBackoff | job_research/scraper.py:132-159 | the table, requests, sleeps and result are those of the back-off function `Backoff` on the old state, whose properties the `Backoff` lemmas state |
| Scraper.LadderPrefix | job_research/scraper.py:118-127 | the ladder only appends requests and never sleeps; above level 3 it sends nothing and returns "", otherwise it sends between 1 and `4 - start` requests |
| Scraper.LadderRequests | job_research/scraper.py:118-127 | the ladder sends proxy requests at consecutive levels from the stored one (or 0) upward, at most `4 - start` of them, so it terminates |
| Scraper.LadderReplies | job_research/scraper.py:124-130 | every proxy reply but the last was a 500; the last decides: "" for a handled status, the data otherwise, an error only for an exception |
| Scraper.LadderLevels | job_research/scraper.py:125-127 | only the fetched domain's entry changes, and it ends at the start level plus the number of 500 replies |
| Scraper.LadderMonotone | job_research/scraper.py:125-127 | the ladder never lowers a stored level and never changes another domain |
| Scraper.BackoffSent | job_research/scraper.py:138-159 | a fetch only appends requests, each a direct or a proxy request for the URL |
| Scraper.BackoffSlept | job_research/scraper.py:138-159 | a fetch only appends sleeps, and its first sleep is `delay or initial_delay` |
| Scraper.BackoffTraces | job_research/scraper.py:138-159 | a fetch extends both the request and the sleep traces, and sleeps `delay or initial_delay` first |
| Scraper.BackoffLevels | job_research/scraper.py:138-159 | a fetch changes only the fetched domain's level, and never lowers it |
| Scraper.BackoffOutcome | job_research/scraper.py:138-159 | a fetch never returns the empty list, and it fails only when some reply was an exception |
| Scraper.RetryIsNextRound | job_research/scraper.py:148-153 | a failed direct attempt followed by no exception is exactly the next round with the delay times `backoff_factor` |
| Scraper.BackoffWithoutErrors | job_research/scraper.py:138-153 | without exceptions there are at most `max_retries - retry_count` direct requests, and each sleep is the previous delay times `backoff_factor` |
| Scraper.NestedErrorRetriesAgain | job_research/scraper.py:145-159 | with `max_retries` 2, any page answering 403 while the proxy raises gets 3 direct attempts: the cap does not hold once an exception escapes a nested retry |
| Scraper.LadderRaises | job_research/scraper.py:118-123 | with no stored level, a proxy request that raises ends the ladder at once with the exception, after one request at level 0 |
| Scraper.LastRoundRaises | job_research/scraper.py:138-142 | the round at `max_retries` sleeps its delay once and hands over to the ladder, whose exception escapes |
| Scraper.SecondRoundRaises | job_research/scraper.py:145-159 | a 403 followed by a retry that raises is caught by the same round's `except`, which sleeps and retries once more: the requests and sleeps are listed exactly |
| Scraper.FirstRoundRaises | job_research/scraper.py:145-159 | from the first round, the requests sent are direct, direct, proxy, proxy, direct, proxy, proxy |
| Store.Set | job_research/main.py:203-207 | one `column = ?` assignment sets that column and keeps the id and every other column |
| Store.MaxIdIsMax | job_research/main.py:57 | the largest id is one of the ids and none exceeds it |
| Store.NextRowIdFresh | job_research/main.py:57 | the id SQLite gives a new row exceeds every id in the table; it is 1 in an empty table |
| Store.NewJobRowFields | job_research/main.py:151-171 | the inserted row holds the dict's value in every column but `date`, a missing key reading as NULL |
| Store.InsertJobOutcome | job_research/main.py:163-172 | `add_job` leaves the table unchanged when url, title or description is falsy or the url is present, and otherwise appends exactly one row with that url |
| Store.InsertJobKeepsUnique | job_research/main.py:163-172 | `add_job` keeps ids and urls unique |
| Store.AssignFields | job_research/main.py:203-207 | an assignment list sets exactly the columns it names, each to its last value, and keeps the id |
| Store.UpdateRows | job_research/main.py:206-207 | the rows with the url get the assignments and every other row stays as it was |
| Store.UpdateJobOnlyNamedFields | job_research/main.py:199-207 | `update_job` changes nothing for an absent url; otherwise only the named columns of the rows with that url change |
| Store.LiteralChars | job_research/main.py:187 | a numeric literal holds only digits, signs, '.', 'e' and 'E' |
| Store.NumericTextChars | job_research/main.py:187 | a text holding any other character than those or a SQLite space converts to no number under NUMERIC affinity |
| Store.IdKeyChars | job_research/main.py:187 | such a key matches no integer id in `WHERE id = ?` |
| Store.LeadingZeroKey | job_research/main.py:187 | NUMERIC affinity reads "05" as 5, so that key names id 5 |
| Store.PaddedRealKey | job_research/main.py:187 | NUMERIC affinity skips spaces and reads a sign and a zero fraction, so " +5.0 " names id 5 |
| Store.UrlKey | job_research/main.py:183 | TEXT affinity turns an integer key into its decimal text for `url = ?`, and leaves any other key as it is |
| Store.IntegerUrlKey | job_research/main.py:183 | the integer 5 is compared with the url column as the text "5" |
| Store.UpdateScoreOnlyScore | job_research/main.py:183-188 | `update_score` sets the score of exactly the rows whose id matches the key, and only when some row's url matches the key; every other row, and every other column, is unchanged |
| Store.UpdateScoreWithUrlKey | job_research/main.py:183-188 | a key holding ':' (a url, as `score_jobs` passes) matches no id, so the table is unchanged |
| Store.StoredVerdict | job_research/main.py:234-239 | `get_is_job_page` is None exactly for an unknown url |
| Store.StoredVerdictAppend | job_research/main.py:234-239 | appending rows never changes the verdict of a known url, and an unknown url takes its verdict from the rows added |
| Store.StoredVerdictPrefix | job_research/main.py:234-239 | once a url is known, a grown table still knows it with the same verdict |
| Store.AddLinkKeepsUnique | job_research/main.py:249-250 | inserting a url not yet known keeps one row per url and records the verdict |
| Store.JobPagesSinceMembers | job_research/main.py:265-267 | a url is selected exactly when some job-page row for it is dated no earlier than the day |
| Store.JobPagesSinceDistinct | job_research/main.py:265-267 | with one row per url, the selection lists each url once |
| Store.ReverseDistinct | job_research/main.py:268 | reversing keeps the list free of repeats |
| Store.GetJobsDescriptionsSpec | job_research/main.py:265-269 | `get_jobs_descriptions` lists each job-page url dated on or after the day, including one stamped on the day itself, and each once when the table has one row per url |
| Store.RelevantJobsAppend | job_research/main.py:278-280 | a row appended to the table adds its (url, description) pair at the end of the selection exactly when `is_relevant = 1` holds for it |
| Store.RelevantJobsMembers | job_research/main.py:278-280 | the selection is exactly the (url, description) pairs of the rows marked relevant |
| Store.GetJobsToScoreMembers | job_research/main.py:278-282 | the jobs to score are exactly the (url, description) pairs of the relevant rows |
| Extraction.ParseQueryList | job_research/main.py:301-307 | a missing tag is an AttributeError; nothing left after removing newlines is a ValueError; otherwise at least one query, each free of commas, newlines and surrounding spaces or quotes |
| Extraction.StripFree | job_research/main.py:304 | stripping keeps a character the text lacks out of the result, and leaves no stripped character at either end |
| Extraction.StripQuoted | job_research/main.py:304 | stripping spaces and quotes from a quoted query gives the query back |
| Extraction.RenderedPieces | job_research/main.py:301-304 | a list written as the plan prompt asks has no newline and splits into its quoted queries |
| Extraction.ParseQueryRoundTrip | job_research/main.py:301-304 | parsing a list written in the requested format gives back its queries |
| Extraction.NextPageResult | job_research/main.py:326-329 | a missing tag is an AttributeError; the stripped answer is no next page exactly when it is the not-found sentence or the current url, and otherwise the next page is the stripped answer, with no whitespace at either end |
| Extraction.NextPagePadded | job_research/main.py:326-329 | whitespace around the answer does not matter: a padded link to another page is that next page, and a padded copy of the current url or of the not-found sentence is no next page |
| Extraction.FormatAnswer | job_research/main.py:473-487 | the formatter's result is None exactly when the description or the title tag reads "None", and otherwise carries the tags read |
| Extraction.FormatAnswerRendered | job_research/main.py:473-479 | a well-formed answer with a real title and description is accepted with exactly those values |
| Extraction.RelevanceQuestions | job_research/main.py:490-498 | six questions with the same prompt, three to sonnet, then three to gpt-4o-mini |
| Extraction.Vote | job_research/main.py:500-501 | a vote is 1 exactly when the answer tag reads "relevant", and 0 otherwise, a missing tag included |
| Extraction.Votes | job_research/main.py:497-501 | one vote per answer, in order |
| Extraction.CountRelevant | job_research/main.py:501 | the number of "relevant" answers is at most the number of answers |
| Extraction.SumVotes | job_research/main.py:501-502 | the sum of the votes is the number of "relevant" answers |
| Extraction.MajorityIsMean | job_research/main.py:502-504 | the integer test `2 * sum >= count` is `np.mean(votes) >= 0.5` |
| Extraction.RelevantIffThreeOfSix | job_research/main.py:496-504 | six answers decide "relevant" exactly when at least three say so, so a 3-3 tie is relevant |
| Extraction.EmptyJobResult | job_research/main.py:541-548 | the sentinel carries the url, "No title", "No description", not relevant, and nothing else |
| Extraction.EmptyJobResultStored | job_research/main.py:569-580 | the sentinel for a non-empty url not yet stored is appended, with "No title" and relevance 0; for the empty url (an `href=""` anchor can reach it), which `add_job` finds falsy, or a url already stored, the table is unchanged |
| Extraction.FormattedDetails | job_research/main.py:576-577 | the stored record is the formatter's five fields plus the url, with `is_relevant` the `numpy.bool_` the vote returns and every other column NULL |
| Extraction.VotedJobNeverScored | job_research/main.py:278-282 | a posting stored with its vote never reaches `get_jobs_to_score`: the `numpy.bool_` is bound as a BLOB, which `is_relevant = 1` never matches |
| Extraction.TwoTagsRendered | job_research/llm.py:158-161 | for any two tag names that differ in their first character, the second not starting with '/', and texts holding no '<', an answer holding the two blocks one after the other gives each tag its own text back; the formatter's `job_title` and `formatted_job_description` searches (main.py:473-474) rely on it |
| Extraction.FormattedStored | job_research/main.py:163-168 | a formatted posting is stored exactly when its title and description are non-empty and its url is new |
| Extraction.ExtractJobContent | job_research/main.py:530-539 | no text exactly for a list, and otherwise the page's text |
| Extraction.ResolveDate | job_research/main.py:93-96 | the date is the given one, or a week ago when empty; it is kept exactly when it has 10 characters and two '/', and otherwise an AssertionError |
| Extraction.DefaultDatePasses | job_research/main.py:93-95 | the default date, written `%Y/%m/%d`, passes the assertion |
| Extraction.SlashlessDateFails | job_research/main.py:95 | a date given without any '/' fails the assertion |
| Extraction.KeepFirstDistinctLinks | job_research/main.py:598-604 | the kept results have distinct links |
| Extraction.KeepFirstLinks | job_research/main.py:598-604 | the kept results carry exactly the links of all the results |
| Extraction.KeepFirstFirsts | job_research/main.py:598-604 | each kept result is the first result with its link |
| Extraction.KeepFirstDistinct | job_research/main.py:598-604 | results with distinct links are all kept, in order |
| Extraction.KeepFirstIdempotent | job_research/main.py:598-604 | de-duplicating twice is de-duplicating once |
| Extraction.LinkPresent | job_research/main.py:602 | the `any(...)` loop answers whether some kept result has the link |
| Extraction.AbsorbResults | job_research/main.py:600-603 | the inner loop leaves exactly the first-occurrence results of everything seen so far |
| Extraction.CollectResults | job_research/main.py:597-604 | the gathered initial links are the first-occurrence de-duplication of all search results, in order |
| Assistant.Targets | job_research/main.py:409-414 | one target per anchor, each with its href and its fixed url |
| Assistant.SelectedMembers | job_research/main.py:415-433 | an href is returned exactly when some anchor carries it and its fixed url's verdict is true |
| Assistant.SelectedGrows | job_research/main.py:415-420 | rows added for other urls do not change the selection of targets already known |
| Assistant.ScanKnows | job_research/main.py:411-431 | after `get_links` every anchor's fixed url is known |
| Assistant.ScanCounts | job_research/main.py:421-431 | the scan asks one question per row it adds |
| Assistant.ScanRowsFresh | job_research/main.py:415-431 | each row the scan adds is for an anchor's fixed url that was not known before |
| Assistant.ScanVerdicts | job_research/main.py:426-431 | the verdict of each row added is read off the answer to its own question |
| Assistant.ScanNothingNew | job_research/main.py:415-420 | anchors whose urls are all known cause no question and no write |
| Assistant.ScanUnique | job_research/main.py:411-431 | the scan keeps `known_links` at one row per url |
| Assistant.RelevanceFor | job_research/main.py:490-493 | the relevance prompt is a TypeError exactly when the domain or the description is None |
| Assistant.ScoreFor | job_research/main.py:508-510 | the scoring prompt is a TypeError exactly when the domain is None or the description is not text |
| Assistant.DescribeJobSpec | job_research/main.py:567-578 | no question without text; otherwise the formatter question, then six votes only for an accepted format; the record carries the url; it is the sentinel exactly when there is no text or the formatter said "None" |
| Assistant.StoreText | job_research/main.py:572-580 | an exception while describing leaves the jobs table unchanged |
| Assistant.StoreFetched | job_research/main.py:566-580 | a failed fetch asks nothing and stores nothing; any exception leaves the jobs table unchanged |
| Assistant.StoreFetchedGrows | job_research/main.py:566-580 | after a fetch the jobs table is unchanged or gains exactly one row for the url, stays unique, and the questions are those of the description |
| Assistant.UrlVerdictRecorded | job_research/main.py:343-358 | the verdict returned is the one the table now holds for the url; the tables only grow and keep one row per url |
| Assistant.JobDescriptionGrows | job_research/main.py:550-580 | describing a url only grows the tables, by at most one job row, and writes no link and no job description |
| Assistant.CollectLinksGrows | job_research/main.py:449-451 | collecting a listing's links only grows the tables and writes no job row |
| Assistant.CollectLinksSelects | job_research/main.py:449-451 | after a successful collection the fetch gave a page, every anchor's fixed url is known, and the hrefs returned are exactly those whose fixed url is marked a job page, all now job descriptions |
| Assistant.CrawlGrows | job_research/main.py:437-457 | the crawl from one url only appends rows and questions, only adds job descriptions, and keeps one row per url in both tables |
| Assistant.ListingGrows | job_research/main.py:447-457 | the same for the listing branch |
| Assistant.NextPageGrows | job_research/main.py:452-457 | the same for the next-page step |
| Assistant.FollowGrows | job_research/main.py:455-457 | the same for following a next page |
| Assistant.CrawlKnows | job_research/main.py:437-446 | a url crawled without an exception outside a skipped domain is known afterwards, and among the job descriptions when marked a job page |
| Assistant.NextPageStops | job_research/main.py:326-329 | an answer naming the current url or the not-found sentence, padded with whitespace or not, asks sonnet once and visits nothing further |
| Assistant.CrawlAllKnows | job_research/main.py:459-462 | crawling the initial links only grows the tables, and on success every link outside a skipped domain is known |
| Assistant.DescribeAllGrows | job_research/main.py:582-588 | describing the listed urls only grows the tables, by at most one job row per url and no link row |
| Assistant.ApplyGrows | job_research/main.py:595-608 | applying a plan only grows the tables |
| Assistant.ScoreAllAsks | job_research/main.py:516-528 | scoring asks gpt-4o-mini one scoring question per pair, in order, up to the first pair whose prompt raises a TypeError; on success every pair was asked about |
| Assistant.ScoreAllOnlyScores | job_research/main.py:516-528 | scoring keeps the number of rows and every column but the score, and with url keys holding ':' it changes no row |
| Assistant.JobSearchAssistant.constructor | job_research/main.py:53-96 | the date that passed its assertion, the tables as found on disk, an empty plan and crawl state, and a scraper with the default settings |
| Assistant.JobSearchAssistant.Ask | job_research/main.py:103-116 | one question is appended to the history and its answer returned |
| Assistant.JobSearchAssistant.AddJob | job_research/main.py:142-173 | the table becomes `InsertJob` of the old one, stamped by the clock, and stays unique |
| Assistant.JobSearchAssistant.UpdateScore | job_research/main.py:175-189 | the table becomes `UpdateScore` of the old one |
| Assistant.JobSearchAssistant.UpdateJob | job_research/main.py:191-208 | the table becomes `UpdateJob` of the old one; a statement SQLite refuses changes nothing |
| Assistant.JobSearchAssistant.AddKnownLink | job_research/main.py:241-252 | exactly one row is appended; for a new url it records the verdict and keeps one row per url |
| Assistant.JobSearchAssistant.IsUrlJobDescription | job_research/main.py:331-358 | a known url returns its stored verdict with no question and no write; an unknown one asks haiku once and appends one row whose verdict is returned |
| Assistant.JobSearchAssistant.VisitTarget | job_research/main.py:412-434 | one anchor moves the scan on by one step, and it is kept exactly when the table marks its fixed url as a job page |
| Assistant.JobSearchAssistant.GetLinks | job_research/main.py:392-435 | the questions and rows are those of the scan of the page's anchors; the hrefs returned are the selected ones; the table keeps one row per url |
| Assistant.JobSearchAssistant.NextPageFinder | job_research/main.py:311-329 | one question to sonnet; a missing `<result>` tag is an AttributeError, the stripped tag is no next page when it is the not-found sentence or the current url, and the next page otherwise (`Extraction.NextPageResult`, `Extraction.NextPagePadded`) |
| Assistant.JobSearchAssistant.FormatTextToMarkdown | job_research/main.py:468-487 | one question to haiku, and the "None" test of its answer |
| Assistant.JobSearchAssistant.IsJobRelevant | job_research/main.py:489-504 | the six questions and the majority of their votes, or the TypeError raised before any question |
| Assistant.JobSearchAssistant.ScoreDescription | job_research/main.py:507-514 | one question to gpt-4o-mini and its `<answer>` tag, or the TypeError raised before the question |
| Assistant.JobSearchAssistant.ScoreJobs | job_research/main.py:516-528 | the new table, questions and result are `ScoreAll` of the old state on the pairs `get_jobs_to_score` lists (`ScoreAllAsks`, `ScoreAllOnlyScores`) |
| Assistant.JobSearchAssistant.DescribeFetched | job_research/main.py:567-578 | the questions and the record are those of `DescribeJob` on the old state |
| Assistant.JobSearchAssistant.DescribeAndStore | job_research/main.py:567-580 | the questions, outcome and table are those of `StoreText` on the old state |
| Assistant.JobSearchAssistant.StoreDetails | job_research/main.py:580 | `add_job` on the record, or the exception with the table unchanged |
| Assistant.JobSearchAssistant.StoreFetchedPage | job_research/main.py:567-580 | the questions, outcome and table are those of `StoreFetched` on the old state |
| Assistant.JobSearchAssistant.FetchAndDescribe | job_research/main.py:566-580 | for a url not stored yet: the scraper's state is that of the back-off fetch, and the tables, questions and result are those of `StoreFetched` on what it returned, as `JobDescription` gives them |
| Assistant.JobSearchAssistant.ProcessJobDescription | job_research/main.py:550-580 | the new state and result are `JobDescription` of the old state: a url already stored changes nothing and asks nothing, otherwise a fetch and `StoreFetched` (`JobDescriptionGrows`) |
| Assistant.JobSearchAssistant.ProcessUrl | job_research/main.py:437-457 | the new state and result are `Crawl` of the old state: a skipped domain changes nothing, otherwise the verdict, then the job page or the listing branch (`CrawlGrows`, `CrawlKnows`) |
| Assistant.JobSearchAssistant.ProcessJobPage | job_research/main.py:443-446 | the url joins the job descriptions, then `JobDescription` of that state |
| Assistant.JobSearchAssistant.ProcessListing | job_research/main.py:447-457 | the new state and result are `Listing` of the old state: the links collected, then the next page unless the fetch raised |
| Assistant.JobSearchAssistant.CollectJobLinks | job_research/main.py:449-451 | the new state and result are `CollectLinks` of the old state (`CollectLinksGrows`, `CollectLinksSelects`) |
| Assistant.JobSearchAssistant.FollowNextPage | job_research/main.py:452-457 | the new state and result are `NextPage` of the old state: one question to sonnet, then its answer followed (`NextPageStops`) |
| Assistant.JobSearchAssistant.FollowNext | job_research/main.py:455-457 | an exception from the answer's test escapes; a next page is processed while `fuel` lasts; no next page ends the listing |
| Assistant.JobSearchAssistant.ProcessInitialLinks | job_research/main.py:459-462 | the new state and result are `CrawlAll` of the old state on the initial links (`CrawlAllKnows`) |
| Assistant.JobSearchAssistant.ProcessDescriptions | job_research/main.py:582-593 | the new state and result are `DescribeAll` of the old state on the urls `get_jobs_descriptions` lists (`DescribeAllGrows`) |
| Assistant.JobSearchAssistant.ApplyJobSearchPlan | job_research/main.py:595-608 | no plan changes nothing; otherwise the initial links are the de-duplicated search results, and the new state and result are `Apply` of the old state (`ApplyGrows`) |
| Assistant.JobSearchAssistant.PlanJobSearch | job_research/main.py:285-309 | one question to gpt-4o-mini; the domain is its tag; the plan is the parsed query list, kept only when it parses |
| Assistant.JobSearchAssistant.Run | job_research/main.py:908-910 | one planning question to gpt-4o-mini and the domain its answer names; a plan that does not parse raises with nothing else changed; otherwise the plan and the de-duplicated initial links are set, and the new state and result are `Apply` of the planned state (`ApplyGrows`) |

Some behaviours of the code are easy to misread; the model follows the code:

- A fetch never yields "no text". `retry_with_backoff` returns page content or raises; it never returns the
  empty list (`Scraper.BackoffOutcome`). When the ladder gives up, it returns `""`. So `_extract_job_content`
  always returns text, and an empty page is put to the formatter. It is not stored as the sentinel directly.
  The sentinel appears only when the formatter answers "None" (`Assistant.DescribeJobSpec`).
- An exception from the proxy ladder, or one raised under a nested retry, escapes the fetcher. It becomes an
  error of `process_job_description` and of `process_url`, not empty content.
- Listing pages are fetched again on every visit. There is no visited set, and the next-page recursion is
  guarded only against a page naming itself (`Extraction.NextPageResult`). `Assistant.JobSearchAssistant.ProcessUrl`
  takes a `fuel` bound instead of a cycle guard.
- `update_score` tests the url column but updates `WHERE id = ?`, and `score_jobs` passes a url as the id.
  So no score is written for a url holding ':' (`Store.UpdateScoreWithUrlKey`, `Assistant.ScoreAllOnlyScores`).
  Besides, the vote is stored as a `numpy.bool_`, which SQLite binds as a BLOB, so no voted posting is ever
  selected for scoring (`Extraction.VotedJobNeverScored`).
- `known_links` has no uniqueness constraint. One row per url is kept by the callers, and the model proves it
  for `is_url_job_description`, `get_links` and the whole crawl (the `Grows` invariant).

## Left out

- The model, network, HTML parser, Serper search and clock are oracles in `Env`. The Anthropic, OpenAI and
  Ollama clients are one function of the provider, the model name and the question. The Claude overload
  retry loop and the token counts are not modelled.
- Cost accounting (`self.cost`, `calculate_subagent_cost`, `MODEL_PRICING`) is left out because it is
  floating-point bookkeeping; `np.mean` is replaced by the integer test proved equal to it (`Extraction.MajorityIsMean`).
- SQLite is replaced by sequences of rows. SQL text, commits and the f-string query of `update_job` are not
  modelled. An empty `kwargs` becomes the error SQLite raises. Text comparison is by code point, as SQLite's
  BINARY collation compares.
- `time.sleep` is recorded as a trace of delays. Logging, printing and `verbose_print` are left out, and so
  are the random user agent and the empty proxy pool, which select the same request.
- `urlencode`'s percent-encoding of the proxy payload is left out; the payload is a list of key/value pairs.
- `urlparse` is modelled for the netloc only: the leading C0 and space strip and the tab, carriage-return and
  line-feed removal, the scheme test, "//" and the first '/', '?' or '#'. Square-bracket IPv6 hosts and their
  validation, and the NFKC check `_checknetloc` applies to non-ASCII hosts, are not modelled.
- The `numpy.bool_` of the vote is a value of its own kind, which SQLite stores as a one-byte BLOB that
  equals no integer and no text; the bytes themselves are not modelled.
- SQLite's conversion of a numeric text to a REAL is exact in the model; the rounding to a double is not
  modelled, so two texts naming the same real up to rounding are told apart.
- The model and Serper oracles never raise. In the code, `_query_claude` raises after three overloads
  (llm.py:77), a missing API key raises `KeyError` (llm.py:55, llm.py:82), `search_for_tag` raises on a
  response that is None (llm.py:159), and `search_serper` returning its error dict makes `result['link']`
  fail (main.py:600-601); none of these exceptions is modelled.
- Prompt templates are named by their substituted values; their text (`prompts.py`) is not part of this model.
  `json.dumps` of the user profile and of an anchor's attributes is a given string.
- Document generation (cover letter, resume, LaTeX), `create_outputs_*`, `prompt_formatter`,
  `save_to_csv`, `__del__` and the commented-out thread pools are outside the modelled core.
- Assistant.JobSearchAssistant.ProcessUrl: the next-page recursion is bounded by `fuel`; when the fuel runs
  out, the model stops following next pages where the code would go on.
- Scraper.BackoffWithoutErrors: the cap of `max_retries` direct attempts is proved only for runs in which no
  reply is an exception, because the code as written exceeds it otherwise (`Scraper.NestedErrorRetriesAgain`).
