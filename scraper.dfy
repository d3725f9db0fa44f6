/** The resilient fetcher: direct attempts with exponential backoff, then the ScrapeOps proxy with a
    per-domain protection level that climbs on HTTP 500 and is remembered in the `webdomains` table. */
module Scraper {
  import opened Common
  import opened Strings
  import Urls

  /** A request the scraper sends: straight to the page, or to the proxy with its query parameters. */
  datatype Request = Direct(url: string) | Proxy(payload: seq<(string, string)>)

  /** What the HTTP client gives back: a response, or an exception it raised. */
  datatype Reply = Response(status: int, content: string) | NetError

  /** The network: the reply to the last request of the history of requests sent so far. */
  type Network = seq<Request> -> Reply

  /** What a fetch hands back: the empty list `[]` that `process_request` returns for a handled
      status, or a page body (the proxy's give-up value `""` is the empty page). */
  datatype Content = EmptyList | Page(body: string)

  /** The constructor's settings. */
  datatype Config = Config(apiKey: string, maxRetries: int, initialDelay: int, backoffFactor: int,
                           handled: seq<int>)

  /** Everything a fetch changes: the requests sent, the delays slept, the `webdomains` table. */
  datatype Trace = Trace(sent: seq<Request>, slept: seq<int>, levels: map<string, int>)

  const DEFAULT_HANDLED: seq<int> := [403, 404, 429, 500]

  /** Levels 0 to 3 are the ScrapeOps protection strengths; above that the proxy is not tried. */
  const MAX_LEVEL: int := 3

  /** The proxy's query parameters for `url` at protection `level` (`get_scrapeops_url`; the
      percent-encoding of `urlencode` is not modelled). */
  function Payload(apiKey: string, url: string, level: int): seq<(string, string)> {
    [("api_key", apiKey), ("url", url)]
      + (if level > 0 then [("bypass", "cloudflare_level_" + Decimal(level))] else [])
  }

  /** The proxy is always given the key and the URL; the `bypass` parameter is present exactly for a
      positive level, and names it. */
  lemma PayloadParams(apiKey: string, url: string, level: int)
    ensures var p := Payload(apiKey, url, level);
      && ("api_key", apiKey) in p && ("url", url) in p
      && ((exists v :: ("bypass", v) in p) <==> level > 0)
      && (level > 0 ==> ("bypass", "cloudflare_level_" + Decimal(level)) in p)
  {
    var p := Payload(apiKey, url, level);
    if level > 0 {
      assert p[2] == ("bypass", "cloudflare_level_" + Decimal(level));
    }
  }

  /** `process_request`'s status test: a handled status gives `(status, [])`, any other the body. */
  function Classify(status: int, content: string, handled: seq<int>): (r: (int, Content))
    ensures r.0 == status
    ensures r.1 == EmptyList <==> status in handled
    ensures status !in handled ==> r.1 == Page(content)
  {
    if status in handled then (status, EmptyList) else (status, Page(content))
  }

  /** `get_level` on a table: the stored level, None for a domain never stored. */
  function LevelOf(levels: map<string, int>, domain: string): (r: Option<int>)
    ensures r.None? <==> domain !in levels
    ensures r.Some? ==> r.value == levels[domain]
  {
    if domain in levels then Some(levels[domain]) else None
  }

  /** `get_level(domain) or 0`. */
  function StartLevel(levels: map<string, int>, domain: string): int {
    match LevelOf(levels, domain)
    case None => 0
    case Some(level) => level
  }

  /** `delay or self.initial_delay`, with 0 standing for None. */
  function EffectiveDelay(c: Config, delay: int): int {
    if delay == 0 then c.initialDelay else delay
  }

  /** The reply to the request `sent[k]`. */
  function ReplyAt(net: Network, sent: seq<Request>, k: int): Reply
    requires 0 <= k < |sent|
  {
    net(sent[..k + 1])
  }

  /** No reply to the requests `sent[from..]` was an exception. */
  predicate NoErrorsFrom(net: Network, sent: seq<Request>, from: nat) {
    forall k :: from <= k < |sent| ==> !ReplyAt(net, sent, k).NetError?
  }

  /** Some reply to the requests `sent[from..]` was an exception. */
  predicate SomeErrorFrom(net: Network, sent: seq<Request>, from: nat) {
    exists k :: from <= k < |sent| && ReplyAt(net, sent, k).NetError?
  }

  /** `request` is one the scraper may send while fetching `url`. */
  ghost predicate RequestFor(apiKey: string, url: string, request: Request) {
    request == Direct(url) || exists level :: request == Proxy(Payload(apiKey, url, level))
  }

  /** Number of direct (non-proxy) requests in a history. */
  function CountDirect(rs: seq<Request>): nat
    decreases |rs|
  {
    if |rs| == 0 then 0 else (if rs[0].Direct? then 1 else 0) + CountDirect(rs[1..])
  }

  /** `retry_with_scrapeops` on a trace. */
  function Ladder(c: Config, net: Network, url: string, t: Trace): (Trace, Result<Content>) {
    LadderAt(c, net, url, Urls.GetDomainName(url), t)
  }

  /** The proxy ladder for `url`, whose domain is `domain`: try the proxy at the domain's level; a 500
      stores the next level and tries again; above level 3 give up with "". A handled status gives "",
      any other the body. */
  function LadderAt(c: Config, net: Network, url: string, domain: string, t: Trace): (Trace, Result<Content>)
    decreases MAX_LEVEL + 1 - StartLevel(t.levels, domain)
  {
    var level := StartLevel(t.levels, domain);
    if level > MAX_LEVEL then (t, Ok(Page("")))
    else
      var t1 := t.(sent := t.sent + [Proxy(Payload(c.apiKey, url, level))]);
      match net(t1.sent)
      case NetError => (t1, Err(RequestError))
      case Response(status, content) =>
        if status == 500 then
          assert StartLevel(t1.levels[domain := level + 1], domain) == level + 1;
          LadderAt(c, net, url, domain, t1.(levels := t1.levels[domain := level + 1]))
        else (t1, Ok(if status in c.handled then Page("") else Page(content)))
  }

  function Rank(c: Config, retryCount: int): int {
    if retryCount < c.maxRetries then c.maxRetries - retryCount else 0
  }

  /** `retry_with_backoff` on a trace: while `retryCount < maxRetries`, a direct attempt; a handled
      status or an exception sleeps and retries with the delay times `backoffFactor`; then one more
      sleep and the proxy ladder. The retry after a handled status sits inside the `try`, so an
      exception escaping it is caught by this attempt, which sleeps and retries once more. */
  function Backoff(c: Config, net: Network, url: string, retryCount: int, delay: int, t: Trace)
    : (Trace, Result<Content>)
    decreases Rank(c, retryCount)
  {
    var d := EffectiveDelay(c, delay);
    if retryCount >= c.maxRetries then Ladder(c, net, url, t.(slept := t.slept + [d]))
    else
      var t1 := t.(sent := t.sent + [Direct(url)]);
      match net(t1.sent)
      case NetError => Backoff(c, net, url, retryCount + 1, d * c.backoffFactor, t1.(slept := t1.slept + [d]))
      case Response(status, content) =>
        if status !in c.handled then (t1, Ok(Page(content)))
        else
          var (t2, r2) := Backoff(c, net, url, retryCount + 1, d * c.backoffFactor, t1.(slept := t1.slept + [d]));
          if r2.Err? then Backoff(c, net, url, retryCount + 1, d * c.backoffFactor, t2.(slept := t2.slept + [d]))
          else (t2, r2)
  }

  class Scraper {
    const config: Config
    /** The `webdomains` table: domain (primary key) to protection level. */
    var webdomains: map<string, int>
    /** Every request sent, in order. */
    var sent: seq<Request>
    /** Every `time.sleep` delay, in order. */
    var slept: seq<int>

    /** `handled` stands for the constructor argument; an empty list or None selects the default.
        `stored` is the `webdomains` table found on disk. */
    constructor (apiKey: string, maxRetries: int, initialDelay: int, backoffFactor: int,
                 handled: seq<int>, stored: map<string, int>)
      ensures config == Config(apiKey, maxRetries, initialDelay, backoffFactor,
                               if handled == [] then DEFAULT_HANDLED else handled)
      ensures webdomains == stored && sent == [] && slept == []
    {
      config := Config(apiKey, maxRetries, initialDelay, backoffFactor,
                       if handled == [] then DEFAULT_HANDLED else handled);
      webdomains := stored;
      sent := [];
      slept := [];
    }

    function State(): Trace
      reads this
    {
      Trace(sent, slept, webdomains)
    }

    /** `get_level`. */
    function GetLevel(domain: string): Option<int>
      reads this
    {
      LevelOf(webdomains, domain)
    }

    /** `insert_or_update`: insert, or on a primary-key clash update the level. */
    method InsertOrUpdate(domain: string, level: int)
      modifies this`webdomains
      ensures GetLevel(domain) == Some(level)
      ensures forall d :: d != domain ==> GetLevel(d) == old(GetLevel(d))
      ensures webdomains == old(webdomains)[domain := level]
    {
      webdomains := webdomains[domain := level];
    }

    /** `process_request`: send the request, then classify the status. Err when the client raised. */
    method ProcessRequest(request: Request, net: Network) returns (r: Result<(int, Content)>)
      modifies this`sent
      ensures sent == old(sent) + [request]
      ensures r.Err? <==> net(sent).NetError?
      ensures r.Err? ==> r.error == RequestError
      ensures net(sent).Response? ==>
        r == Ok(Classify(net(sent).status, net(sent).content, config.handled))
    {
      sent := sent + [request];
      var reply := net(sent);
      match reply
      case NetError => r := Err(RequestError);
      case Response(status, content) => r := Ok(Classify(status, content, config.handled));
    }

    /** `retry_with_scrapeops`. */
    method RetryWithScrapeops(url: string, net: Network) returns (r: Result<Content>)
      modifies this`sent, this`webdomains
      decreases MAX_LEVEL + 1 - StartLevel(webdomains, Urls.GetDomainName(url))
      ensures (State(), r) == Ladder(config, net, url, old(State()))
    {
      var domain := Urls.GetDomainName(url);
      var level := StartLevel(webdomains, domain);
      if level > MAX_LEVEL {
        return Ok(Page(""));
      }
      var reply := ProcessRequest(Proxy(Payload(config.apiKey, url, level)), net);
      if reply.Err? {
        return Err(RequestError);
      }
      var (status, data) := reply.value;
      if status == 500 {
        InsertOrUpdate(domain, level + 1);
        assert StartLevel(webdomains, domain) == level + 1;
        r := RetryWithScrapeops(url, net);
        return;
      }
      r := Ok(if status in config.handled then Page("") else data);
    }

    /** `retry_with_backoff`; `delay` 0 stands for None. */
    method RetryWithBackoff(url: string, retryCount: int, delay: int, net: Network) returns (r: Result<Content>)
      modifies this`sent, this`webdomains, this`slept
      decreases Rank(config, retryCount)
      ensures State() == Backoff(config, net, url, retryCount, delay, old(State())).0
      ensures r == Backoff(config, net, url, retryCount, delay, old(State())).1
    {
      var d := EffectiveDelay(config, delay);
      if retryCount >= config.maxRetries {
        slept := slept + [d];
        r := RetryWithScrapeops(url, net);
        return;
      }
      var res := ProcessRequest(Direct(url), net);
      if res.Ok? && res.value.1 != EmptyList {
        return Ok(res.value.1);
      }
      slept := slept + [d];
      r := RetryWithBackoff(url, retryCount + 1, d * config.backoffFactor, net);
      if res.Ok? && r.Err? {
        // the nested call raised inside this attempt's `try`: its `except` branch retries once more
        slept := slept + [d];
        r := RetryWithBackoff(url, retryCount + 1, d * config.backoffFactor, net);
      }
    }
  }

  // ---------------------------------------------------------------------------------------------
  // Properties of the proxy ladder

  /** The ladder only appends requests, never sleeps, sends nothing and gives "" above level 3, and
      otherwise sends at least one request and at most one per level from the stored one up to 3. */
  lemma {:induction false} LadderPrefix(c: Config, net: Network, url: string, domain: string, t: Trace)
    ensures var (t', r) := LadderAt(c, net, url, domain, t);
      var start := StartLevel(t.levels, domain);
      && |t'.sent| >= |t.sent| && t'.sent[..|t.sent|] == t.sent && t'.slept == t.slept
      && (start > MAX_LEVEL ==> t' == t && r == Ok(Page("")))
      && (start <= MAX_LEVEL ==> 1 <= |t'.sent| - |t.sent| <= MAX_LEVEL + 1 - start)
    decreases MAX_LEVEL + 1 - StartLevel(t.levels, domain)
  {
    var level := StartLevel(t.levels, domain);
    if level <= MAX_LEVEL {
      var t1 := t.(sent := t.sent + [Proxy(Payload(c.apiKey, url, level))]);
      var reply := net(t1.sent);
      if reply.Response? && reply.status == 500 {
        var t2 := t1.(levels := t1.levels[domain := level + 1]);
        assert StartLevel(t2.levels, domain) == level + 1;
        LadderPrefix(c, net, url, domain, t2);
        var t' := LadderAt(c, net, url, domain, t2).0;
        assert t'.sent[..|t1.sent|] == t1.sent;
        assert t'.sent[..|t.sent|] == t1.sent[..|t.sent|];
      }
    }
  }

  /** The ladder sends consecutive proxy requests for `url`, from the stored level (or 0) upward, at
      least one and at most one per level up to 3; above level 3 it sends nothing and gives "". */
  lemma {:induction false} LadderRequests(c: Config, net: Network, url: string, domain: string, t: Trace)
    ensures var (t', r) := LadderAt(c, net, url, domain, t);
      var start := StartLevel(t.levels, domain);
      && |t'.sent| >= |t.sent| && t'.sent[..|t.sent|] == t.sent && t'.slept == t.slept
      && (start > MAX_LEVEL ==> t' == t && r == Ok(Page("")))
      && (start <= MAX_LEVEL ==> 1 <= |t'.sent| - |t.sent| <= MAX_LEVEL + 1 - start)
      && forall k :: |t.sent| <= k < |t'.sent| ==>
           t'.sent[k] == Proxy(Payload(c.apiKey, url, start + (k - |t.sent|)))
    decreases MAX_LEVEL + 1 - StartLevel(t.levels, domain)
  {
    LadderPrefix(c, net, url, domain, t);
    var level := StartLevel(t.levels, domain);
    if level <= MAX_LEVEL {
      var t1 := t.(sent := t.sent + [Proxy(Payload(c.apiKey, url, level))]);
      var reply := net(t1.sent);
      if reply.Response? && reply.status == 500 {
        var t2 := t1.(levels := t1.levels[domain := level + 1]);
        assert StartLevel(t2.levels, domain) == level + 1;
        LadderRequests(c, net, url, domain, t2);
        assert LadderAt(c, net, url, domain, t) == LadderAt(c, net, url, domain, t2);
      }
    }
  }

  /** Every reply of the ladder but the last was a 500; the last one decides the result, which is
      never the empty list; an exception on the last reply is the only way it fails. */
  lemma {:induction false} LadderReplies(c: Config, net: Network, url: string, domain: string, t: Trace)
    ensures var (t', r) := LadderAt(c, net, url, domain, t);
      && (forall k :: |t.sent| <= k < |t'.sent| - 1 ==>
            ReplyAt(net, t'.sent, k).Response? && ReplyAt(net, t'.sent, k).status == 500)
      && (|t'.sent| > |t.sent| ==>
            var last := net(t'.sent);
            && (last.NetError? ==> r == Err(RequestError))
            && (last.Response? && last.status != 500 ==>
                  r == Ok(if last.status in c.handled then Page("") else Page(last.content)))
            && (last.Response? && last.status == 500 ==> r == Ok(Page(""))))
      && (r.Err? ==> r == Err(RequestError) && |t'.sent| > |t.sent| && net(t'.sent).NetError?)
      && (r.Ok? ==> r.value.Page?)
    decreases MAX_LEVEL + 1 - StartLevel(t.levels, domain)
  {
    var level := StartLevel(t.levels, domain);
    if level <= MAX_LEVEL {
      var t1 := t.(sent := t.sent + [Proxy(Payload(c.apiKey, url, level))]);
      var reply := net(t1.sent);
      if reply.Response? && reply.status == 500 {
        var t2 := t1.(levels := t1.levels[domain := level + 1]);
        assert StartLevel(t2.levels, domain) == level + 1;
        LadderReplies(c, net, url, domain, t2);
        LadderPrefix(c, net, url, domain, t2);
        var (t', r) := LadderAt(c, net, url, domain, t2);
        forall k | |t.sent| <= k < |t'.sent| - 1
          ensures ReplyAt(net, t'.sent, k).Response? && ReplyAt(net, t'.sent, k).status == 500
        {
          if k == |t.sent| {
            assert t'.sent[..k + 1] == t1.sent;
          }
        }
        if |t'.sent| == |t1.sent| {
          assert t'.sent == t1.sent;
        }
      }
    }
  }

  /** A 500 that raised the level to `level + 1`, followed by `n` more requests, of which the last
      answered 500 when `last` is 1, leaves the level `level` plus the number of 500 replies. */
  lemma EscalatedOnce(levels: map<string, int>, domain: string, level: int, n: int, last: int, after: map<string, int>)
    requires n >= 0 && (last == 0 || last == 1) && (n == 0 ==> last == 1)
    requires var escalations := if n == 0 then 0 else n - 1 + last;
      && (escalations == 0 ==> after == levels[domain := level + 1])
      && (escalations > 0 ==> after == levels[domain := level + 1][domain := level + 1 + escalations])
    ensures n + last > 0 && after == levels[domain := level + n + last]
  {
    if n > 0 && n - 1 + last > 0 {
      assert levels[domain := level + 1][domain := level + n + last] == levels[domain := level + n + last];
    }
  }

  /** The table after the ladder: only the fetched URL's domain changes, and it ends at its starting
      level plus the number of 500 replies (unchanged when there was none). */
  lemma {:induction false} LadderLevels(c: Config, net: Network, url: string, domain: string, t: Trace)
    ensures var (t', r) := LadderAt(c, net, url, domain, t);
        var start := StartLevel(t.levels, domain);
      var n := |t'.sent| - |t.sent|;
      var escalations := if n <= 0 then 0
                         else n - 1 + (if net(t'.sent).Response? && net(t'.sent).status == 500 then 1 else 0);
      && n >= 0
      && (escalations == 0 ==> t'.levels == t.levels)
      && (escalations > 0 ==> t'.levels == t.levels[domain := start + escalations])
    decreases MAX_LEVEL + 1 - StartLevel(t.levels, domain)
  {
    var level := StartLevel(t.levels, domain);
    if level <= MAX_LEVEL {
      var t1 := t.(sent := t.sent + [Proxy(Payload(c.apiKey, url, level))]);
      var reply := net(t1.sent);
      if reply.Response? && reply.status == 500 {
        var t2 := t1.(levels := t1.levels[domain := level + 1]);
        assert StartLevel(t2.levels, domain) == level + 1;
        LadderLevels(c, net, url, domain, t2);
        LadderPrefix(c, net, url, domain, t2);
        assert LadderAt(c, net, url, domain, t) == LadderAt(c, net, url, domain, t2);
        var t' := LadderAt(c, net, url, domain, t2).0;
        if |t'.sent| == |t1.sent| {
          assert t'.sent == t1.sent;
        }
        EscalatedOnce(t.levels, domain, level, |t'.sent| - |t1.sent|,
                      if net(t'.sent).Response? && net(t'.sent).status == 500 then 1 else 0, t'.levels);
      }
    }
  }

  /** The stored level is never lowered, and no other domain's entry changes. */
  lemma LadderMonotone(c: Config, net: Network, url: string, domain: string, t: Trace)
    ensures var (t', r) := LadderAt(c, net, url, domain, t);
      && StartLevel(t'.levels, domain) >= StartLevel(t.levels, domain)
      && forall d :: d != domain ==> LevelOf(t'.levels, d) == LevelOf(t.levels, d)
  {
    LadderLevels(c, net, url, domain, t);
  }

  // ---------------------------------------------------------------------------------------------
  // Properties of the backoff loop

  lemma {:induction false} CountDirectAppend(a: seq<Request>, b: seq<Request>)
    ensures CountDirect(a + b) == CountDirect(a) + CountDirect(b)
    decreases |a|
  {
    if |a| == 0 {
      assert a + b == b;
    } else {
      assert (a + b)[1..] == a[1..] + b;
      CountDirectAppend(a[1..], b);
    }
  }

  /** A history whose new part is all proxy requests has no new direct request. */
  lemma {:induction false} ProxyOnly(before: seq<Request>, after: seq<Request>)
    requires |after| >= |before| && after[..|before|] == before
    requires forall k :: |before| <= k < |after| ==> after[k].Proxy?
    ensures CountDirect(after[|before|..]) == 0
    decreases |after| - |before|
  {
    if |after| > |before| {
      assert after[|before|..][1..] == after[|before| + 1..];
      ProxyOnly(after[..|before| + 1], after);
    }
  }

  /** A history extended by one direct request counts one more direct request from there. */
  lemma DirectStep(before: seq<Request>, after: seq<Request>, url: string)
    requires |after| >= |before| + 1 && after[..|before| + 1] == before + [Direct(url)]
    ensures CountDirect(after[|before|..]) == 1 + CountDirect(after[|before| + 1..])
  {
    assert after[|before|..][0] == Direct(url);
    assert after[|before|..][1..] == after[|before| + 1..];
  }

  /** Prefixes compose. */
  lemma Prefix<T>(a: seq<T>, b: seq<T>, c: seq<T>)
    requires |a| <= |b| && b[..|a|] == a
    requires |b| <= |c| && c[..|b|] == b
    ensures c[..|a|] == a
  {
    assert c[..|a|] == c[..|b|][..|a|];
  }

  /** An exception among the replies of a history stays one in any longer history, counted from earlier. */
  lemma ErrorExtends(net: Network, a: seq<Request>, b: seq<Request>, from: nat, from': nat)
    requires |a| <= |b| && b[..|a|] == a && from' <= from
    requires SomeErrorFrom(net, a, from)
    ensures SomeErrorFrom(net, b, from')
  {
    var k :| from <= k < |a| && ReplyAt(net, a, k).NetError?;
    assert b[..k + 1] == a[..k + 1];
    assert ReplyAt(net, b, k).NetError?;
  }

  /** A fetch only appends to the request history, and every request it sends is a direct or a proxy
      request for the URL. */
  lemma {:induction false} BackoffSent(c: Config, net: Network, url: string, retryCount: int, delay: int, t: Trace)
    ensures var (t', r) := Backoff(c, net, url, retryCount, delay, t);
      && |t'.sent| >= |t.sent| && t'.sent[..|t.sent|] == t.sent
      && forall k :: |t.sent| <= k < |t'.sent| ==> RequestFor(c.apiKey, url, t'.sent[k])
    decreases Rank(c, retryCount)
  {
    var d := EffectiveDelay(c, delay);
    var next := d * c.backoffFactor;
    if retryCount >= c.maxRetries {
      var t0 := t.(slept := t.slept + [d]);
      LadderRequests(c, net, url, Urls.GetDomainName(url), t0);
      var (t', r) := Ladder(c, net, url, t0);
      forall k | |t.sent| <= k < |t'.sent| ensures RequestFor(c.apiKey, url, t'.sent[k]) {
        var level := StartLevel(t0.levels, Urls.GetDomainName(url)) + (k - |t.sent|);
        assert t'.sent[k] == Proxy(Payload(c.apiKey, url, level));
      }
    } else {
      var t1 := t.(sent := t.sent + [Direct(url)]);
      var t1s := t1.(slept := t1.slept + [d]);
      var reply := net(t1.sent);
      if !(reply.Response? && reply.status !in c.handled) {
        BackoffSent(c, net, url, retryCount + 1, next, t1s);
        var (t2, r2) := Backoff(c, net, url, retryCount + 1, next, t1s);
        Prefix(t.sent, t1.sent, t2.sent);
        if reply.Response? && r2.Err? {
          var t2s := t2.(slept := t2.slept + [d]);
          BackoffSent(c, net, url, retryCount + 1, next, t2s);
          var (t3, r3) := Backoff(c, net, url, retryCount + 1, next, t2s);
          Prefix(t1.sent, t2.sent, t3.sent);
          Prefix(t.sent, t1.sent, t3.sent);
        }
      }
    }
  }

  /** A fetch only appends to the sleep history, and its first sleep, if any, is the effective delay. */
  lemma {:induction false} BackoffSlept(c: Config, net: Network, url: string, retryCount: int, delay: int, t: Trace)
    ensures var (t', r) := Backoff(c, net, url, retryCount, delay, t);
      && |t'.slept| >= |t.slept| && t'.slept[..|t.slept|] == t.slept
      && (|t'.slept| > |t.slept| ==> t'.slept[|t.slept|] == EffectiveDelay(c, delay))
    decreases Rank(c, retryCount)
  {
    var d := EffectiveDelay(c, delay);
    var next := d * c.backoffFactor;
    if retryCount >= c.maxRetries {
      LadderRequests(c, net, url, Urls.GetDomainName(url), t.(slept := t.slept + [d]));
    } else {
      var t1 := t.(sent := t.sent + [Direct(url)]);
      var t1s := t1.(slept := t1.slept + [d]);
      var reply := net(t1.sent);
      if !(reply.Response? && reply.status !in c.handled) {
        BackoffSlept(c, net, url, retryCount + 1, next, t1s);
        var (t2, r2) := Backoff(c, net, url, retryCount + 1, next, t1s);
        Prefix(t.slept, t1s.slept, t2.slept);
        assert t2.slept[|t.slept|] == t1s.slept[|t.slept|];
        if reply.Response? && r2.Err? {
          var t2s := t2.(slept := t2.slept + [d]);
          BackoffSlept(c, net, url, retryCount + 1, next, t2s);
          var (t3, r3) := Backoff(c, net, url, retryCount + 1, next, t2s);
          Prefix(t1s.slept, t2s.slept, t3.slept);
          Prefix(t.slept, t1s.slept, t3.slept);
          assert t3.slept[|t.slept|] == t1s.slept[|t.slept|];
        }
      }
    }
  }

  lemma BackoffTraces(c: Config, net: Network, url: string, retryCount: int, delay: int, t: Trace)
    ensures var (t', r) := Backoff(c, net, url, retryCount, delay, t);
      && |t'.sent| >= |t.sent| && t'.sent[..|t.sent|] == t.sent
      && |t'.slept| >= |t.slept| && t'.slept[..|t.slept|] == t.slept
      && (|t'.slept| > |t.slept| ==> t'.slept[|t.slept|] == EffectiveDelay(c, delay))
  {
    BackoffSent(c, net, url, retryCount, delay, t);
    BackoffSlept(c, net, url, retryCount, delay, t);
  }

  /** A fetch changes only the fetched URL's domain in the table, and never lowers its level. */
  lemma {:induction false} BackoffLevels(c: Config, net: Network, url: string, retryCount: int, delay: int, t: Trace)
    ensures var (t', r) := Backoff(c, net, url, retryCount, delay, t);
      var domain := Urls.GetDomainName(url);
      && StartLevel(t'.levels, domain) >= StartLevel(t.levels, domain)
      && forall d :: d != domain ==> LevelOf(t'.levels, d) == LevelOf(t.levels, d)
    decreases Rank(c, retryCount)
  {
    var d := EffectiveDelay(c, delay);
    if retryCount >= c.maxRetries {
      LadderMonotone(c, net, url, Urls.GetDomainName(url), t.(slept := t.slept + [d]));
    } else {
      var t1 := t.(sent := t.sent + [Direct(url)]);
      var t1s := t1.(slept := t1.slept + [d]);
      var reply := net(t1.sent);
      if !(reply.Response? && reply.status !in c.handled) {
        BackoffLevels(c, net, url, retryCount + 1, d * c.backoffFactor, t1s);
        var (t2, r2) := Backoff(c, net, url, retryCount + 1, d * c.backoffFactor, t1s);
        if reply.Response? && r2.Err? {
          BackoffLevels(c, net, url, retryCount + 1, d * c.backoffFactor, t2.(slept := t2.slept + [d]));
        }
      }
    }
  }

  /** A fetch never hands back the empty list, and it fails only when some reply was an exception. */
  lemma {:induction false} BackoffOutcome(c: Config, net: Network, url: string, retryCount: int, delay: int, t: Trace)
    ensures var (t', r) := Backoff(c, net, url, retryCount, delay, t);
      && (r.Ok? ==> r.value.Page?)
      && (r.Err? ==> r == Err(RequestError) && SomeErrorFrom(net, t'.sent, |t.sent|))
    decreases Rank(c, retryCount)
  {
    var d := EffectiveDelay(c, delay);
    if retryCount >= c.maxRetries {
      var t0 := t.(slept := t.slept + [d]);
      LadderReplies(c, net, url, Urls.GetDomainName(url), t0);
      var (t', r) := Ladder(c, net, url, t0);
      if r.Err? {
        assert t'.sent[..|t'.sent| - 1 + 1] == t'.sent;
        assert ReplyAt(net, t'.sent, |t'.sent| - 1).NetError?;
      }
    } else {
      var t1 := t.(sent := t.sent + [Direct(url)]);
      var t1s := t1.(slept := t1.slept + [d]);
      var reply := net(t1.sent);
      if !(reply.Response? && reply.status !in c.handled) {
        BackoffOutcome(c, net, url, retryCount + 1, d * c.backoffFactor, t1s);
        BackoffTraces(c, net, url, retryCount + 1, d * c.backoffFactor, t1s);
        var (t2, r2) := Backoff(c, net, url, retryCount + 1, d * c.backoffFactor, t1s);
        if reply.NetError? {
          assert t2.sent[..|t.sent| + 1] == t1.sent;
          assert ReplyAt(net, t2.sent, |t.sent|).NetError?;
        } else if r2.Err? {
          var t2s := t2.(slept := t2.slept + [d]);
          BackoffOutcome(c, net, url, retryCount + 1, d * c.backoffFactor, t2s);
          BackoffTraces(c, net, url, retryCount + 1, d * c.backoffFactor, t2s);
          var (t3, r3) := Backoff(c, net, url, retryCount + 1, d * c.backoffFactor, t2s);
          if r3.Err? {
            ErrorExtends(net, t3.sent, t3.sent, |t2s.sent|, |t.sent|);
          }
        }
      }
    }
  }

  /** A round that raises no exception and gets no reply outside `handled` is followed by the next round,
      one request and one sleep of the effective delay later. */
  lemma RetryIsNextRound(c: Config, net: Network, url: string, retryCount: int, delay: int, t: Trace)
    requires retryCount < c.maxRetries
    requires !(net(t.sent + [Direct(url)]).Response? && net(t.sent + [Direct(url)]).status !in c.handled)
    requires NoErrorsFrom(net, Backoff(c, net, url, retryCount, delay, t).0.sent, |t.sent|)
    ensures var d := EffectiveDelay(c, delay);
      var t1s := t.(sent := t.sent + [Direct(url)], slept := t.slept + [d]);
      && net(t1s.sent).Response?
      && Backoff(c, net, url, retryCount, delay, t) == Backoff(c, net, url, retryCount + 1, d * c.backoffFactor, t1s)
  {
    var d := EffectiveDelay(c, delay);
    var t1 := t.(sent := t.sent + [Direct(url)]);
    var t1s := t1.(slept := t1.slept + [d]);
    var reply := net(t1.sent);
    var (t', r) := Backoff(c, net, url, retryCount, delay, t);
    BackoffTraces(c, net, url, retryCount + 1, d * c.backoffFactor, t1s);
    BackoffOutcome(c, net, url, retryCount + 1, d * c.backoffFactor, t1s);
    var (t2, r2) := Backoff(c, net, url, retryCount + 1, d * c.backoffFactor, t1s);
    assert t'.sent[..|t.sent| + 1] == t1.sent by {
      if reply.Response? && r2.Err? {
        var t2s := t2.(slept := t2.slept + [d]);
        BackoffTraces(c, net, url, retryCount + 1, d * c.backoffFactor, t2s);
        Prefix(t1.sent, t2.sent, t'.sent);
      }
    }
    assert !ReplyAt(net, t'.sent, |t.sent|).NetError?;
    if r2.Err? {
      var t2s := t2.(slept := t2.slept + [d]);
      BackoffTraces(c, net, url, retryCount + 1, d * c.backoffFactor, t2s);
      ErrorExtends(net, t2.sent, t'.sent, |t1s.sent|, |t.sent|);
      assert false;
    }
  }

  /** Without exceptions the back-off loop sends at most one direct request per remaining round, and each
      sleep is the effective delay of the previous one times the factor. */
  lemma BackoffWithoutErrors(c: Config, net: Network, url: string, retryCount: int, delay: int, t: Trace)
    requires NoErrorsFrom(net, Backoff(c, net, url, retryCount, delay, t).0.sent, |t.sent|)
    ensures var (t', r) := Backoff(c, net, url, retryCount, delay, t);
      && |t'.sent| >= |t.sent|
      && CountDirect(t'.sent[|t.sent|..]) <= Rank(c, retryCount)
      && forall k :: |t.slept| <= k < |t'.slept| - 1 ==>
           t'.slept[k + 1] == EffectiveDelay(c, t'.slept[k] * c.backoffFactor)
  {
    BackoffDirectCount(c, net, url, retryCount, delay, t);
    BackoffDelayChain(c, net, url, retryCount, delay, t);
  }

  /** The direct-request half of `BackoffWithoutErrors`. */
  lemma {:induction false} BackoffDirectCount(c: Config, net: Network, url: string, retryCount: int, delay: int, t: Trace)
    requires NoErrorsFrom(net, Backoff(c, net, url, retryCount, delay, t).0.sent, |t.sent|)
    ensures var t' := Backoff(c, net, url, retryCount, delay, t).0;
      |t'.sent| >= |t.sent| && CountDirect(t'.sent[|t.sent|..]) <= Rank(c, retryCount)
    decreases Rank(c, retryCount)
  {
    var d := EffectiveDelay(c, delay);
    BackoffTraces(c, net, url, retryCount, delay, t);
    var t' := Backoff(c, net, url, retryCount, delay, t).0;
    if retryCount >= c.maxRetries {
      var t0 := t.(slept := t.slept + [d]);
      LadderRequests(c, net, url, Urls.GetDomainName(url), t0);
      ProxyOnly(t.sent, Ladder(c, net, url, t0).0.sent);
    } else if !(net(t.sent + [Direct(url)]).Response? && net(t.sent + [Direct(url)]).status !in c.handled) {
      var t1s := t.(sent := t.sent + [Direct(url)], slept := t.slept + [d]);
      RetryIsNextRound(c, net, url, retryCount, delay, t);
      BackoffTraces(c, net, url, retryCount + 1, d * c.backoffFactor, t1s);
      BackoffDirectCount(c, net, url, retryCount + 1, d * c.backoffFactor, t1s);
      DirectStep(t.sent, t'.sent, url);
    } else {
      assert t'.sent == t.sent + [Direct(url)];
      DirectStep(t.sent, t'.sent, url);
    }
  }

  /** The sleeping half of `BackoffWithoutErrors`. */
  lemma {:induction false} BackoffDelayChain(c: Config, net: Network, url: string, retryCount: int, delay: int, t: Trace)
    requires NoErrorsFrom(net, Backoff(c, net, url, retryCount, delay, t).0.sent, |t.sent|)
    ensures var t' := Backoff(c, net, url, retryCount, delay, t).0;
      forall k :: |t.slept| <= k < |t'.slept| - 1 ==>
        t'.slept[k + 1] == EffectiveDelay(c, t'.slept[k] * c.backoffFactor)
    decreases Rank(c, retryCount)
  {
    var d := EffectiveDelay(c, delay);
    var t' := Backoff(c, net, url, retryCount, delay, t).0;
    if retryCount >= c.maxRetries {
      var t0 := t.(slept := t.slept + [d]);
      LadderRequests(c, net, url, Urls.GetDomainName(url), t0);
    } else if !(net(t.sent + [Direct(url)]).Response? && net(t.sent + [Direct(url)]).status !in c.handled) {
      var t1s := t.(sent := t.sent + [Direct(url)], slept := t.slept + [d]);
      RetryIsNextRound(c, net, url, retryCount, delay, t);
      BackoffTraces(c, net, url, retryCount + 1, d * c.backoffFactor, t1s);
      BackoffDelayChain(c, net, url, retryCount + 1, d * c.backoffFactor, t1s);
    }
  }

  // ---------------------------------------------------------------------------------------------
  // An exception under a retry: the cap on direct attempts is exceeded

  /** A network on which every direct request gets 403 and every proxy request raises. */
  function ForbiddenThenRaising(h: seq<Request>): Reply {
    if |h| > 0 && h[|h| - 1].Direct? then Response(403, "") else NetError
  }

  /** Two direct attempts allowed, the default delays and handled statuses. */
  function TwoAttempts(): Config {
    Config("key", 2, 2, 2, DEFAULT_HANDLED)
  }

  /** The ladder sends one proxy request at level 0, which raises. */
  lemma LadderRaises(u: string, t: Trace)
    requires t.levels == map[]
    ensures Ladder(TwoAttempts(), ForbiddenThenRaising, u, t)
            == (t.(sent := t.sent + [Proxy(Payload("key", u, 0))]), Err(RequestError))
  {
    assert StartLevel(t.levels, Urls.GetDomainName(u)) == 0;
  }

  /** The last round: one sleep, then the ladder raises. */
  lemma LastRoundRaises(u: string, t: Trace)
    requires t.levels == map[]
    ensures Backoff(TwoAttempts(), ForbiddenThenRaising, u, 2, 8, t)
            == (t.(sent := t.sent + [Proxy(Payload("key", u, 0))], slept := t.slept + [8]), Err(RequestError))
  {
    LadderRaises(u, t.(slept := t.slept + [8]));
  }

  /** The second round: a 403, then the last round raises inside the `try` and is run once more. */
  lemma SecondRoundRaises(u: string, t: Trace)
    requires t.levels == map[]
    ensures var p := Proxy(Payload("key", u, 0));
      Backoff(TwoAttempts(), ForbiddenThenRaising, u, 1, 4, t)
      == (t.(sent := t.sent + [Direct(u), p, p], slept := t.slept + [4, 8, 4, 8]), Err(RequestError))
  {
    var p := Proxy(Payload("key", u, 0));
    var t1 := t.(sent := t.sent + [Direct(u)]);
    assert ForbiddenThenRaising(t1.sent) == Response(403, "");
    assert 403 in TwoAttempts().handled;
    var t1s := t1.(slept := t1.slept + [4]);
    LastRoundRaises(u, t1s);
    var t2 := t1s.(sent := t1s.sent + [p], slept := t1s.slept + [8]);
    LastRoundRaises(u, t2.(slept := t2.slept + [4]));
    assert t2.sent + [p] == t.sent + [Direct(u), p, p];
    assert t2.slept + [4] + [8] == t.slept + [4, 8, 4, 8];
  }

  /** The first round: a 403, then the second round raises inside the `try` and is run once more. */
  lemma FirstRoundRaises(u: string)
    ensures var d, p := Direct(u), Proxy(Payload("key", u, 0));
      Backoff(TwoAttempts(), ForbiddenThenRaising, u, 0, 0, Trace([], [], map[])).0.sent
      == [d, d, p, p, d, p, p]
  {
    var d, p := Direct(u), Proxy(Payload("key", u, 0));
    var t1s := Trace([d], [2], map[]);
    assert ForbiddenThenRaising(t1s.sent) == Response(403, "");
    assert 403 in TwoAttempts().handled;
    SecondRoundRaises(u, t1s);
    var t2 := Trace([d, d, p, p], [2, 4, 8, 4, 8], map[]);
    SecondRoundRaises(u, t2.(slept := t2.slept + [2]));
  }

  /** The cap on direct attempts does not survive an exception: with two attempts allowed, any page that
      answers 403 to every direct request while every proxy request raises gets a third direct attempt,
      because the exception raised under the second attempt is caught by the first one, which retries. */
  lemma NestedErrorRetriesAgain(u: string)
    ensures CountDirect(Backoff(TwoAttempts(), ForbiddenThenRaising, u, 0, 0, Trace([], [], map[])).0.sent)
            == 3 > TwoAttempts().maxRetries
  {
    var d, p := Direct(u), Proxy(Payload("key", u, 0));
    FirstRoundRaises(u);
    CountDirectAppend([d, d], [p, p, d, p, p]);
    CountDirectAppend([p, p], [d, p, p]);
    CountDirectAppend([d], [p, p]);
    assert CountDirect([d]) == 1 && CountDirect([p]) == 0 by {
      assert [d][1..] == [] && [p][1..] == [];
    }
    assert CountDirect([p, p]) == 0 by { assert [p, p][1..] == [p]; }
    assert CountDirect([d, d]) == 2 by { assert [d, d][1..] == [d]; }
    assert [d, d] + ([p, p] + ([d] + [p, p])) == [d, d, p, p, d, p, p];
  }
}
