/** Host extraction as `urllib.parse.urlparse(url).netloc` does it, and the two URL helpers built on it. */
module Urls {
  import opened Common
  import opened Strings

  predicate IsAsciiLetter(c: char) {
    'a' as int <= c as int <= 'z' as int || 'A' as int <= c as int <= 'Z' as int
  }

  /** Python's `scheme_chars`: ASCII letters, digits, '+', '-' and '.'. */
  predicate IsSchemeChar(c: char) {
    IsAsciiLetter(c) || '0' as int <= c as int <= '9' as int || c == '+' || c == '-' || c == '.'
  }

  /** What follows the scheme: `urlsplit` takes `url[:i]` as the scheme when `i` is the first ':',
      `i > 0`, the first character is an ASCII letter and every character before ':' is a scheme character. */
  function AfterScheme(url: string): (r: string)
    ensures |r| <= |url| && r == url[|url| - |r|..]
  {
    match Find(url, ":")
    case None => url
    case Some(i) =>
      if i > 0 && IsAsciiLetter(url[0]) && forall k :: 0 <= k < i ==> IsSchemeChar(url[k])
      then url[i + 1..] else url
  }

  /** Index of the first character of `s` in `cs`, or `|s|` (the netloc delimiter search). */
  function FirstOf(s: string, cs: set<char>): (r: nat)
    ensures r <= |s|
    decreases |s|
  {
    if |s| == 0 || s[0] in cs then 0 else 1 + FirstOf(s[1..], cs)
  }

  /** The characters before the index found are outside `cs`, and the one at it, if any, is in `cs`. */
  lemma {:induction false} FirstOfSpec(s: string, cs: set<char>)
    ensures forall k :: 0 <= k < FirstOf(s, cs) ==> s[k] !in cs
    ensures FirstOf(s, cs) < |s| ==> s[FirstOf(s, cs)] in cs
    decreases |s|
  {
    if |s| > 0 && s[0] !in cs {
      FirstOfSpec(s[1..], cs);
      forall k | 1 <= k < FirstOf(s, cs) ensures s[k] !in cs {
        assert s[k] == s[1..][k - 1];
      }
    }
  }

  /** The characters `urlsplit` strips from the front of a URL: the C0 controls and space. */
  predicate IsC0OrSpace(c: char) {
    c as int <= 0x20
  }

  /** What `urlsplit` parses (Python 3.12): the URL with its leading C0 controls and spaces stripped,
      then every tab, carriage return and line feed removed, in that order. */
  function Sanitize(url: string): string
    decreases |url|
  {
    if |url| > 0 && IsC0OrSpace(url[0]) then Sanitize(url[1..]) else DropUnsafe(url)
  }

  /** The URL with every tab, carriage return and line feed removed. */
  function DropUnsafe(s: string): (r: string)
    ensures |r| <= |s|
    decreases |s|
  {
    if |s| == 0 then ""
    else if s[0] in {'\t', '\r', '\n'} then DropUnsafe(s[1..])
    else [s[0]] + DropUnsafe(s[1..])
  }

  /** The URL holds no tab, carriage return or line feed. */
  predicate NoUnsafeChars(url: string) {
    '\t' !in url && '\r' !in url && '\n' !in url
  }

  /** Without a tab, carriage return or line feed, `urlsplit` only strips the front of the URL. */
  lemma {:induction false} SanitizeSuffix(url: string)
    requires NoUnsafeChars(url)
    ensures |Sanitize(url)| <= |url| && OccursAt(url, Sanitize(url), |url| - |Sanitize(url)|)
    decreases |url|
  {
    if |url| > 0 && IsC0OrSpace(url[0]) {
      assert NoUnsafeChars(url[1..]) by {
        assert forall c :: c in url[1..] ==> c in url;
      }
      SanitizeSuffix(url[1..]);
      assert url[1..][|url| - 1 - |Sanitize(url)|..|url| - 1] == url[|url| - |Sanitize(url)|..|url|];
    } else {
      DropSafe(url);
      assert url[0..|url|] == url;
    }
  }

  /** A string without tabs, carriage returns and line feeds is left as it is. */
  lemma {:induction false} DropSafe(s: string)
    requires NoUnsafeChars(s)
    ensures DropUnsafe(s) == s
    decreases |s|
  {
    if |s| > 0 {
      assert NoUnsafeChars(s[1..]) by {
        assert forall c :: c in s[1..] ==> c in s;
      }
      DropSafe(s[1..]);
      assert s == [s[0]] + s[1..];
    }
  }

  /** The network location of a sanitized URL: after a scheme, a leading "//" opens it, and it
      runs to the first '/', '?' or '#'. Without "//" there is none. */
  function HostPart(u: string): string
  {
    var rest := AfterScheme(u);
    if |rest| >= 2 && rest[0] == '/' && rest[1] == '/' then
      var tail := rest[2..];
      tail[..FirstOf(tail, {'/', '?', '#'})]
    else ""
  }

  /** `urlparse(url).netloc`. */
  function Netloc(url: string): string {
    HostPart(Sanitize(url))
  }

  /** The network location holds none of the characters that end it. */
  lemma NetlocDelimiters(url: string)
    ensures var r := Netloc(url); '/' !in r && '?' !in r && '#' !in r
  {
    var rest := AfterScheme(Sanitize(url));
    if |rest| >= 2 && rest[0] == '/' && rest[1] == '/' {
      var tail := rest[2..];
      var e := FirstOf(tail, {'/', '?', '#'});
      FirstOfSpec(tail, {'/', '?', '#'});
      forall c | c in tail[..e] ensures c !in {'/', '?', '#'} {
        var k :| 0 <= k < e && tail[..e][k] == c;
        assert tail[k] == c;
      }
    }
  }

  /** `get_domain_name`: the last two dot-separated labels of the host, or the host itself
      when it has at most two labels. */
  function GetDomainName(url: string): string {
    var host := Netloc(url);
    var labels := Split(host, '.');
    if |labels| > 2 then Join(labels[|labels| - 2..], '.') else host
  }

  /** `fix_url`: a link that does not contain the source's domain is made absolute by putting
      in front of it the part of the source URL before the domain, and the domain. */
  function FixUrl(link: string, urlSrc: string): string {
    WithDomain(link, urlSrc, GetDomainName(urlSrc))
  }

  /** The body of `fix_url` once the domain of the source URL is known. */
  function WithDomain(link: string, urlSrc: string, domain: string): string {
    if Contains(link, domain) then link else BeforeFirst(urlSrc, domain) + domain + link
  }

  /** `s.split(sep)[0]`: the part of `s` before the first occurrence of `sep`, or all of `s`. */
  function BeforeFirst(s: string, sep: string): (r: string)
    ensures |r| <= |s| && r == s[..|r|]
    ensures !Contains(s, sep) ==> r == s
  {
    match Find(s, sep)
    case None => s
    case Some(i) => s[..i]
  }

  /** When `sep` occurs, what comes before it ends exactly where its first occurrence begins. */
  lemma BeforeFirstEndsAtFirst(s: string, sep: string)
    requires Contains(s, sep)
    ensures var r := BeforeFirst(s, sep);
      OccursAt(s, sep, |r|) && forall k :: 0 <= k < |r| ==> !OccursAt(s, sep, k)
  {
    FindSpec(s, sep);
  }

  /** The last two labels of a host with more than two: they split back into those two labels,
      and their join is a suffix of the host. */
  lemma LastTwoLabels(host: string)
    requires |Split(host, '.')| > 2
    ensures var labels := Split(host, '.'); var d := Join(labels[|labels| - 2..], '.');
      Split(d, '.') == labels[|labels| - 2..] && |d| <= |host| && host[|host| - |d|..] == d
  {
    var labels := Split(host, '.');
    var last := labels[|labels| - 2..];
    SplitPiecesFree(host, '.');
    assert forall k :: 0 <= k < |last| ==> '.' !in last[k] by {
      forall k | 0 <= k < |last| ensures '.' !in last[k] {
        assert last[k] == labels[|labels| - 2 + k];
      }
    }
    SplitJoin(last, '.');
    JoinSplit(host, '.');
    JoinSuffix(labels, '.', |labels| - 2);
  }

  /** The domain is a function of the host alone: the last two labels, or the whole host. */
  lemma DomainNameLabels(url: string)
    ensures var host := Netloc(url); var labels := Split(host, '.'); var d := GetDomainName(url);
      (|labels| <= 2 ==> d == host) &&
      (|labels| > 2 ==> Split(d, '.') == labels[|labels| - 2..] && |Split(d, '.')| == 2)
      && |d| <= |host| && host[|host| - |d|..] == d
  {
    var host := Netloc(url);
    if |Split(host, '.')| > 2 {
      LastTwoLabels(host);
    }
  }

  /** The network location is a slice of the URL `urlsplit` parses, and so of the URL itself when
      it holds no tab, carriage return or line feed. */
  lemma NetlocAt(url: string) returns (i: nat)
    ensures OccursAt(Sanitize(url), Netloc(url), i)
    ensures NoUnsafeChars(url) ==> OccursAt(url, Netloc(url), |url| - |Sanitize(url)| + i)
  {
    var u := Sanitize(url);
    i := HostPartAt(u);
    if NoUnsafeChars(url) {
      SanitizeSuffix(url);
      OccursWithin(url, u, Netloc(url), |url| - |u|, i);
    }
  }

  /** The host part is a slice of the string it is taken from. */
  lemma HostPartAt(u: string) returns (i: nat)
    ensures OccursAt(u, HostPart(u), i)
  {
    var rest := AfterScheme(u);
    var n := HostPart(u);
    var a := |u| - |rest|;
    if |rest| >= 2 && rest[0] == '/' && rest[1] == '/' {
      var tail := rest[2..];
      var e := FirstOf(tail, {'/', '?', '#'});
      assert tail == u[a + 2..];
      assert n == u[a + 2..][..e];
      assert n == u[a + 2..a + 2 + e];
      i := a + 2;
    } else {
      assert n == u[0..0];
      i := 0;
    }
  }

  /** An occurrence inside an occurrence is an occurrence. */
  lemma OccursWithin(s: string, x: string, y: string, i: int, j: int)
    requires OccursAt(s, x, i) && OccursAt(x, y, j)
    ensures OccursAt(s, y, i + j)
  {
    forall k | 0 <= k < |y| ensures s[i + j + k] == y[k] {
      assert y[k] == x[j..j + |y|][k] == x[j + k];
      assert x[j + k] == s[i..i + |x|][j + k];
    }
  }

  /** A suffix of an occurrence is an occurrence. */
  lemma SuffixOccurs(s: string, x: string, y: string, i: int)
    requires OccursAt(s, x, i)
    requires |y| <= |x| && x[|x| - |y|..] == y
    ensures OccursAt(s, y, i + |x| - |y|)
  {
    assert s[i..i + |x|] == x;
    assert s[i + |x| - |y|..i + |x|] == s[i..i + |x|][|x| - |y|..];
  }

  /** The domain of a URL occurs in the URL `urlsplit` parses, and in the URL itself when it holds no
      tab, carriage return or line feed, so `fix_url` finds it in such a source URL. */
  lemma DomainInUrl(url: string)
    ensures Contains(Sanitize(url), GetDomainName(url))
    ensures NoUnsafeChars(url) ==> Contains(url, GetDomainName(url))
  {
    var i := NetlocAt(url);
    DomainNameLabels(url);
    SuffixContained(Sanitize(url), Netloc(url), GetDomainName(url), i);
    if NoUnsafeChars(url) {
      SuffixContained(url, Netloc(url), GetDomainName(url), |url| - |Sanitize(url)| + i);
    }
  }

  /** A suffix of an occurrence is contained in the string. */
  lemma SuffixContained(s: string, x: string, y: string, i: int)
    requires OccursAt(s, x, i)
    requires |y| <= |x| && x[|x| - |y|..] == y
    ensures Contains(s, y)
  {
    SuffixOccurs(s, x, y, i);
    ContainsAt(s, y, i + |x| - |y|);
  }

  lemma WithDomainShape(link: string, urlSrc: string, d: string)
    requires Contains(urlSrc, d) && !Contains(link, d)
    ensures var i := |BeforeFirst(urlSrc, d)|;
      OccursAt(urlSrc, d, i) && forall k :: 0 <= k < i ==> !OccursAt(urlSrc, d, k)
    ensures var i := |BeforeFirst(urlSrc, d)|;
      i + |d| <= |urlSrc| && WithDomain(link, urlSrc, d) == urlSrc[..i + |d|] + link
  {
    var pre := BeforeFirst(urlSrc, d);
    BeforeFirstEndsAtFirst(urlSrc, d);
    var i := |pre|;
    assert urlSrc[..i + |d|] == urlSrc[..i] + urlSrc[i..i + |d|];
  }

  /** `fix_url` keeps a link that already names the domain, and otherwise prefixes the source URL
      up to and including the first occurrence `i` of the domain; a source URL the domain does not
      occur in (one with a tab, carriage return or line feed in its host) is put in front whole. */
  lemma FixUrlShape(link: string, urlSrc: string)
    ensures var d := GetDomainName(urlSrc);
      Contains(link, d) ==> FixUrl(link, urlSrc) == link
    ensures var d := GetDomainName(urlSrc); var i := |BeforeFirst(urlSrc, d)|;
      !Contains(link, d) && Contains(urlSrc, d) ==>
        && OccursAt(urlSrc, d, i) && (forall k :: 0 <= k < i ==> !OccursAt(urlSrc, d, k))
        && i + |d| <= |urlSrc| && FixUrl(link, urlSrc) == urlSrc[..i + |d|] + link
    ensures var d := GetDomainName(urlSrc);
      !Contains(link, d) && !Contains(urlSrc, d) ==> FixUrl(link, urlSrc) == urlSrc + d + link
  {
    if Contains(urlSrc, GetDomainName(urlSrc)) {
      WithDomainCases(link, urlSrc, GetDomainName(urlSrc));
    }
  }

  /** `WithDomain` for a domain that occurs in the source URL. */
  lemma WithDomainCases(link: string, urlSrc: string, d: string)
    requires Contains(urlSrc, d)
    ensures Contains(link, d) ==> WithDomain(link, urlSrc, d) == link
    ensures var i := |BeforeFirst(urlSrc, d)|;
      !Contains(link, d) ==>
        && OccursAt(urlSrc, d, i) && (forall k :: 0 <= k < i ==> !OccursAt(urlSrc, d, k))
        && i + |d| <= |urlSrc| && WithDomain(link, urlSrc, d) == urlSrc[..i + |d|] + link
  {
    if !Contains(link, d) {
      WithDomainShape(link, urlSrc, d);
    }
  }
}
