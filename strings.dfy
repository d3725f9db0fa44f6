/** The parts of Python's `str` that the modelled code relies on, over `seq<char>`. */
module Strings {
  import opened Common

  /** `sub` starts at index `i` of `s`. */
  predicate OccursAt(s: string, sub: string, i: int) {
    0 <= i && i + |sub| <= |s| && s[i..i + |sub|] == sub
  }

  /** First index at or after `from` where `sub` occurs (`str.find` with a start); the occurrence it
      names, and that it is the first, are `FindFromSpec`. */
  function FindFrom(s: string, sub: string, from: nat): (r: Option<nat>)
    ensures r.Some? ==> from <= r.value && r.value + |sub| <= |s|
    decreases |s| + 1 - from
  {
    if from + |sub| > |s| then None
    else if OccursAt(s, sub, from) then Some(from)
    else FindFrom(s, sub, from + 1)
  }

  /** `FindFrom` names an occurrence with none before it, and finds nothing only when there is none. */
  lemma {:induction false} FindFromSpec(s: string, sub: string, from: nat)
    ensures var r := FindFrom(s, sub, from);
      && (r.Some? ==> OccursAt(s, sub, r.value) && forall k :: from <= k < r.value ==> !OccursAt(s, sub, k))
      && (r.None? ==> forall k :: from <= k ==> !OccursAt(s, sub, k))
    decreases |s| + 1 - from
  {
    if from + |sub| <= |s| && !OccursAt(s, sub, from) {
      FindFromSpec(s, sub, from + 1);
    }
  }

  /** First index where `sub` occurs (`str.find`). */
  function Find(s: string, sub: string): (r: Option<nat>)
    ensures r.Some? ==> r.value + |sub| <= |s|
  {
    FindFrom(s, sub, 0)
  }

  /** `Find` names the first occurrence, and finds nothing only when there is none. */
  lemma FindSpec(s: string, sub: string)
    ensures var r := Find(s, sub);
      && (r.Some? ==> OccursAt(s, sub, r.value) && forall k :: 0 <= k < r.value ==> !OccursAt(s, sub, k))
      && (r.None? ==> forall k :: !OccursAt(s, sub, k))
  {
    FindFromSpec(s, sub, 0);
  }

  /** Python's `sub in s`. */
  predicate Contains(s: string, sub: string) {
    Find(s, sub).Some?
  }

  lemma ContainsAt(s: string, sub: string, i: int)
    requires OccursAt(s, sub, i)
    ensures Contains(s, sub)
  {
    FindSpec(s, sub);
  }

  /** An occurrence inside a slice is an occurrence in the whole string. */
  lemma OccursInSlice(s: string, a: nat, b: nat, sub: string, k: int)
    requires a <= b <= |s|
    requires OccursAt(s[a..b], sub, k)
    ensures OccursAt(s, sub, a + k)
  {
    forall m | 0 <= m < |sub| ensures s[a + k + m] == sub[m] {
      assert s[a..b][k..k + |sub|][m] == sub[m];
    }
    assert s[a + k..a + k + |sub|] == sub;
  }

  /** `s.split(c)` for a one-character separator: the pieces between the separators. */
  function Split(s: string, c: char): (r: seq<string>)
    ensures |r| >= 1
    decreases |s|
  {
    if |s| == 0 then [""]
    else
      var rest := Split(s[1..], c);
      if s[0] == c then [""] + rest else [[s[0]] + rest[0]] + rest[1..]
  }

  /** `c.join(parts)` for a non-empty list of parts. */
  function Join(parts: seq<string>, c: char): string
    requires |parts| >= 1
    decreases |parts|
  {
    if |parts| == 1 then parts[0] else parts[0] + [c] + Join(parts[1..], c)
  }

  /** No piece produced by `Split` contains the separator. */
  lemma {:induction false} SplitPiecesFree(s: string, c: char)
    ensures forall k :: 0 <= k < |Split(s, c)| ==> c !in Split(s, c)[k]
    decreases |s|
  {
    if |s| > 0 {
      SplitPiecesFree(s[1..], c);
    }
  }

  /** Joining the pieces again gives back the string. */
  lemma {:induction false} JoinSplit(s: string, c: char)
    ensures Join(Split(s, c), c) == s
    decreases |s|
  {
    if |s| > 0 {
      var rest := Split(s[1..], c);
      JoinSplit(s[1..], c);
      if s[0] == c {
        assert Split(s, c) == [""] + rest;
        assert ([""] + rest)[1..] == rest;
      } else {
        var r := Split(s, c);
        assert r == [[s[0]] + rest[0]] + rest[1..];
        if |rest| == 1 {
          assert r == [[s[0]] + rest[0]];
        } else {
          assert r[1..] == rest[1..];
          assert Join(rest, c) == rest[0] + [c] + Join(rest[1..], c);
        }
      }
    }
  }

  /** A first character other than the separator joins the first piece of the rest. */
  lemma SplitNonSeparator(s: string, c: char, rest: seq<string>)
    requires |s| > 0 && s[0] != c && Split(s[1..], c) == rest
    ensures Split(s, c) == [[s[0]] + rest[0]] + rest[1..]
  {
  }

  /** Splitting a join of separator-free parts gives back the parts. */
  lemma {:induction false} SplitJoin(parts: seq<string>, c: char)
    requires |parts| >= 1
    requires forall k :: 0 <= k < |parts| ==> c !in parts[k]
    ensures Split(Join(parts, c), c) == parts
    decreases |parts|, |parts[0]|
  {
    var j := Join(parts, c);
    if |parts[0]| > 0 {
      var tailParts := [parts[0][1..]] + parts[1..];
      ShorterFirstFree(parts, c);
      SplitJoin(tailParts, c);
      SplitJoinFirst(parts, c);
    } else if |parts| > 1 {
      SplitJoin(parts[1..], c);
      assert j[0] == c && j[1..] == Join(parts[1..], c) by {
        assert j == [c] + Join(parts[1..], c);
      }
      assert parts == [""] + parts[1..];
    }
  }

  /** Dropping the first character of the first part keeps the parts separator-free. */
  lemma ShorterFirstFree(parts: seq<string>, c: char)
    requires |parts| >= 1 && |parts[0]| > 0
    requires forall k :: 0 <= k < |parts| ==> c !in parts[k]
    ensures var tailParts := [parts[0][1..]] + parts[1..];
      forall k :: 0 <= k < |tailParts| ==> c !in tailParts[k]
  {
    var tailParts := [parts[0][1..]] + parts[1..];
    forall k | 0 <= k < |tailParts| ensures c !in tailParts[k] {
      if k > 0 {
        assert tailParts[k] == parts[k];
      }
    }
  }

  /** The step of `SplitJoin` on a first part that is not empty. */
  lemma SplitJoinFirst(parts: seq<string>, c: char)
    requires |parts| >= 1 && |parts[0]| > 0 && c !in parts[0]
    requires Split(Join([parts[0][1..]] + parts[1..], c), c) == [parts[0][1..]] + parts[1..]
    ensures Split(Join(parts, c), c) == parts
  {
    var p := parts[0];
    var tailParts := [p[1..]] + parts[1..];
    var j := Join(parts, c);
    assert |j| > 0 && j[0] == p[0] && j[1..] == Join(tailParts, c) by {
      JoinCons(p, parts[1..], c);
      assert [p] + parts[1..] == parts;
    }
    SplitNonSeparator(j, c, tailParts);
    assert tailParts[0] == p[1..] && tailParts[1..] == parts[1..];
    assert [[p[0]] + p[1..]] + parts[1..] == parts by {
      assert [p[0]] + p[1..] == p;
      assert [p] + parts[1..] == parts;
    }
  }

  /** Peeling the first character off the first part of a join. */
  lemma JoinCons(p: string, more: seq<string>, c: char)
    requires |p| > 0 && p[0] != c
    ensures var j := Join([p] + more, c);
      |j| > 0 && j[0] == p[0] && j[1..] == Join([p[1..]] + more, c)
  {
    if |more| > 0 {
      assert ([p] + more)[1..] == more;
      assert ([p[1..]] + more)[1..] == more;
    }
  }

  /** A join of the last parts is a suffix of the join of all parts. */
  lemma {:induction false} JoinSuffix(parts: seq<string>, c: char, k: nat)
    requires k < |parts|
    ensures var whole := Join(parts, c); var tail := Join(parts[k..], c);
      |tail| <= |whole| && whole[|whole| - |tail|..] == tail
    decreases k
  {
    if k > 0 {
      JoinSuffix(parts[1..], c, k - 1);
      assert parts[1..][k - 1..] == parts[k..];
    }
  }

  /** Drops the leading characters that belong to `cs`. */
  function TrimStart(s: string, cs: set<char>): (r: string)
    ensures |r| <= |s| && r == s[|s| - |r|..]
    ensures |r| > 0 ==> r[0] !in cs
    decreases |s|
  {
    if |s| > 0 && s[0] in cs then TrimStart(s[1..], cs) else s
  }

  /** Every character `TrimStart` drops belongs to `cs`. */
  lemma {:induction false} TrimStartDrops(s: string, cs: set<char>)
    ensures forall k :: 0 <= k < |s| - |TrimStart(s, cs)| ==> s[k] in cs
    decreases |s|
  {
    if |s| > 0 && s[0] in cs {
      TrimStartDrops(s[1..], cs);
      forall k | 1 <= k < |s| - |TrimStart(s, cs)| ensures s[k] in cs {
        assert s[k] == s[1..][k - 1];
      }
    }
  }

  /** Drops the trailing characters that belong to `cs`. */
  function TrimEnd(s: string, cs: set<char>): (r: string)
    ensures |r| <= |s| && r == s[..|r|]
    ensures |r| > 0 ==> r[|r| - 1] !in cs
    decreases |s|
  {
    if |s| > 0 && s[|s| - 1] in cs then TrimEnd(s[..|s| - 1], cs) else s
  }

  /** Every character `TrimEnd` drops belongs to `cs`. */
  lemma {:induction false} TrimEndDrops(s: string, cs: set<char>)
    ensures forall k :: |TrimEnd(s, cs)| <= k < |s| ==> s[k] in cs
    decreases |s|
  {
    if |s| > 0 && s[|s| - 1] in cs {
      TrimEndDrops(s[..|s| - 1], cs);
      forall k | |TrimEnd(s, cs)| <= k < |s| - 1 ensures s[k] in cs {
        assert s[k] == s[..|s| - 1][k];
      }
    }
  }

  /** Python's `s.strip(chars)`. */
  function Strip(s: string, cs: set<char>): string {
    TrimEnd(TrimStart(s, cs), cs)
  }

  /** The stripped text sits at `i` in `s`, and every character around it belongs to `cs`. */
  lemma StripSplits(s: string, cs: set<char>) returns (i: nat)
    ensures var r := Strip(s, cs); i + |r| <= |s| && s[i..i + |r|] == r
    ensures var r := Strip(s, cs); forall k :: 0 <= k < |s| && !(i <= k < i + |r|) ==> s[k] in cs
  {
    var t := TrimStart(s, cs);
    i := |s| - |t|;
    TrimStartDrops(s, cs);
    TrimEndDrops(t, cs);
    var r := TrimEnd(t, cs);
    assert s[i..i + |r|] == t[..|r|];
    forall k | i + |r| <= k < |s| ensures s[k] in cs {
      assert s[k] == t[k - i];
    }
  }

  /** A string whose two ends are outside `cs` survives any padding drawn from `cs`. */
  lemma {:induction false} StripPadded(pre: string, x: string, post: string, cs: set<char>)
    requires forall k :: 0 <= k < |pre| ==> pre[k] in cs
    requires forall k :: 0 <= k < |post| ==> post[k] in cs
    requires |x| > 0 ==> x[0] !in cs && x[|x| - 1] !in cs
    requires |x| == 0 ==> |post| == 0
    ensures Strip(pre + x + post, cs) == x
  {
    assert TrimStart(pre + x + post, cs) == x + post by {
      assert pre + x + post == pre + (x + post);
      TrimStartPadded(pre, x + post, cs);
    }
    TrimEndPadded(x, post, cs);
  }

  lemma {:induction false} TrimStartPadded(pre: string, x: string, cs: set<char>)
    requires forall k :: 0 <= k < |pre| ==> pre[k] in cs
    requires |x| > 0 ==> x[0] !in cs
    ensures TrimStart(pre + x, cs) == x
    decreases |pre|
  {
    if |pre| > 0 {
      assert (pre + x)[1..] == pre[1..] + x;
      TrimStartPadded(pre[1..], x, cs);
    } else {
      assert pre + x == x;
    }
  }

  lemma {:induction false} TrimEndPadded(x: string, post: string, cs: set<char>)
    requires forall k :: 0 <= k < |post| ==> post[k] in cs
    requires |x| > 0 ==> x[|x| - 1] !in cs
    requires |x| == 0 ==> |post| == 0
    ensures TrimEnd(x + post, cs) == x
    decreases |post|
  {
    if |post| > 0 {
      assert (x + post)[..|x + post| - 1] == x + post[..|post| - 1];
      TrimEndPadded(x, post[..|post| - 1], cs);
    } else {
      assert x + post == x;
    }
  }

  /** The characters Python's argument-less `strip()` removes: those `str.isspace()` holds for. */
  predicate IsSpace(c: char) {
    || '\t' <= c <= '\r' || '\U{001C}' <= c <= ' ' || c == '\U{0085}' || c == '\U{00A0}' || c == '\U{1680}'
    || '\U{2000}' <= c <= '\U{200A}' || c == '\U{2028}' || c == '\U{2029}' || c == '\U{202F}'
    || c == '\U{205F}' || c == '\U{3000}'
  }

  /** The same characters, as a set. */
  const WHITESPACE: set<char> := set c: char | IsSpace(c)

  /** `s.replace(c, "")` for a single character `c`. */
  function RemoveChar(s: string, c: char): (r: string)
    ensures |r| <= |s|
    ensures forall x :: x in r <==> x in s && x != c
    decreases |s|
  {
    if |s| == 0 then ""
    else if s[0] == c then RemoveChar(s[1..], c)
    else [s[0]] + RemoveChar(s[1..], c)
  }

  /** Removing a character that does not occur changes nothing. */
  lemma {:induction false} RemoveAbsent(s: string, c: char)
    requires c !in s
    ensures RemoveChar(s, c) == s
    decreases |s|
  {
    if |s| > 0 {
      RemoveAbsent(s[1..], c);
      assert [s[0]] + s[1..] == s;
    }
  }

  /** `s.count(c)` for a single character `c`. */
  function Count(s: string, c: char): (n: nat)
    ensures n <= |s|
    ensures n == 0 <==> c !in s
    decreases |s|
  {
    if |s| == 0 then 0 else (if s[0] == c then 1 else 0) + Count(s[1..], c)
  }

  /** Byte-wise (code-point-wise) `a <= b` on text, as SQLite's BINARY collation compares. */
  predicate LexLessEq(a: string, b: string)
    decreases |a|
  {
    if |a| == 0 then true
    else if |b| == 0 then false
    else if a[0] != b[0] then a[0] < b[0]
    else LexLessEq(a[1..], b[1..])
  }

  /** A prefix is never greater: a timestamp of the filter day itself passes `date >= day`. */
  lemma {:induction false} PrefixLexLessEq(a: string, rest: string)
    ensures LexLessEq(a, a + rest)
    decreases |a|
  {
    if |a| > 0 {
      assert (a + rest)[1..] == a[1..] + rest;
      PrefixLexLessEq(a[1..], rest);
    }
  }

  /** `LexLessEq` is total: of two strings one is below the other. */
  lemma {:induction false} LexLessEqTotal(a: string, b: string)
    ensures LexLessEq(a, b) || LexLessEq(b, a)
    decreases |a|
  {
    if |a| > 0 && |b| > 0 && a[0] == b[0] {
      LexLessEqTotal(a[1..], b[1..]);
    }
  }

  function DigitChar(d: int): char
    requires 0 <= d < 10
  {
    "0123456789"[d]
  }

  predicate IsDigit(c: char) {
    '0' as int <= c as int <= '9' as int
  }

  /** `str(n)` for a natural number. */
  function Decimal(n: nat): (r: string)
    ensures |r| >= 1
    ensures forall k :: 0 <= k < |r| ==> IsDigit(r[k])
    decreases n
  {
    if n < 10 then [DigitChar(n)] else Decimal(n / 10) + [DigitChar(n % 10)]
  }

  /** The value of a string of decimal digits. */
  function DecimalValue(s: string): nat
    requires forall k :: 0 <= k < |s| ==> IsDigit(s[k])
    decreases |s|
  {
    if |s| == 0 then 0
    else
      assert IsDigit(s[|s| - 1]);
      10 * DecimalValue(s[..|s| - 1]) + (s[|s| - 1] as int - '0' as int)
  }

  /** `Decimal` loses nothing: reading the digits back gives the number. */
  lemma {:induction false} DecimalRoundTrip(n: nat)
    ensures DecimalValue(Decimal(n)) == n
    decreases n
  {
    var r := Decimal(n);
    if n >= 10 {
      DecimalRoundTrip(n / 10);
      assert r[..|r| - 1] == Decimal(n / 10);
    }
  }

  /** The reverse of a sequence (`list.reverse()`). */
  function Reverse<T>(s: seq<T>): (r: seq<T>)
    ensures |r| == |s|
    ensures forall k :: 0 <= k < |s| ==> r[k] == s[|s| - 1 - k]
    decreases |s|
  {
    if |s| == 0 then [] else Reverse(s[1..]) + [s[0]]
  }
}
