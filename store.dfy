/** The two SQLite tables of the job search assistant, `jobs` and `known_links`, as sequences of rows in
    rowid order, with the statements the assistant runs on them. */
module Store {
  import opened Common
  import opened Strings

  /** A value as the program hands it to SQLite. `NumpyBool` is the `numpy.bool_` that
      `is_job_relevant` returns: Python's `sqlite3` has no conversion for it and binds it through the
      buffer protocol, as a one-byte BLOB, which compares equal to no integer and no text. */
  datatype Value = Null | Int(i: int) | Text(s: string) | NumpyBool(b: bool)

  /** SQLite stores a Python bool as the integer 0 or 1. */
  function FromBool(b: bool): Value {
    Int(if b then 1 else 0)
  }

  /** A text column written from a value that may be None. */
  function FromOption(o: Option<string>): Value {
    match o
    case None => Null
    case Some(s) => Text(s)
  }

  /** Python truthiness of a value read back from a dict. */
  predicate Truthy(v: Value) {
    match v
    case Null => false
    case Int(i) => i != 0
    case Text(s) => s != ""
    case NumpyBool(b) => b
  }

  /** The columns of `jobs` other than `id`. */
  datatype Field = IsRelevant | Url | Title | Description | Score | IsValid | DocumentsPath
                 | Location | Salary | Company | Date

  /** `url`, `title` and `description` are declared NOT NULL. */
  predicate NotNull(f: Field) {
    f == Url || f == Title || f == Description
  }

  datatype JobRow = JobRow(id: int, isRelevant: Value, url: Value, title: Value, description: Value,
                           score: Value, isValid: Value, documentsPath: Value, location: Value,
                           salary: Value, company: Value, date: Value)

  function Get(row: JobRow, f: Field): Value {
    match f
    case IsRelevant => row.isRelevant
    case Url => row.url
    case Title => row.title
    case Description => row.description
    case Score => row.score
    case IsValid => row.isValid
    case DocumentsPath => row.documentsPath
    case Location => row.location
    case Salary => row.salary
    case Company => row.company
    case Date => row.date
  }

  /** One `column = ?` assignment: that column takes the value, the others and the id stay. */
  function Set(row: JobRow, f: Field, v: Value): (r: JobRow)
    ensures r.id == row.id && Get(r, f) == v
    ensures forall g :: g != f ==> Get(r, g) == Get(row, g)
  {
    match f
    case IsRelevant => row.(isRelevant := v)
    case Url => row.(url := v)
    case Title => row.(title := v)
    case Description => row.(description := v)
    case Score => row.(score := v)
    case IsValid => row.(isValid := v)
    case DocumentsPath => row.(documentsPath := v)
    case Location => row.(location := v)
    case Salary => row.(salary := v)
    case Company => row.(company := v)
    case Date => row.(date := v)
  }

  /** The dict handed to `add_job`, by the ten keys it reads: None for a key the dict lacks, Some for one
      it holds (whose value may itself be Null, Python's None). */
  datatype JobDetails = JobDetails(isRelevant: Option<Value>, url: Option<Value>, title: Option<Value>,
                                   description: Option<Value>, score: Option<Value>, isValid: Option<Value>,
                                   documentsPath: Option<Value>, location: Option<Value>,
                                   salary: Option<Value>, company: Option<Value>)

  /** `dict.get`: a missing key reads as None. */
  function OrNull(o: Option<Value>): Value {
    match o
    case None => Null
    case Some(v) => v
  }

  /** `job_details.get(f)`; `date` is never read from the dict. */
  function Lookup(d: JobDetails, f: Field): Value {
    match f
    case IsRelevant => OrNull(d.isRelevant)
    case Url => OrNull(d.url)
    case Title => OrNull(d.title)
    case Description => OrNull(d.description)
    case Score => OrNull(d.score)
    case IsValid => OrNull(d.isValid)
    case DocumentsPath => OrNull(d.documentsPath)
    case Location => OrNull(d.location)
    case Salary => OrNull(d.salary)
    case Company => OrNull(d.company)
    case Date => Null
  }

  datatype LinkRow = LinkRow(id: int, url: string, isJobPage: bool, date: string)

  // ---------------------------------------------------------------------------------------------
  // Row ids: an INTEGER PRIMARY KEY given no value gets one more than the largest id, 1 in an empty table

  function MaxId(ids: seq<int>): int
    requires |ids| > 0
    decreases |ids|
  {
    if |ids| == 1 then ids[0]
    else
      var m := MaxId(ids[1..]);
      if ids[0] >= m then ids[0] else m
  }

  function NextRowId(ids: seq<int>): int {
    if |ids| == 0 then 1 else MaxId(ids) + 1
  }

  /** The largest id is one of the ids, and no id exceeds it. */
  lemma {:induction false} MaxIdIsMax(ids: seq<int>)
    requires |ids| > 0
    ensures forall k :: 0 <= k < |ids| ==> ids[k] <= MaxId(ids)
    ensures exists k :: 0 <= k < |ids| && ids[k] == MaxId(ids)
    decreases |ids|
  {
    if |ids| > 1 {
      var tail := ids[1..];
      MaxIdIsMax(tail);
      assert forall k :: 1 <= k < |ids| ==> ids[k] == tail[k - 1];
      var j :| 0 <= j < |tail| && tail[j] == MaxId(tail);
      if ids[0] < MaxId(tail) {
        assert MaxId(ids) == MaxId(tail);
        assert ids[j + 1] == MaxId(ids);
      } else {
        assert MaxId(ids) == ids[0];
      }
    } else {
      assert MaxId(ids) == ids[0];
    }
  }

  /** The next id exceeds every id in the table; it is 1 in an empty table and otherwise one more
      than an id already there. */
  lemma NextRowIdFresh(ids: seq<int>)
    ensures forall k :: 0 <= k < |ids| ==> ids[k] < NextRowId(ids)
    ensures |ids| == 0 ==> NextRowId(ids) == 1
    ensures |ids| > 0 ==> exists k :: 0 <= k < |ids| && ids[k] == NextRowId(ids) - 1
  {
    if |ids| > 0 {
      MaxIdIsMax(ids);
    }
  }

  function JobIds(jobs: seq<JobRow>): (ids: seq<int>)
    ensures |ids| == |jobs|
  {
    seq(|jobs|, k requires 0 <= k < |jobs| => jobs[k].id)
  }

  function LinkIds(links: seq<LinkRow>): (ids: seq<int>)
    ensures |ids| == |links| && forall k :: 0 <= k < |links| ==> ids[k] == links[k].id
  {
    seq(|links|, k requires 0 <= k < |links| => links[k].id)
  }

  // ---------------------------------------------------------------------------------------------
  // The jobs table

  /** `url_exists_jobs`: `SELECT COUNT(*) FROM jobs WHERE url = ?` is positive. */
  predicate HasJobUrl(jobs: seq<JobRow>, url: Value) {
    exists i :: 0 <= i < |jobs| && jobs[i].url == url
  }

  /** Distinct ids (the primary key) and, as `add_job` keeps them, distinct urls. */
  predicate UniqueJobs(jobs: seq<JobRow>) {
    forall i, j :: 0 <= i < j < |jobs| ==> JobsApart(jobs, i, j)
  }

  /** Rows `i` and `j` differ in id and in url. */
  predicate JobsApart(jobs: seq<JobRow>, i: int, j: int)
    requires 0 <= i < j < |jobs|
  {
    jobs[i].id != jobs[j].id && jobs[i].url != jobs[j].url
  }

  /** The row `add_job` inserts: the details' columns, with the insertion time in `date`. */
  function NewJobRow(id: int, d: JobDetails, now: string): (r: JobRow)
    ensures r.id == id && r.date == Text(now)
  {
    JobRow(id, Lookup(d, IsRelevant), Lookup(d, Url), Lookup(d, Title), Lookup(d, Description),
           Lookup(d, Score), Lookup(d, IsValid), Lookup(d, DocumentsPath), Lookup(d, Location),
           Lookup(d, Salary), Lookup(d, Company), Text(now))
  }

  /** The new row holds the details' value in every column but `date`, a key the dict lacks reading as None. */
  lemma NewJobRowFields(id: int, d: JobDetails, now: string, f: Field)
    requires f != Date
    ensures Get(NewJobRow(id, d, now), f) == Lookup(d, f)
  {
  }

  /** `add_job`'s guard: url, title and description truthy, and the url not yet in the table. */
  predicate AddJobAccepts(jobs: seq<JobRow>, d: JobDetails) {
    Truthy(Lookup(d, Url)) && Truthy(Lookup(d, Title)) && Truthy(Lookup(d, Description))
    && !HasJobUrl(jobs, Lookup(d, Url))
  }

  /** The table after `add_job`. */
  function InsertJob(jobs: seq<JobRow>, d: JobDetails, now: string): seq<JobRow> {
    if AddJobAccepts(jobs, d) then jobs + [NewJobRow(NextRowId(JobIds(jobs)), d, now)] else jobs
  }

  /** `add_job` either leaves the table alone or appends one row carrying the details' url; a url is
      in the table afterwards exactly when it was before or it is the accepted one. */
  lemma InsertJobOutcome(jobs: seq<JobRow>, d: JobDetails, now: string, url: Value)
    ensures var r := InsertJob(jobs, d, now);
      && (!AddJobAccepts(jobs, d) ==> r == jobs)
      && (AddJobAccepts(jobs, d) ==> |r| == |jobs| + 1 && r[..|jobs|] == jobs && r[|jobs|].url == Lookup(d, Url))
      && (HasJobUrl(r, url) <==> HasJobUrl(jobs, url) || (AddJobAccepts(jobs, d) && url == Lookup(d, Url)))
  {
    var r := InsertJob(jobs, d, now);
    if AddJobAccepts(jobs, d) {
      assert r[..|jobs|] == jobs;
      if HasJobUrl(jobs, url) {
        var i :| 0 <= i < |jobs| && jobs[i].url == url;
        assert r[i].url == url;
      }
      if url == Lookup(d, Url) {
        assert r[|jobs|].url == url;
      }
    }
  }

  /** `add_job` keeps ids and urls unique. */
  lemma InsertJobKeepsUnique(jobs: seq<JobRow>, d: JobDetails, now: string)
    requires UniqueJobs(jobs)
    ensures UniqueJobs(InsertJob(jobs, d, now))
  {
    if AddJobAccepts(jobs, d) {
      var r := InsertJob(jobs, d, now);
      NextRowIdFresh(JobIds(jobs));
      forall i, j | 0 <= i < j < |r| ensures JobsApart(r, i, j) {
        if j == |jobs| {
          assert JobIds(jobs)[i] == jobs[i].id;
          assert r[i] == jobs[i];
        } else {
          assert JobsApart(jobs, i, j);
        }
      }
    }
  }

  /** The value of the last `column = value` pair for `f`, if any. */
  function Assigned(kwargs: seq<(Field, Value)>, f: Field): Option<Value>
    decreases |kwargs|
  {
    if |kwargs| == 0 then None
    else
      match Assigned(kwargs[1..], f)
      case Some(v) => Some(v)
      case None => if kwargs[0].0 == f then Some(kwargs[0].1) else None
  }

  /** `SET f1 = v1, f2 = v2, ...` on one row. */
  function Assign(row: JobRow, kwargs: seq<(Field, Value)>): JobRow
    decreases |kwargs|
  {
    if |kwargs| == 0 then row else Assign(Set(row, kwargs[0].0, kwargs[0].1), kwargs[1..])
  }

  /** An assignment list sets exactly the fields it names, each to its last value, and keeps the id. */
  lemma {:induction false} AssignFields(row: JobRow, kwargs: seq<(Field, Value)>, f: Field)
    ensures Assign(row, kwargs).id == row.id
    ensures Get(Assign(row, kwargs), f) == match Assigned(kwargs, f) case None => Get(row, f) case Some(v) => v
    decreases |kwargs|
  {
    if |kwargs| > 0 {
      AssignFields(Set(row, kwargs[0].0, kwargs[0].1), kwargs[1..], f);
    }
  }

  /** `UPDATE jobs SET ... WHERE url = ?` on every row. */
  function UpdateRows(jobs: seq<JobRow>, url: string, kwargs: seq<(Field, Value)>): (r: seq<JobRow>)
    ensures |r| == |jobs|
    ensures forall i :: 0 <= i < |jobs| ==> r[i] == if jobs[i].url == Text(url) then Assign(jobs[i], kwargs) else jobs[i]
  {
    seq(|jobs|, i requires 0 <= i < |jobs| => if jobs[i].url == Text(url) then Assign(jobs[i], kwargs) else jobs[i])
  }

  /** `update_job`: nothing for an unknown url; an empty assignment list is an SQL syntax error; a
      NOT NULL column set to None fails the constraint; otherwise every row with the url is updated. */
  function UpdateJob(jobs: seq<JobRow>, url: string, kwargs: seq<(Field, Value)>): Result<seq<JobRow>> {
    if !HasJobUrl(jobs, Text(url)) then Ok(jobs)
    else if |kwargs| == 0 then Err(OperationalError("syntax error"))
    else if exists k :: 0 <= k < |kwargs| && NotNull(kwargs[k].0) && kwargs[k].1 == Null then
      Err(IntegrityError("NOT NULL constraint failed"))
    else Ok(UpdateRows(jobs, url, kwargs))
  }

  /** `update_job` changes nothing when the url is absent; otherwise, when it succeeds, only the named
      fields of the rows with that url change, to the values given, and ids stay. */
  lemma UpdateJobOnlyNamedFields(jobs: seq<JobRow>, url: string, kwargs: seq<(Field, Value)>)
    ensures !HasJobUrl(jobs, Text(url)) ==> UpdateJob(jobs, url, kwargs) == Ok(jobs)
    ensures var r := UpdateJob(jobs, url, kwargs);
      r.Ok? ==>
        && |r.value| == |jobs|
        && (forall i :: 0 <= i < |jobs| ==> r.value[i].id == jobs[i].id)
        && forall i, f :: 0 <= i < |jobs| ==>
             Get(r.value[i], f) == if jobs[i].url == Text(url) && Assigned(kwargs, f).Some?
                                   then Assigned(kwargs, f).value else Get(jobs[i], f)
  {
    var r := UpdateJob(jobs, url, kwargs);
    if r.Ok? && HasJobUrl(jobs, Text(url)) {
      assert r.value == UpdateRows(jobs, url, kwargs);
      forall i | 0 <= i < |jobs| ensures r.value[i].id == jobs[i].id {
        AssignFields(jobs[i], kwargs, Url);
      }
      forall i, f | 0 <= i < |jobs|
        ensures Get(r.value[i], f) == if jobs[i].url == Text(url) && Assigned(kwargs, f).Some?
                                      then Assigned(kwargs, f).value else Get(jobs[i], f)
      {
        AssignFields(jobs[i], kwargs, f);
      }
    }
  }

  /** `str(i)`, the text SQLite makes of an integer under TEXT affinity. */
  function IntText(i: int): string {
    if i >= 0 then Decimal(i) else "-" + Decimal(-i)
  }

  /** SQLite's space characters, which its text-to-number conversion skips at both ends. */
  const SQL_SPACE: set<char> := {' ', '\t', '\n', '\U{000B}', '\U{000C}', '\r'}

  /** The characters a numeric literal is written with. */
  predicate NumericChar(c: char) {
    IsDigit(c) || c == '+' || c == '-' || c == '.' || c == 'e' || c == 'E'
  }

  predicate AllDigits(s: string) {
    forall k :: 0 <= k < |s| ==> IsDigit(s[k])
  }

  /** The end of the run of digits of `t` that starts at `i`. */
  function DigitsEnd(t: string, i: nat): (e: nat)
    requires i <= |t|
    ensures i <= e <= |t| && forall k :: i <= k < e ==> IsDigit(t[k])
    ensures e < |t| ==> !IsDigit(t[e])
    decreases |t| - i
  {
    if i < |t| && IsDigit(t[i]) then DigitsEnd(t, i + 1) else i
  }

  /** An optional sign at `i`: whether it is '-', and where what follows it starts. */
  function SignAt(t: string, i: nat): (r: (bool, nat))
    requires i <= |t|
    ensures i <= r.1 <= |t| && r.1 <= i + 1
  {
    if i < |t| && (t[i] == '+' || t[i] == '-') then (t[i] == '-', i + 1) else (false, i)
  }

  /** A numeric literal: its sign, the digits before and after the point, the exponent's sign and
      digits. */
  datatype Literal = Literal(neg: bool, whole: string, frac: string, expNeg: bool, exp: string)

  /** The whole of `t` read as `[+-]digits[.digits][(e|E)[+-]digits]`, with at least one digit before
      the exponent and at least one in it; None for any other text. */
  function ParseLiteral(t: string): (r: Option<Literal>)
    ensures r.Some? ==> AllDigits(r.value.whole) && AllDigits(r.value.frac) && AllDigits(r.value.exp)
  {
    var (neg, a) := SignAt(t, 0);
    var b := DigitsEnd(t, a);
    var c := if b < |t| && t[b] == '.' then b + 1 else b;
    var d := DigitsEnd(t, c);
    if b == a && d == c then None
    else if d == |t| then Some(Literal(neg, t[a..b], t[c..d], false, ""))
    else if t[d] != 'e' && t[d] != 'E' then None
    else
      var (expNeg, f) := SignAt(t, d + 1);
      var g := DigitsEnd(t, f);
      if g == f || g != |t| then None
      else Some(Literal(neg, t[a..b], t[c..d], expNeg, t[f..g]))
  }

  function Pow10(n: nat): (r: nat)
    ensures r >= 1
  {
    if n == 0 then 1 else 10 * Pow10(n - 1)
  }

  /** The exact value of a literal (SQLite rounds it to a double). */
  function LiteralValue(l: Literal): real
    requires AllDigits(l.whole) && AllDigits(l.frac) && AllDigits(l.exp)
  {
    assert AllDigits(l.whole + l.frac) by {
      forall k | 0 <= k < |l.whole + l.frac| ensures IsDigit((l.whole + l.frac)[k]) {
        if k >= |l.whole| {
          assert (l.whole + l.frac)[k] == l.frac[k - |l.whole|];
        }
      }
    }
    var m := (DecimalValue(l.whole + l.frac) as real) / (Pow10(|l.frac|) as real);
    var scale := Pow10(DecimalValue(l.exp)) as real;
    var v := if l.expNeg then m / scale else m * scale;
    if l.neg then -v else v
  }

  /** A text under NUMERIC affinity: the value of the literal it holds between SQLite spaces, or None
      when it holds none, in which case it stays text. */
  function NumericText(s: string): Option<real> {
    match ParseLiteral(Strip(s, SQL_SPACE))
    case None => None
    case Some(l) => Some(LiteralValue(l))
  }

  /** The value NUMERIC affinity reads from a text whose stripped form parses as `l`. */
  lemma NumericTextOf(s: string, t: string, l: Literal)
    requires Strip(s, SQL_SPACE) == t && ParseLiteral(t) == Some(l)
    ensures NumericText(s) == Some(LiteralValue(l))
  {
  }

  /** A literal is written with digits, signs, a point and an exponent letter only. */
  lemma LiteralChars(t: string)
    requires ParseLiteral(t).Some?
    ensures forall k :: 0 <= k < |t| ==> NumericChar(t[k])
  {
    var (neg, a) := SignAt(t, 0);
    var b := DigitsEnd(t, a);
    var c := if b < |t| && t[b] == '.' then b + 1 else b;
    var d := DigitsEnd(t, c);
    if d < |t| {
      var (expNeg, f) := SignAt(t, d + 1);
      var g := DigitsEnd(t, f);
    }
  }

  /** A text holding a character that is neither a SQLite space nor a literal's character converts to
      no number. */
  lemma NumericTextChars(s: string, c: char)
    requires c in s && c !in SQL_SPACE && !NumericChar(c)
    ensures NumericText(s).None?
  {
    var t := Strip(s, SQL_SPACE);
    var i := StripSplits(s, SQL_SPACE);
    if ParseLiteral(t).Some? {
      LiteralChars(t);
      forall k | 0 <= k < |s| ensures s[k] != c {
        if i <= k < i + |t| {
          assert s[k] == t[k - i];
        }
      }
    }
  }

  /** `WHERE id = ?`: the INTEGER PRIMARY KEY against a bound parameter, which has no affinity. An
      integer compares by value; a text is first converted under NUMERIC affinity, so "05" or
      " +5.0 " matches id 5; NULL and a BLOB match nothing. */
  predicate IdMatches(id: int, key: Value) {
    match key
    case Null => false
    case Int(i) => i == id
    case Text(s) => NumericText(s) == Some(id as real)
    case NumpyBool(_) => false
  }

  /** A bound parameter compared with the TEXT column `url`: TEXT affinity turns an integer into its
      decimal text and leaves the others as they are. */
  function UrlKey(key: Value): (r: Value)
    ensures !key.Int? ==> r == key
    ensures key.Int? ==> r == Text(IntText(key.i))
  {
    if key.Int? then Text(IntText(key.i)) else key
  }

  /** `update_score` as written: it tests that some row has `url = key`, then sets `score` on the rows
      with `id = key`. */
  function UpdateScore(jobs: seq<JobRow>, key: Value, score: Value): (r: seq<JobRow>)
    ensures |r| == |jobs|
  {
    if !HasJobUrl(jobs, UrlKey(key)) then jobs
    else seq(|jobs|, i requires 0 <= i < |jobs| => if IdMatches(jobs[i].id, key) then jobs[i].(score := score) else jobs[i])
  }

  /** NUMERIC affinity reads a leading zero: the key "05" names id 5. */
  lemma LeadingZeroKey()
    ensures IdMatches(5, Text("05"))
  {
    var l := Literal(false, "05", "", false, "");
    assert Strip("05", SQL_SPACE) == "05" by { StripPadded("", "05", "", SQL_SPACE); }
    ZeroFiveParse();
    NumericTextOf("05", "05", l);
    ZeroFiveValue();
  }

  lemma ZeroFiveParse()
    ensures ParseLiteral("05") == Some(Literal(false, "05", "", false, ""))
  {
    var t := "05";
    assert SignAt(t, 0) == (false, 0);
    assert DigitsEnd(t, 2) == 2;
    assert DigitsEnd(t, 1) == 2;
    assert DigitsEnd(t, 0) == 2;
    assert t[0..2] == "05" && t[2..2] == "";
  }

  lemma ZeroFiveValue()
    ensures LiteralValue(Literal(false, "05", "", false, "")) == 5.0
  {
    assert "05" + "" == "05";
    assert DecimalValue("05") == 5 by { assert "05"[..1] == "0"; assert "0"[..0] == ""; }
    assert Pow10(|""|) == 1;
    assert Pow10(DecimalValue("")) == 1;
  }

  /** NUMERIC affinity skips spaces and reads a sign and a zero fraction: " +5.0 " names id 5. */
  lemma PaddedRealKey()
    ensures IdMatches(5, Text(" +5.0 "))
  {
    var l := Literal(false, "5", "0", false, "");
    PaddedRealStrip();
    PlusFiveParse();
    NumericTextOf(" +5.0 ", "+5.0", l);
    FiveValue();
  }

  lemma FiveValue()
    ensures LiteralValue(Literal(false, "5", "0", false, "")) == 5.0
  {
    assert "5" + "0" == "50";
    assert DecimalValue("50") == 50 by { assert "50"[..1] == "5"; assert "5"[..0] == ""; }
    assert Pow10(|"0"|) == 10;
    assert Pow10(DecimalValue("")) == 1;
  }

  lemma PaddedRealStrip()
    ensures Strip(" +5.0 ", SQL_SPACE) == "+5.0"
  {
    assert " +5.0 " == " " + "+5.0" + " ";
    StripPadded(" ", "+5.0", " ", SQL_SPACE);
  }

  lemma PlusFiveParse()
    ensures ParseLiteral("+5.0") == Some(Literal(false, "5", "0", false, ""))
  {
    var t := "+5.0";
    assert SignAt(t, 0) == (false, 1);
    assert DigitsEnd(t, 2) == 2;
    assert DigitsEnd(t, 1) == 2;
    assert DigitsEnd(t, 4) == 4;
    assert DigitsEnd(t, 3) == 4;
    assert t[1..2] == "5" && t[3..4] == "0";
  }

  /** The integer 5 compared with the url column is the text "5". */
  lemma IntegerUrlKey()
    ensures UrlKey(Int(5)) == Text("5")
  {
    assert Decimal(5) == "5";
  }

  /** A key holding a character that is neither a digit, a sign, '.', 'e', 'E' nor a SQLite space
      matches no id. */
  lemma IdKeyChars(id: int, s: string, c: char)
    requires c in s && c !in SQL_SPACE && !NumericChar(c)
    ensures !IdMatches(id, Text(s))
  {
    NumericTextChars(s, c);
  }

  /** `score_jobs` passes a url as the key: a url containing ':' converts to no number and matches no
      id, so the table is unchanged. */
  lemma UpdateScoreWithUrlKey(jobs: seq<JobRow>, url: string, score: Value)
    requires ':' in url
    ensures UpdateScore(jobs, Text(url), score) == jobs
  {
    var r := UpdateScore(jobs, Text(url), score);
    NumericTextChars(url, ':');
    forall i | 0 <= i < |jobs| ensures r[i] == jobs[i] {
      assert !IdMatches(jobs[i].id, Text(url));
    }
  }

  /** `update_score` sets the score of the rows whose id matches the key, and nothing else, and only
      when some row's url matches it too. */
  lemma UpdateScoreOnlyScore(jobs: seq<JobRow>, key: Value, score: Value)
    ensures var r := UpdateScore(jobs, key, score);
      forall i :: 0 <= i < |jobs| ==>
        r[i] == if HasJobUrl(jobs, UrlKey(key)) && IdMatches(jobs[i].id, key) then jobs[i].(score := score) else jobs[i]
  {
  }

  // ---------------------------------------------------------------------------------------------
  // The known_links table

  /** `url_exists_knowns_links`. */
  predicate KnownLink(links: seq<LinkRow>, url: string) {
    exists i :: 0 <= i < |links| && links[i].url == url
  }

  /** `get_is_job_page`: the verdict of the first row for the url (`fetchone`), None when there is none. */
  function StoredVerdict(links: seq<LinkRow>, url: string): (r: Option<bool>)
    ensures r.Some? <==> KnownLink(links, url)
    decreases |links|
  {
    if |links| == 0 then None
    else if links[0].url == url then Some(links[0].isJobPage)
    else
      var r := StoredVerdict(links[1..], url);
      assert KnownLink(links[1..], url) ==> KnownLink(links, url) by {
        if KnownLink(links[1..], url) {
          var i :| 0 <= i < |links[1..]| && links[1..][i].url == url;
          assert links[i + 1].url == url;
        }
      }
      assert KnownLink(links, url) ==> KnownLink(links[1..], url) by {
        if KnownLink(links, url) {
          var i :| 0 <= i < |links| && links[i].url == url;
          assert links[1..][i - 1].url == url;
        }
      }
      r
  }

  /** Appending rows never changes the verdict of a url already known, and a url not yet known takes
      its verdict from the appended rows. */
  lemma {:induction false} StoredVerdictAppend(links: seq<LinkRow>, more: seq<LinkRow>, url: string)
    ensures KnownLink(links, url) ==> StoredVerdict(links + more, url) == StoredVerdict(links, url)
    ensures !KnownLink(links, url) ==> StoredVerdict(links + more, url) == StoredVerdict(more, url)
    decreases |links|
  {
    if |links| == 0 {
      assert links + more == more;
    } else {
      assert (links + more)[1..] == links[1..] + more;
      StoredVerdictAppend(links[1..], more, url);
    }
  }

  /** Once a url is known, growing the table never changes its verdict. */
  lemma StoredVerdictPrefix(links: seq<LinkRow>, later: seq<LinkRow>, url: string)
    requires links <= later && KnownLink(links, url)
    ensures KnownLink(later, url) && StoredVerdict(later, url) == StoredVerdict(links, url)
  {
    assert later == links + later[|links|..];
    StoredVerdictAppend(links, later[|links|..], url);
  }

  /** The row `add_known_link` inserts. */
  function NewLinkRow(links: seq<LinkRow>, url: string, isJobPage: bool, now: string): LinkRow {
    LinkRow(NextRowId(LinkIds(links)), url, isJobPage, now)
  }

  /** At most one row per url, and distinct ids. The table does not enforce it; the callers do. */
  predicate UniqueLinks(links: seq<LinkRow>) {
    forall i, j :: 0 <= i < j < |links| ==> LinksApart(links, i, j)
  }

  /** Rows `i` and `j` differ in id and in url. */
  predicate LinksApart(links: seq<LinkRow>, i: int, j: int)
    requires 0 <= i < j < |links|
  {
    links[i].id != links[j].id && links[i].url != links[j].url
  }

  /** Adding a url that is not yet known keeps the table unique and records the verdict. */
  lemma AddLinkKeepsUnique(links: seq<LinkRow>, url: string, isJobPage: bool, now: string)
    requires UniqueLinks(links) && !KnownLink(links, url)
    ensures UniqueLinks(links + [NewLinkRow(links, url, isJobPage, now)])
    ensures StoredVerdict(links + [NewLinkRow(links, url, isJobPage, now)], url) == Some(isJobPage)
  {
    var r := links + [NewLinkRow(links, url, isJobPage, now)];
    NextRowIdFresh(LinkIds(links));
    forall i, j | 0 <= i < j < |r| ensures LinksApart(r, i, j) {
      if j == |links| {
        assert LinkIds(links)[i] == links[i].id;
        assert r[i] == links[i];
      } else {
        assert LinksApart(links, i, j);
      }
    }
    StoredVerdictAppend(links, [NewLinkRow(links, url, isJobPage, now)], url);
  }

  // ---------------------------------------------------------------------------------------------
  // Queries: rows in table order, filtered, then `lst.reverse()`

  /** `SELECT url FROM known_links WHERE is_job_page = 1 AND date >= day`, in table order. */
  function JobPagesSince(links: seq<LinkRow>, day: string): seq<string>
    decreases |links|
  {
    if |links| == 0 then []
    else (if links[0].isJobPage && LexLessEq(day, links[0].date) then [links[0].url] else [])
         + JobPagesSince(links[1..], day)
  }

  /** `get_jobs_descriptions`. */
  function GetJobsDescriptions(links: seq<LinkRow>, day: string): seq<string> {
    Reverse(JobPagesSince(links, day))
  }

  /** A url is listed exactly when some job-page row for it is stamped no earlier than the day. */
  lemma {:induction false} JobPagesSinceMembers(links: seq<LinkRow>, day: string, u: string)
    ensures u in JobPagesSince(links, day) <==>
      exists i :: 0 <= i < |links| && links[i].url == u && links[i].isJobPage && LexLessEq(day, links[i].date)
    decreases |links|
  {
    if |links| > 0 {
      JobPagesSinceMembers(links[1..], day, u);
      if u in JobPagesSince(links[1..], day) {
        var i :| 0 <= i < |links[1..]| && links[1..][i].url == u && links[1..][i].isJobPage
                 && LexLessEq(day, links[1..][i].date);
        assert links[i + 1] == links[1..][i];
      }
      if exists i :: 0 <= i < |links| && links[i].url == u && links[i].isJobPage && LexLessEq(day, links[i].date) {
        var i :| 0 <= i < |links| && links[i].url == u && links[i].isJobPage && LexLessEq(day, links[i].date);
        if i > 0 {
          assert links[1..][i - 1] == links[i];
        }
      }
    }
  }

  predicate Distinct<T(==)>(s: seq<T>) {
    forall i, j :: 0 <= i < j < |s| ==> s[i] != s[j]
  }

  /** With one row per url, the selection lists each url once. */
  lemma {:induction false} JobPagesSinceDistinct(links: seq<LinkRow>, day: string)
    requires UniqueLinks(links)
    ensures Distinct(JobPagesSince(links, day))
    decreases |links|
  {
    if |links| > 0 {
      var rest := JobPagesSince(links[1..], day);
      assert UniqueLinks(links[1..]) by {
        forall i, j | 0 <= i < j < |links[1..]| ensures LinksApart(links[1..], i, j) {
          assert links[1..][i] == links[i + 1] && links[1..][j] == links[j + 1];
          assert LinksApart(links, i + 1, j + 1);
        }
      }
      JobPagesSinceDistinct(links[1..], day);
      if links[0].isJobPage && LexLessEq(day, links[0].date) {
        JobPagesSinceMembers(links[1..], day, links[0].url);
        var r := [links[0].url] + rest;
        forall k | 0 <= k < |links[1..]| ensures links[1..][k].url != links[0].url {
          assert LinksApart(links, 0, k + 1);
        }
        forall i, j | 0 <= i < j < |r| ensures r[i] != r[j] {
          if i == 0 {
            assert r[j] == rest[j - 1];
          } else {
            assert r[i] == rest[i - 1] && r[j] == rest[j - 1];
          }
        }
      }
    }
  }

  /** Reversal keeps a list free of repeats. */
  lemma ReverseDistinct<T>(s: seq<T>)
    requires Distinct(s)
    ensures Distinct(Reverse(s))
  {
    var r := Reverse(s);
    forall i, j | 0 <= i < j < |r| ensures r[i] != r[j] {
      assert r[i] == s[|s| - 1 - i] && r[j] == s[|s| - 1 - j];
    }
  }

  /** `get_jobs_descriptions` lists, newest row first, each job-page url recorded on or after the day
      once: a row stamped "day HH:MM" on the day itself is included. */
  lemma GetJobsDescriptionsSpec(links: seq<LinkRow>, day: string, u: string, time: string)
    ensures u in GetJobsDescriptions(links, day) <==>
      exists i :: 0 <= i < |links| && links[i].url == u && links[i].isJobPage && LexLessEq(day, links[i].date)
    ensures UniqueLinks(links) ==> Distinct(GetJobsDescriptions(links, day))
    ensures (exists i :: 0 <= i < |links| && links[i].url == u && links[i].isJobPage && links[i].date == day + time)
            ==> u in GetJobsDescriptions(links, day)
  {
    var sel := JobPagesSince(links, day);
    JobPagesSinceMembers(links, day, u);
    assert u in Reverse(sel) <==> u in sel by {
      if u in sel {
        var k :| 0 <= k < |sel| && sel[k] == u;
        assert Reverse(sel)[|sel| - 1 - k] == u;
      }
    }
    if UniqueLinks(links) {
      JobPagesSinceDistinct(links, day);
      ReverseDistinct(sel);
    }
    PrefixLexLessEq(day, time);
  }

  /** `SELECT url, description FROM jobs WHERE is_relevant = 1`, in table order. */
  function RelevantJobs(jobs: seq<JobRow>): seq<(Value, Value)>
    decreases |jobs|
  {
    if |jobs| == 0 then []
    else (if jobs[0].isRelevant == Int(1) then [(jobs[0].url, jobs[0].description)] else [])
         + RelevantJobs(jobs[1..])
  }

  /** `get_jobs_to_score`. */
  function GetJobsToScore(jobs: seq<JobRow>): seq<(Value, Value)> {
    Reverse(RelevantJobs(jobs))
  }

  /** The jobs to score are exactly the (url, description) pairs of the rows marked relevant. */
  lemma {:induction false} RelevantJobsMembers(jobs: seq<JobRow>, p: (Value, Value))
    ensures p in RelevantJobs(jobs) <==>
      exists i :: 0 <= i < |jobs| && jobs[i].isRelevant == Int(1) && (jobs[i].url, jobs[i].description) == p
    decreases |jobs|
  {
    if |jobs| > 0 {
      RelevantJobsMembers(jobs[1..], p);
      if p in RelevantJobs(jobs[1..]) {
        var i :| 0 <= i < |jobs[1..]| && jobs[1..][i].isRelevant == Int(1)
                 && (jobs[1..][i].url, jobs[1..][i].description) == p;
        assert jobs[i + 1] == jobs[1..][i];
      }
      if exists i :: 0 <= i < |jobs| && jobs[i].isRelevant == Int(1) && (jobs[i].url, jobs[i].description) == p {
        var i :| 0 <= i < |jobs| && jobs[i].isRelevant == Int(1) && (jobs[i].url, jobs[i].description) == p;
        if i > 0 {
          assert jobs[1..][i - 1] == jobs[i];
        }
      }
    }
  }

  lemma GetJobsToScoreMembers(jobs: seq<JobRow>, p: (Value, Value))
    ensures p in GetJobsToScore(jobs) <==>
      exists i :: 0 <= i < |jobs| && jobs[i].isRelevant == Int(1) && (jobs[i].url, jobs[i].description) == p
  {
    var sel := RelevantJobs(jobs);
    RelevantJobsMembers(jobs, p);
    if p in sel {
      var k :| 0 <= k < |sel| && sel[k] == p;
      assert Reverse(sel)[|sel| - 1 - k] == p;
    }
  }

  /** A row appended to the table adds its own pair, when it is marked relevant, at the end. */
  lemma {:induction false} RelevantJobsAppend(jobs: seq<JobRow>, row: JobRow)
    ensures RelevantJobs(jobs + [row]) ==
      RelevantJobs(jobs) + (if row.isRelevant == Int(1) then [(row.url, row.description)] else [])
    decreases |jobs|
  {
    if |jobs| == 0 {
      assert [row][1..] == [];
    } else {
      var head := if jobs[0].isRelevant == Int(1) then [(jobs[0].url, jobs[0].description)] else [];
      var last := if row.isRelevant == Int(1) then [(row.url, row.description)] else [];
      assert (jobs + [row])[0] == jobs[0];
      assert (jobs + [row])[1..] == jobs[1..] + [row];
      RelevantJobsAppend(jobs[1..], row);
      assert head + (RelevantJobs(jobs[1..]) + last) == (head + RelevantJobs(jobs[1..])) + last;
    }
  }
}
