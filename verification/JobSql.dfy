/** A reader for the queries on the jobs table: it takes the text apart and evaluates it
    on a row, with the arguments in the order of the placeholders. */
module JobSql {
  import opened Wrappers
  import opened GoStrings
  import opened Cron
  import opened Jobs

  datatype Arg = Text(text: string) | StatusArg(status: Status) | Time(time: Instant)

  datatype Clause = UserIs | TypeIs | StatusIs | StatusIn(count: nat) | NotBefore {
    /** The number of arguments. */
    function Width(): nat {
      if StatusIn? then count else 1
    }

    predicate Holds(args: seq<Arg>, row: Row)
      requires |args| == Width()
    {
      match this
      case UserIs => args[0] == Text(row.key.userID)
      case TypeIs => args[0] == Text(row.key.jobType)
      case StatusIs => args[0] == StatusArg(row.status)
      case StatusIn(_) => StatusArg(row.status) in args
      case NotBefore => args[0].Time? && args[0].time <= row.nextRun
    }
  }

  const HEAD := "SELECT * FROM jobs"
  const WHERE := " WHERE "
  const AND := " AND "
  const TAIL := " ORDER BY next_run ASC"

  /** The parts of a text between the occurrences of " AND ". */
  function SplitAnd(s: string): (parts: seq<string>)
    ensures |parts| > 0
  {
    if |s| < 5 then [s]
    else if s[..5] == AND then [""] + SplitAnd(s[5..])
    else
      var rest := SplitAnd(s[1..]);
      [[s[0]] + rest[0]] + rest[1..]
  }

  /** The number of question marks in a list of them with commas between. */
  function ReadMarks(s: string): Option<nat> {
    if s == "?" then Some(1)
    else if |s| >= 2 && s[0] == '?' && s[1] == ',' then
      match ReadMarks(s[2..])
      case Some(n) => Some(n + 1)
      case None => None
    else None
  }

  function ReadClause(text: string): Option<Clause> {
    if text == "user_id = ?" then Some(UserIs)
    else if text == "type = ?" then Some(TypeIs)
    else if text == "status = ?" then Some(StatusIs)
    else if text == "next_run >= ?" then Some(NotBefore)
    else if |text| >= 12 && text[..11] == "status IN (" && text[|text| - 1] == ')' then
      match ReadMarks(text[11..|text| - 1])
      case Some(n) => Some(StatusIn(n))
      case None => None
    else None
  }

  function ReadClauses(texts: seq<string>): Option<seq<Clause>> {
    if texts == [] then Some([])
    else
      match (ReadClause(texts[0]), ReadClauses(texts[1..]))
      case (Some(c), Some(rest)) => Some([c] + rest)
      case _ => None
  }

  /** A query over all columns, in ascending order of `next_run`. */
  function ReadQuery(query: string): Option<seq<Clause>> {
    var n, tail := |query|, |TAIL|;
    if n < |HEAD| + tail || query[..|HEAD|] != HEAD || query[n - tail..] != TAIL then None
    else
      var middle := query[|HEAD|..n - tail];
      if middle == "" then Some([])
      else if |middle| < |WHERE| || middle[..|WHERE|] != WHERE then None
      else ReadClauses(SplitAnd(middle[|WHERE|..]))
  }

  /** The conjunction, where each clause takes its arguments from the front; `None` if there
      are too few or too many. */
  function EvaluateClauses(clauses: seq<Clause>, args: seq<Arg>, row: Row): Option<bool> {
    if clauses == [] then (if args == [] then Some(true) else None)
    else
      var w := clauses[0].Width();
      if |args| < w then None
      else
        match EvaluateClauses(clauses[1..], args[w..], row)
        case Some(b) => Some(clauses[0].Holds(args[..w], row) && b)
        case None => None
  }

  /** Whether the query with these arguments selects the row; `None` if the text is not such
      a query or does not fit the arguments. */
  function Evaluate(query: string, args: seq<Arg>, row: Row): Option<bool> {
    match ReadQuery(query)
    case Some(clauses) => EvaluateClauses(clauses, args, row)
    case None => None
  }

  // ---------------------------------------------------------------------------
  // Reading what was joined

  lemma {:induction false} SplitAndNone(w: string)
    requires 'A' !in w
    ensures SplitAnd(w) == [w]
    decreases |w|
  {
    if |w| >= 5 {
      assert w[..5][1] == w[1];
      SplitAndNone(w[1..]);
      assert [w[0]] + w[1..] == w;
    }
  }

  lemma {:induction false} SplitAndText(w: string, rest: string)
    requires 'A' !in w
    ensures SplitAnd(w + AND + rest) == [w] + SplitAnd(rest)
    decreases |w|
  {
    var s := w + AND + rest;
    if w == "" {
      assert s == AND + rest && s[..5] == AND && s[5..] == rest;
    } else {
      assert s[..5][1] == s[1] && s[1] != 'A';
      assert s[1..] == w[1..] + AND + rest;
      SplitAndText(w[1..], rest);
      assert [w[0]] + w[1..] == w;
    }
  }

  lemma {:induction false} SplitAndJoin(texts: seq<string>)
    requires texts != [] && forall i :: 0 <= i < |texts| ==> 'A' !in texts[i]
    ensures SplitAnd(Join(texts, AND)) == texts
  {
    if |texts| == 1 {
      SplitAndNone(texts[0]);
    } else {
      SplitAndJoin(texts[1..]);
      SplitAndText(texts[0], Join(texts[1..], AND));
      assert texts == [texts[0]] + texts[1..];
    }
  }

  lemma {:induction false} ReadMarkList(n: nat)
    requires n > 0
    ensures ReadMarks(Join(seq(n, _ => "?"), ",")) == Some(n)
  {
    var list: seq<string> := seq(n, _ => "?");
    if n > 1 {
      var rest: seq<string> := seq(n - 1, _ => "?");
      assert list[1..] == rest;
      ReadMarkList(n - 1);
      var s := Join(list, ",");
      assert s == "?" + "," + Join(rest, ",");
      assert s[2..] == Join(rest, ",");
    }
  }

  lemma ReadStatusList(n: nat)
    requires n > 0
    ensures ReadClause("status IN (" + Join(seq(n, _ => "?"), ",") + ")") == Some(StatusIn(n))
  {
    var list := Join(seq(n, _ => "?"), ",");
    var text := "status IN (" + list + ")";
    ReadMarkList(n);
    assert text[..11] == "status IN (" && text[11..|text| - 1] == list && text[|text| - 1] == ')';
    assert text[7] == 'I';
  }

  lemma ReadWithoutClauses()
    ensures ReadQuery(HEAD + TAIL) == Some([])
  {
    var query := HEAD + TAIL;
    assert query[..|HEAD|] == HEAD && query[|query| - |TAIL|..] == TAIL;
    assert query[|HEAD|..|query| - |TAIL|] == "";
  }

  lemma ReadWithClauses(list: string)
    ensures ReadQuery(HEAD + WHERE + list + TAIL) == ReadClauses(SplitAnd(list))
  {
    var query := HEAD + WHERE + list + TAIL;
    assert query[..|HEAD|] == HEAD && query[|query| - |TAIL|..] == TAIL;
    var middle := query[|HEAD|..|query| - |TAIL|];
    assert middle == WHERE + list && middle[..|WHERE|] == WHERE && middle[|WHERE|..] == list;
  }
}
