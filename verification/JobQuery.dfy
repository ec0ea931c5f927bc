/** The WHERE clause that `SQLiteJobStore.ListJobs` builds from a filter. */
module JobQuery {
  import opened Wrappers
  import opened GoStrings
  import opened Cron
  import opened Jobs
  import opened JobSql

  datatype JobFilter = JobFilter(
    userID: string, jobType: string, status: Status, nextRun: Instant, statuses: seq<Status>)

  const NO_FILTER := JobFilter("", "", NoStatus, 0, [])

  /** What a filter means: empty fields do not restrict the rows. */
  predicate Selects(filter: JobFilter, row: Row) {
    && (filter.userID != "" ==> row.key.userID == filter.userID)
    && (filter.jobType != "" ==> row.key.jobType == filter.jobType)
    && (filter.status != NoStatus ==> row.status == filter.status)
    && (filter.statuses != [] ==> row.status in filter.statuses)
    && (filter.nextRun != 0 ==> filter.nextRun <= row.nextRun)
  }

  // ---------------------------------------------------------------------------
  // Conditions with positional arguments

  datatype Column = UserIdColumn | TypeColumn | StatusColumn | NextRunColumn {
    function Name(): string {
      match this
      case UserIdColumn => "user_id"
      case TypeColumn => "type"
      case StatusColumn => "status"
      case NextRunColumn => "next_run"
    }
  }

  function ColumnValue(row: Row, column: Column): Arg {
    match column
    case UserIdColumn => Text(row.key.userID)
    case TypeColumn => Text(row.key.jobType)
    case StatusColumn => StatusArg(row.status)
    case NextRunColumn => Time(row.nextRun)
  }

  datatype Condition = Equal(column: Column) | OneOf(column: Column, count: nat) | AtLeast(column: Column) {
    /** The number of placeholders. */
    function Width(): nat {
      match this
      case Equal(_) => 1
      case OneOf(_, count) => count
      case AtLeast(_) => 1
    }

    function Show(): string {
      match this
      case Equal(column) => column.Name() + " = ?"
      case OneOf(column, count) => column.Name() + " IN (" + Join(seq(count, _ => "?"), ",") + ")"
      case AtLeast(column) => column.Name() + " >= ?"
    }

    predicate Holds(args: seq<Arg>, row: Row)
      requires |args| == Width()
    {
      match this
      case Equal(column) => ColumnValue(row, column) == args[0]
      case OneOf(column, _) => ColumnValue(row, column) in args
      case AtLeast(column) =>
        var v := ColumnValue(row, column);
        v.Time? && args[0].Time? && v.time >= args[0].time
    }

    function Slots(): (slots: seq<Slot>)
      ensures |slots| == Width()
    {
      match this
      case Equal(column) => [Slot(column, None)]
      case OneOf(column, count) => seq(count, (i: nat) => Slot(column, Some(i)))
      case AtLeast(column) => [Slot(column, None)]
    }
  }

  function Placeholders(conditions: seq<Condition>): nat {
    if conditions == [] then 0 else conditions[0].Width() + Placeholders(conditions[1..])
  }

  /** The conjunction, where each condition takes its arguments from the front. */
  predicate AllHold(conditions: seq<Condition>, args: seq<Arg>, row: Row)
    requires |args| == Placeholders(conditions)
  {
    conditions == []
    || var w := conditions[0].Width();
       conditions[0].Holds(args[..w], row) && AllHold(conditions[1..], args[w..], row)
  }

  /** The place of a placeholder in the text: its column and, in a list, its index. */
  datatype Slot = Slot(column: Column, index: Option<nat>)

  function Slots(conditions: seq<Condition>): (slots: seq<Slot>)
    ensures |slots| == Placeholders(conditions)
  {
    if conditions == [] then [] else conditions[0].Slots() + Slots(conditions[1..])
  }

  /** What the filter wants to be compared at a place of the text. */
  ghost predicate Wants(filter: JobFilter, slot: Slot, arg: Arg) {
    match slot
    case Slot(UserIdColumn, None) => arg == Text(filter.userID)
    case Slot(TypeColumn, None) => arg == Text(filter.jobType)
    case Slot(StatusColumn, None) => arg == StatusArg(filter.status)
    case Slot(StatusColumn, Some(i)) => i < |filter.statuses| && arg == StatusArg(filter.statuses[i])
    case Slot(NextRunColumn, None) => arg == Time(filter.nextRun)
    case _ => false
  }

  ghost predicate EachWanted(filter: JobFilter, conditions: seq<Condition>, args: seq<Arg>) {
    && |args| == |Slots(conditions)|
    && forall k :: 0 <= k < |args| ==> Wants(filter, Slots(conditions)[k], args[k])
  }

  lemma {:induction false} AppendSlots(conditions: seq<Condition>, condition: Condition)
    ensures Slots(conditions + [condition]) == Slots(conditions) + condition.Slots()
    ensures Placeholders(conditions + [condition]) == Placeholders(conditions) + condition.Width()
  {
    hide Condition.Slots, Condition.Width;
    var all := conditions + [condition];
    if conditions == [] {
      assert all == [condition] && all[1..] == [];
      assert condition.Slots() + [] == condition.Slots();
    } else {
      assert all[0] == conditions[0] && all[1..] == conditions[1..] + [condition];
      AppendSlots(conditions[1..], condition);
    }
  }

  lemma {:induction false} AppendCondition(
    conditions: seq<Condition>, args: seq<Arg>, condition: Condition, more: seq<Arg>, row: Row)
    requires |args| == Placeholders(conditions) && |more| == condition.Width()
    ensures Placeholders(conditions + [condition]) == |args + more|
    ensures AllHold(conditions + [condition], args + more, row)
            <==> AllHold(conditions, args, row) && condition.Holds(more, row)
  {
    hide Condition.Slots, Condition.Width, Condition.Holds, Slots;
    AppendSlots(conditions, condition);
    var all := conditions + [condition];
    if conditions == [] {
      assert all == [condition] && args + more == more;
      assert more[..condition.Width()] == more;
      assert all[1..] == [];
    } else {
      var w := conditions[0].Width();
      assert all[0] == conditions[0] && all[1..] == conditions[1..] + [condition];
      AppendCondition(conditions[1..], args[w..], condition, more, row);
      assert (args + more)[..w] == args[..w];
      assert (args + more)[w..] == args[w..] + more;
    }
  }

  lemma ExtendWanted(filter: JobFilter, conditions: seq<Condition>, args: seq<Arg>, condition: Condition, more: seq<Arg>)
    requires EachWanted(filter, conditions, args) && |more| == condition.Width()
    requires forall k :: 0 <= k < |more| ==> Wants(filter, condition.Slots()[k], more[k])
    ensures EachWanted(filter, conditions + [condition], args + more)
  {
    hide Wants, Condition.Slots, Condition.Width, Slots;
    AppendSlots(conditions, condition);
  }

  lemma Extend(filter: JobFilter, conditions: seq<Condition>, args: seq<Arg>, condition: Condition, more: seq<Arg>)
    requires EachWanted(filter, conditions, args) && |more| == condition.Width()
    requires forall k :: 0 <= k < |more| ==> Wants(filter, condition.Slots()[k], more[k])
    ensures EachWanted(filter, conditions + [condition], args + more)
    ensures forall row :: AllHold(conditions + [condition], args + more, row)
                          <==> AllHold(conditions, args, row) && condition.Holds(more, row)
  {
    ExtendWanted(filter, conditions, args, condition, more);
    hide Wants, Condition.Slots, Condition.Width, Condition.Holds, Slots, AllHold;
    forall row
      ensures AllHold(conditions + [condition], args + more, row)
              <==> AllHold(conditions, args, row) && condition.Holds(more, row)
    {
      AppendCondition(conditions, args, condition, more, row);
    }
  }

  // ---------------------------------------------------------------------------
  // The text of the query

  function ConditionTexts(conditions: seq<Condition>): seq<string> {
    if conditions == [] then [] else [conditions[0].Show()] + ConditionTexts(conditions[1..])
  }

  function QueryText(conditions: seq<string>): string {
    (if conditions == [] then "SELECT * FROM jobs" else "SELECT * FROM jobs WHERE ")
    + Join(conditions, " AND ")
    + " ORDER BY next_run ASC"
  }

  function Marks(s: string): nat {
    if s == "" then 0 else (if s[0] == '?' then 1 else 0) + Marks(s[1..])
  }

  lemma {:induction false} MarksConcat(a: string, b: string)
    ensures Marks(a + b) == Marks(a) + Marks(b)
  {
    if a == "" {
      assert a + b == b;
    } else {
      assert (a + b)[1..] == a[1..] + b;
      MarksConcat(a[1..], b);
    }
  }

  lemma {:induction false} MarksNone(s: string)
    requires '?' !in s
    ensures Marks(s) == 0
  {
    if s != "" {
      assert s[0] in s;
      MarksNone(s[1..]);
    }
  }

  lemma {:induction false} MarksList(n: nat)
    ensures Marks(Join(seq(n, _ => "?"), ",")) == n
  {
    var list: seq<string> := seq(n, _ => "?");
    assert Marks("?") == 1 + Marks("?"[1..]);
    if n > 1 {
      var rest: seq<string> := seq(n - 1, _ => "?");
      assert list[1..] == rest;
      MarksList(n - 1);
      MarksNone(",");
      MarksConcat("?", ",");
      MarksConcat("?" + ",", Join(rest, ","));
    }
  }

  lemma MarksAround(before: string, list: string, after: string)
    requires '?' !in before && '?' !in after
    ensures Marks(before + list + after) == Marks(list)
  {
    hide Marks;
    MarksNone(before);
    MarksNone(after);
    MarksConcat(before, list);
    MarksConcat(before + list, after);
  }

  lemma NameHasNoMark(column: Column)
    ensures '?' !in column.Name()
  {
  }

  lemma MarksComparison(column: Column, operator: string)
    requires '?' !in operator
    ensures Marks(column.Name() + (operator + "?")) == 1
  {
    NameHasNoMark(column);
    assert column.Name() + (operator + "?") == (column.Name() + operator) + "?" + "";
    MarksAround(column.Name() + operator, "?", "");
    assert Marks("?") == 1 + Marks("?"[1..]);
  }

  lemma MarksIn(column: Column, count: nat)
    ensures Marks(column.Name() + " IN (" + Join(seq(count, _ => "?"), ",") + ")") == count
  {
    hide Marks;
    NameHasNoMark(column);
    MarksList(count);
    MarksAround(column.Name() + " IN (", Join(seq(count, _ => "?"), ","), ")");
  }

  lemma MarksCondition(c: Condition)
    ensures Marks(c.Show()) == c.Width()
  {
    hide Marks;
    match c
    case Equal(column) =>
      MarksComparison(column, " = ");
      assert " = " + "?" == " = ?";
    case AtLeast(column) =>
      MarksComparison(column, " >= ");
      assert " >= " + "?" == " >= ?";
    case OneOf(column, count) =>
      MarksIn(column, count);
  }

  lemma {:induction false} MarksConjunction(conditions: seq<Condition>)
    ensures Marks(Join(ConditionTexts(conditions), " AND ")) == Placeholders(conditions)
  {
    if conditions != [] {
      MarksCondition(conditions[0]);
      var first, rest := conditions[0].Show(), Join(ConditionTexts(conditions[1..]), " AND ");
      MarksConjunction(conditions[1..]);
      if |conditions| > 1 {
        assert ConditionTexts(conditions)[1..] == ConditionTexts(conditions[1..]);
        assert ConditionTexts(conditions[1..]) != [];
        MarksNone(" AND ");
        MarksConcat(first, " AND ");
        MarksConcat(first + " AND ", rest);
      } else {
        assert ConditionTexts(conditions[1..]) == [];
      }
    }
  }

  /** The text has one question mark for every argument. */
  lemma MarksQuery(conditions: seq<Condition>)
    ensures Marks(QueryText(ConditionTexts(conditions))) == Placeholders(conditions)
  {
    MarksConjunction(conditions);
    MarksText(ConditionTexts(conditions));
  }

  lemma MarksText(texts: seq<string>)
    ensures Marks(QueryText(texts)) == Marks(Join(texts, " AND "))
  {
    hide Marks;
    if texts == [] {
      MarksAround("SELECT * FROM jobs", Join(texts, " AND "), " ORDER BY next_run ASC");
    } else {
      MarksAround("SELECT * FROM jobs WHERE ", Join(texts, " AND "), " ORDER BY next_run ASC");
    }
  }

  // ---------------------------------------------------------------------------
  // Reading the text back

  /** The conditions that the store writes. */
  predicate Readable(c: Condition) {
    || c == Equal(UserIdColumn) || c == Equal(TypeColumn) || c == Equal(StatusColumn) || c == AtLeast(NextRunColumn)
    || (c.OneOf? && c.column == StatusColumn && c.count > 0)
  }

  function ClauseOf(c: Condition): Clause
    requires Readable(c)
  {
    match c
    case Equal(column) => if column == UserIdColumn then UserIs else if column == TypeColumn then TypeIs else StatusIs
    case OneOf(_, count) => StatusIn(count)
    case AtLeast(_) => NotBefore
  }

  lemma ReadUser()
    ensures Equal(UserIdColumn).Show() == "user_id = ?" && ReadClause("user_id = ?") == Some(UserIs)
  {
  }

  lemma ReadType()
    ensures Equal(TypeColumn).Show() == "type = ?" && ReadClause("type = ?") == Some(TypeIs)
  {
  }

  lemma ReadStatus()
    ensures Equal(StatusColumn).Show() == "status = ?" && ReadClause("status = ?") == Some(StatusIs)
  {
  }

  lemma ReadNextRun()
    ensures AtLeast(NextRunColumn).Show() == "next_run >= ?" && ReadClause("next_run >= ?") == Some(NotBefore)
  {
  }

  lemma ReadStatuses(n: nat)
    requires n > 0
    ensures var text := OneOf(StatusColumn, n).Show(); ReadClause(text) == Some(StatusIn(n)) && 'A' !in text
  {
    hide ReadClause, Join;
    ReadStatusList(n);
    MarkListChars(n);
    var list := Join(seq(n, _ => "?"), ",");
    assert OneOf(StatusColumn, n).Show() == "status IN (" + list + ")" by {
      assert "status" + " IN (" == "status IN (";
    }
  }

  lemma ReadShow(c: Condition)
    requires Readable(c)
    ensures ReadClause(c.Show()) == Some(ClauseOf(c)) && 'A' !in c.Show()
  {
    hide ReadClause, Condition.Show;
    if c.OneOf? {
      ReadStatuses(c.count);
    } else if c == Equal(UserIdColumn) {
      ReadUser();
    } else if c == Equal(TypeColumn) {
      ReadType();
    } else if c == Equal(StatusColumn) {
      ReadStatus();
    } else {
      ReadNextRun();
    }
  }

  lemma {:induction false} MarkListChars(n: nat)
    ensures 'A' !in Join(seq(n, _ => "?"), ",")
  {
    var list: seq<string> := seq(n, _ => "?");
    if n > 1 {
      var rest: seq<string> := seq(n - 1, _ => "?");
      assert list[1..] == rest;
      MarkListChars(n - 1);
    }
  }

  lemma ClauseHolds(c: Condition, args: seq<Arg>, row: Row)
    requires Readable(c) && |args| == c.Width()
    ensures ClauseOf(c).Width() == c.Width() && ClauseOf(c).Holds(args, row) == c.Holds(args, row)
  {
  }

  ghost predicate AllReadable(conditions: seq<Condition>) {
    forall i :: 0 <= i < |conditions| ==> Readable(conditions[i])
  }

  function ClausesOf(conditions: seq<Condition>): seq<Clause>
    requires AllReadable(conditions)
  {
    if conditions == [] then [] else [ClauseOf(conditions[0])] + ClausesOf(conditions[1..])
  }

  lemma {:induction false} ReadTexts(conditions: seq<Condition>)
    requires AllReadable(conditions)
    ensures var texts := ConditionTexts(conditions);
      && |texts| == |conditions| && (forall i :: 0 <= i < |texts| ==> 'A' !in texts[i])
      && ReadClauses(texts) == Some(ClausesOf(conditions))
  {
    if conditions != [] {
      ReadShow(conditions[0]);
      ReadTexts(conditions[1..]);
      assert ConditionTexts(conditions)[1..] == ConditionTexts(conditions[1..]);
    }
  }

  lemma TextParts(texts: seq<string>)
    ensures QueryText(texts) == if texts == [] then HEAD + TAIL else HEAD + WHERE + Join(texts, AND) + TAIL
  {
    hide Join;
    assert Join([], AND) == "" by { JoinNothing(); }
    assert "SELECT * FROM jobs WHERE " == HEAD + WHERE;
  }

  lemma JoinNothing()
    ensures Join([], AND) == ""
  {
  }

  lemma ReadText(conditions: seq<Condition>)
    requires AllReadable(conditions)
    ensures ReadQuery(QueryText(ConditionTexts(conditions))) == Some(ClausesOf(conditions))
  {
    hide ReadQuery, ConditionTexts, QueryText, Join, SplitAnd, HEAD, TAIL, WHERE, AND;
    var texts := ConditionTexts(conditions);
    ReadTexts(conditions);
    TextParts(texts);
    if texts == [] {
      ReadWithoutClauses();
    } else {
      SplitAndJoin(texts);
      ReadWithClauses(Join(texts, AND));
    }
  }

  lemma {:induction false} EvaluateConditions(conditions: seq<Condition>, args: seq<Arg>, row: Row)
    requires AllReadable(conditions) && |args| == Placeholders(conditions)
    ensures EvaluateClauses(ClausesOf(conditions), args, row) == Some(AllHold(conditions, args, row))
  {
    if conditions != [] {
      var w := conditions[0].Width();
      ClauseHolds(conditions[0], args[..w], row);
      EvaluateConditions(conditions[1..], args[w..], row);
    }
  }

  /** Read back, the text with its arguments selects the rows for which the conditions hold. */
  lemma TextMeansConditions(conditions: seq<Condition>, args: seq<Arg>, row: Row)
    requires AllReadable(conditions) && |args| == Placeholders(conditions)
    ensures Evaluate(QueryText(ConditionTexts(conditions)), args, row) == Some(AllHold(conditions, args, row))
  {
    hide ReadQuery, QueryText, ConditionTexts, AllHold, ClausesOf, EvaluateClauses;
    ReadText(conditions);
    EvaluateConditions(conditions, args, row);
  }

  // ---------------------------------------------------------------------------
  // Building

  lemma {:induction false} ConditionTextsAppend(conditions: seq<Condition>, c: Condition)
    ensures ConditionTexts(conditions + [c]) == ConditionTexts(conditions) + [c.Show()]
  {
    if conditions == [] {
      assert conditions + [c] == [c];
      assert ConditionTexts([c]) == [c.Show()] + ConditionTexts([c][1..]);
    } else {
      assert (conditions + [c])[1..] == conditions[1..] + [c];
      ConditionTextsAppend(conditions[1..], c);
    }
  }

  /** The conditions collected so far, as text and as structure, with their arguments. */
  datatype Builder = Builder(texts: seq<string>, conditions: seq<Condition>, args: seq<Arg>)

  /** The restrictions of the first `n` fields of the filter. */
  predicate SelectsFirst(filter: JobFilter, n: nat, row: Row) {
    && (n > 0 && filter.userID != "" ==> row.key.userID == filter.userID)
    && (n > 1 && filter.jobType != "" ==> row.key.jobType == filter.jobType)
    && (n > 2 && filter.status != NoStatus ==> row.status == filter.status)
    && (n > 3 && filter.statuses != [] ==> row.status in filter.statuses)
    && (n > 4 && filter.nextRun != 0 ==> filter.nextRun <= row.nextRun)
  }

  ghost predicate Covers(filter: JobFilter, n: nat, b: Builder) {
    && b.texts == ConditionTexts(b.conditions) && AllReadable(b.conditions)
    && EachWanted(filter, b.conditions, b.args)
    && forall row :: AllHold(b.conditions, b.args, row) <==> SelectsFirst(filter, n, row)
  }

  /** The query and its arguments.  The text, read back and evaluated with the arguments,
      selects exactly the rows that the filter selects; it has one question mark for each
      argument; and every placeholder gets the argument that belongs to its place. */
  method BuildQuery(filter: JobFilter) returns (query: string, args: seq<Arg>, ghost conditions: seq<Condition>)
    ensures forall row :: Evaluate(query, args, row) == Some(Selects(filter, row))
    ensures Marks(query) == |args| && EachWanted(filter, conditions, args)
    ensures query == QueryText(ConditionTexts(conditions))
    ensures |query| >= |TAIL| && query[|query| - |TAIL|..] == " ORDER BY next_run ASC"
  {
    hide Covers;
    NothingCovered(filter);
    var b := Builder([], [], []);
    b := AddUser(filter, b);
    b := AddType(filter, b);
    b := AddStatus(filter, b);
    b := AddStatuses(filter, b);
    b := AddNextRun(filter, b);
    query, args, conditions := Finish(filter, b);
  }

  lemma NothingCovered(filter: JobFilter)
    ensures Covers(filter, 0, Builder([], [], []))
  {
  }

  method AddUser(filter: JobFilter, b: Builder) returns (b': Builder)
    requires Covers(filter, 0, b)
    ensures Covers(filter, 1, b')
  {
    b' := b;
    if filter.userID != "" {
      b' := Add(filter, 0, b, Equal(UserIdColumn), [Text(filter.userID)]);
    }
  }

  method AddType(filter: JobFilter, b: Builder) returns (b': Builder)
    requires Covers(filter, 1, b)
    ensures Covers(filter, 2, b')
  {
    b' := b;
    if filter.jobType != "" {
      b' := Add(filter, 1, b, Equal(TypeColumn), [Text(filter.jobType)]);
    }
  }

  method AddStatus(filter: JobFilter, b: Builder) returns (b': Builder)
    requires Covers(filter, 2, b)
    ensures Covers(filter, 3, b')
  {
    b' := b;
    if filter.status != NoStatus {
      b' := Add(filter, 2, b, Equal(StatusColumn), [StatusArg(filter.status)]);
    }
  }

  method AddStatuses(filter: JobFilter, b: Builder) returns (b': Builder)
    requires Covers(filter, 3, b)
    ensures Covers(filter, 4, b')
  {
    b' := b;
    if |filter.statuses| > 0 {
      var list := StatusArgs(filter.statuses);
      b' := Add(filter, 3, b, OneOf(StatusColumn, |list|), list);
    }
  }

  method AddNextRun(filter: JobFilter, b: Builder) returns (b': Builder)
    requires Covers(filter, 4, b)
    ensures Covers(filter, 5, b')
  {
    b' := b;
    if filter.nextRun != 0 {
      b' := Add(filter, 4, b, AtLeast(NextRunColumn), [Time(filter.nextRun)]);
    }
  }

  method Finish(ghost filter: JobFilter, b: Builder) returns (query: string, args: seq<Arg>, ghost conditions: seq<Condition>)
    requires Covers(filter, 5, b)
    ensures forall row :: Evaluate(query, args, row) == Some(Selects(filter, row))
    ensures Marks(query) == |args| && EachWanted(filter, conditions, args)
    ensures query == QueryText(ConditionTexts(conditions))
    ensures |query| >= |TAIL| && query[|query| - |TAIL|..] == " ORDER BY next_run ASC"
  {
    query, args, conditions := QueryText(b.texts), b.args, b.conditions;
    MarksQuery(conditions);
    TextEnds(b.texts);
    hide QueryText, ConditionTexts, Evaluate, AllHold, Marks, Wants, Slots;
    forall row ensures Evaluate(query, args, row) == Some(Selects(filter, row)) {
      TextMeansConditions(conditions, args, row);
    }
  }

  lemma TextEnds(texts: seq<string>)
    ensures var query := QueryText(texts); |query| >= |TAIL| && query[|query| - |TAIL|..] == " ORDER BY next_run ASC"
  {
  }

  method StatusArgs(statuses: seq<Status>) returns (list: seq<Arg>)
    ensures |list| == |statuses| && forall k :: 0 <= k < |list| ==> list[k] == StatusArg(statuses[k])
    ensures forall row: Row :: ColumnValue(row, StatusColumn) in list <==> row.status in statuses
  {
    list := [];
    for i := 0 to |statuses|
      invariant |list| == i && forall k :: 0 <= k < i ==> list[k] == StatusArg(statuses[k])
    {
      list := list + [StatusArg(statuses[i])];
    }
    forall row: Row
      ensures ColumnValue(row, StatusColumn) in list <==> row.status in statuses
    {
      if k :| 0 <= k < |statuses| && statuses[k] == row.status {
        assert list[k] == StatusArg(row.status);
      }
    }
  }

  /** Add the condition for field number `n` of the filter. */
  method Add(ghost filter: JobFilter, ghost n: nat, b: Builder, condition: Condition, more: seq<Arg>) returns (b': Builder)
    requires Covers(filter, n, b) && |more| == condition.Width() && Readable(condition)
    requires forall k :: 0 <= k < |more| ==> Wants(filter, condition.Slots()[k], more[k])
    requires forall row :: SelectsFirst(filter, n, row) && condition.Holds(more, row) <==> SelectsFirst(filter, n + 1, row)
    ensures Covers(filter, n + 1, b')
  {
    ConditionTextsAppend(b.conditions, condition);
    Extend(filter, b.conditions, b.args, condition, more);
    b' := Builder(b.texts + [condition.Show()], b.conditions + [condition], b.args + more);
  }
}
