/** Parsing five-field cron expressions. */
module CronParser {
  import opened Wrappers
  import opened GoStrings
  import opened Cron

  datatype CronError =
    | WrongFieldCount(count: nat)
    | InvalidRange(part: string)
    | InvalidValue(part: string)
    | InField(name: string, cause: CronError)

  type Parsed = Result<set<int>, CronError>

  function Interval(a: int, b: int): (s: set<int>)
    ensures forall x :: x in s <==> a <= x <= b
  {
    var values := seq(if a > b then 0 else b - a + 1, i => a + i);
    assert forall x :: a <= x <= b ==> x in values by {
      forall x | a <= x <= b
        ensures x in values
      {
        assert values[x - a] == x;
      }
    }
    set x | x in values
  }

  // ---------------------------------------------------------------------------
  // What the parser computes

  function PartValue(part: string, min: int, max: int): Parsed {
    if '-' in part then
      var ends := Split(part, '-');
      if |ends| != 2 then Failure(InvalidRange(part))
      else
        match (Atoi(ends[0]), Atoi(ends[1]))
        case (Some(a), Some(b)) =>
          if a > b || a < min || b > max then Failure(InvalidRange(part)) else Success(Interval(a, b))
        case _ => Failure(InvalidRange(part))
    else
      match Atoi(part)
      case Some(v) => if v < min || v > max then Failure(InvalidValue(part)) else Success({v})
      case None => Failure(InvalidValue(part))
  }

  function PartsValue(parts: seq<string>, min: int, max: int): Parsed {
    if parts == [] then Success({})
    else
      match PartValue(parts[0], min, max)
      case Failure(e) => Failure(e)
      case Success(s) =>
        match PartsValue(parts[1..], min, max)
        case Failure(e) => Failure(e)
        case Success(rest) => Success(s + rest)
  }

  function FieldValue(field: string, min: int, max: int): Parsed {
    if field == "*" then Success(Interval(min, max))
    else PartsValue(Split(field, ','), min, max)
  }

  /** Set every value from `first` to `last`; the star and the ranges share this loop. */
  method FillRange(result: set<int>, first: int, last: int) returns (r: set<int>)
    ensures r == result + Interval(first, last)
  {
    r := result;
    var i := first;
    while i <= last
      invariant first <= i && r == result + Interval(first, i - 1) && (i == first || i <= last + 1)
      decreases last - i
    {
      r := r + {i};
      i := i + 1;
    }
    assert Interval(first, i - 1) == Interval(first, last);
  }

  method ParseCronField(field: string, min: int, max: int) returns (r: Parsed)
    ensures r == FieldValue(field, min, max)
    ensures min <= max && r.Success? ==> r.value != {} && r.value <= Interval(min, max)
  {
    FieldInRange(field, min, max);
    var result: set<int> := {};
    if field == "*" {
      result := FillRange(result, min, max);
      assert result == Interval(min, max);
      return Success(result);
    }
    var parts := Split(field, ',');
    ghost var all := PartsValue(parts, min, max);
    assert all.Success? ==> {} + all.value == all.value;
    assert parts[0..] == parts;
    for k := 0 to |parts|
      invariant all == Combined(result, PartsValue(parts[k..], min, max))
    {
      var part := parts[k];
      assert parts[k..][1..] == parts[k + 1..];
      CombinedPart(result, parts[k..], min, max);
      if '-' in part {
        var ends := Split(part, '-');
        if |ends| != 2 {
          return Failure(InvalidRange(part));
        }
        var start, end := Atoi(ends[0]), Atoi(ends[1]);
        if start == None || end == None || start.value > end.value || start.value < min || end.value > max {
          return Failure(InvalidRange(part));
        }
        result := FillRange(result, start.value, end.value);
      } else {
        var val := Atoi(part);
        if val == None || val.value < min || val.value > max {
          return Failure(InvalidValue(part));
        }
        result := result + {val.value};
      }
    }
    r := Success(result);
  }

  function Combined(result: set<int>, rest: Parsed): Parsed {
    match rest
    case Success(s) => Success(result + s)
    case Failure(e) => Failure(e)
  }

  lemma CombinedPart(result: set<int>, parts: seq<string>, min: int, max: int)
    requires parts != []
    ensures Combined(result, PartsValue(parts, min, max))
            == match PartValue(parts[0], min, max)
               case Failure(e) => Failure(e)
               case Success(s) => Combined(result + s, PartsValue(parts[1..], min, max))
  {
    var first, rest := PartValue(parts[0], min, max), PartsValue(parts[1..], min, max);
    if first.Success? && rest.Success? {
      assert result + (first.value + rest.value) == (result + first.value) + rest.value;
    }
  }

  lemma {:induction false} PartsInRange(parts: seq<string>, min: int, max: int)
    requires PartsValue(parts, min, max).Success?
    ensures PartsValue(parts, min, max).value <= Interval(min, max)
    ensures parts != [] ==> PartsValue(parts, min, max).value != {}
  {
    if parts != [] {
      PartsInRange(parts[1..], min, max);
      var s := PartValue(parts[0], min, max).value;
      if '-' in parts[0] {
        assert Atoi(Split(parts[0], '-')[0]).value in s;
      } else {
        assert Atoi(parts[0]).value in s;
      }
    }
  }

  /** Accepted fields denote non-empty sets of numbers in range. */
  lemma FieldInRange(field: string, min: int, max: int)
    ensures FieldValue(field, min, max).Success? && min <= max
            ==> FieldValue(field, min, max).value != {} && FieldValue(field, min, max).value <= Interval(min, max)
  {
    if field == "*" {
      if min <= max {
        assert min in Interval(min, max);
      }
    } else if FieldValue(field, min, max).Success? {
      PartsInRange(Split(field, ','), min, max);
    }
  }

  // ---------------------------------------------------------------------------
  // The grammar of fields

  /** A comma part of a field as it is written. */
  datatype Item = Value(text: string) | Range(lo: string, hi: string) {
    function Show(): string {
      match this
      case Value(text) => text
      case Range(lo, hi) => lo + "-" + hi
    }

    /** An in-range value, or an ordered in-range pair. */
    ghost predicate Ok(min: int, max: int) {
      match this
      case Value(text) => IsNumeral(text) && min <= NumeralValue(text) <= max
      case Range(lo, hi) =>
        IsNumeral(lo) && IsNumeral(hi) && min <= NumeralValue(lo) <= NumeralValue(hi) <= max
    }

    function Denotes(): set<int>
      requires match this
               case Value(text) => IsNumeral(text)
               case Range(lo, hi) => IsNumeral(lo) && IsNumeral(hi)
    {
      match this
      case Value(text) => {NumeralValue(text)}
      case Range(lo, hi) => Interval(NumeralValue(lo), NumeralValue(hi))
    }
  }

  /** Digits, possibly after a plus sign. */
  predicate IsNumeral(s: string) {
    |Unsigned(s)| > 0 && AllDigits(Unsigned(s))
  }

  function Unsigned(s: string): string {
    if s != "" && s[0] == '+' then s[1..] else s
  }

  function NumeralValue(s: string): nat
    requires IsNumeral(s)
  {
    DigitsValue(Unsigned(s))
  }

  function ItemTexts(items: seq<Item>): (r: seq<string>)
    ensures |r| == |items| && forall i :: 0 <= i < |items| ==> r[i] == items[i].Show()
  {
    if items == [] then [] else [items[0].Show()] + ItemTexts(items[1..])
  }

  ghost predicate AllOk(items: seq<Item>, min: int, max: int) {
    forall i :: 0 <= i < |items| ==> items[i].Ok(min, max)
  }

  /** `field` is the list of these items with commas between them. */
  ghost predicate Written(field: string, items: seq<Item>, min: int, max: int) {
    |items| > 0 && AllOk(items, min, max) && field == Join(ItemTexts(items), ",")
  }

  ghost predicate IsUnion(s: set<int>, items: seq<Item>, min: int, max: int)
    requires AllOk(items, min, max)
  {
    forall x :: x in s <==> exists i :: 0 <= i < |items| && x in items[i].Denotes()
  }

  lemma NumeralChars(s: string)
    requires IsNumeral(s)
    ensures ',' !in s && '-' !in s && ' ' !in s && s != "*" && s != ""
    ensures Atoi(s) == Some(NumeralValue(s))
    ensures IsWord(s)
  {
    if s[0] == '+' {
      assert s == ['+'] + s[1..];
    } else {
      assert IsDigit(s[0]);
    }
  }

  lemma NumeralOfAtoi(s: string)
    requires Atoi(s).Some? && '-' !in s
    ensures IsNumeral(s) && NumeralValue(s) == Atoi(s).value
  {
    assert s != "" && s[0] in s;
  }

  lemma ItemPart(item: Item, min: int, max: int)
    requires item.Ok(min, max)
    ensures ',' !in item.Show() && IsWord(item.Show()) && item.Show() != "*"
    ensures PartValue(item.Show(), min, max) == Success(item.Denotes())
  {
    match item
    case Value(text) =>
      NumeralChars(text);
    case Range(lo, hi) =>
      NumeralChars(lo);
      NumeralChars(hi);
      SplitJoin([lo, hi], '-');
      assert Join([lo, hi], "-") == lo + "-" + hi;
      assert item.Show()[|lo|] == '-';
  }

  lemma PartItem(part: string, min: int, max: int) returns (item: Item)
    requires PartValue(part, min, max).Success?
    ensures item.Ok(min, max) && item.Show() == part
    ensures PartValue(part, min, max).value == item.Denotes()
  {
    if '-' in part {
      var ends := Split(part, '-');
      JoinSplit(part, '-');
      assert ends == [ends[0], ends[1]];
      assert Join(ends, "-") == ends[0] + "-" + ends[1];
      NumeralOfAtoi(ends[0]);
      NumeralOfAtoi(ends[1]);
      item := Range(ends[0], ends[1]);
    } else {
      NumeralOfAtoi(part);
      item := Value(part);
    }
  }

  lemma UnionCons(s: set<int>, rest: set<int>, items: seq<Item>, min: int, max: int)
    requires |items| > 0 && AllOk(items, min, max)
    requires IsUnion(rest, items[1..], min, max) && s == items[0].Denotes() + rest
    ensures IsUnion(s, items, min, max)
  {
    forall x
      ensures x in s <==> exists i :: 0 <= i < |items| && x in items[i].Denotes()
    {
      if x in rest {
        var j :| 0 <= j < |items[1..]| && x in items[1..][j].Denotes();
        assert x in items[j + 1].Denotes();
      }
      if i :| 0 <= i < |items| && x in items[i].Denotes() {
        if i > 0 {
          assert x in items[1..][i - 1].Denotes();
        }
      }
    }
  }

  lemma {:induction false} ItemsParts(items: seq<Item>, min: int, max: int)
    requires AllOk(items, min, max)
    ensures PartsValue(ItemTexts(items), min, max).Success?
    ensures IsUnion(PartsValue(ItemTexts(items), min, max).value, items, min, max)
  {
    if items != [] {
      var parts := ItemTexts(items);
      assert parts[1..] == ItemTexts(items[1..]);
      ItemsParts(items[1..], min, max);
      ItemPart(items[0], min, max);
      UnionCons(PartsValue(parts, min, max).value, PartsValue(parts[1..], min, max).value, items, min, max);
    }
  }

  lemma {:induction false} PartsItems(parts: seq<string>, min: int, max: int) returns (items: seq<Item>)
    requires PartsValue(parts, min, max).Success?
    ensures AllOk(items, min, max) && ItemTexts(items) == parts
  {
    if parts == [] {
      items := [];
    } else {
      var first := PartItem(parts[0], min, max);
      var rest := PartsItems(parts[1..], min, max);
      items := [first] + rest;
      assert items[1..] == rest;
      assert parts == [parts[0]] + parts[1..];
    }
  }

  /** A written field parses to the union of its items. */
  lemma WrittenParses(field: string, items: seq<Item>, min: int, max: int)
    requires Written(field, items, min, max)
    ensures FieldValue(field, min, max).Success?
    ensures IsUnion(FieldValue(field, min, max).value, items, min, max)
  {
    forall i | 0 <= i < |items|
      ensures ',' !in ItemTexts(items)[i] && ItemTexts(items)[i] != "*"
    {
      ItemPart(items[i], min, max);
    }
    SplitJoin(ItemTexts(items), ',');
    ItemsParts(items, min, max);
    SplitNone("*", ',');
    assert ItemTexts(items)[0] != "*";
  }

  lemma ParsedWritten(field: string, min: int, max: int) returns (items: seq<Item>)
    requires FieldValue(field, min, max).Success? && field != "*"
    ensures Written(field, items, min, max)
    ensures IsUnion(FieldValue(field, min, max).value, items, min, max)
  {
    JoinSplit(field, ',');
    items := PartsItems(Split(field, ','), min, max);
    WrittenParses(field, items, min, max);
  }

  lemma UnionUnique(s: set<int>, t: set<int>, items: seq<Item>, min: int, max: int)
    requires AllOk(items, min, max) && IsUnion(s, items, min, max) && IsUnion(t, items, min, max)
    ensures s == t
  {
    assert forall x :: x in s <==> x in t;
  }

  /** The parser accepts exactly `*` and the lists of in-range values and ordered
      in-range pairs, and it returns exactly what they denote. */
  lemma FieldGrammar(field: string, min: int, max: int, s: set<int>)
    ensures FieldValue(field, min, max) == Success(s)
            <==> || (field == "*" && s == Interval(min, max))
                 || exists items :: Written(field, items, min, max) && IsUnion(s, items, min, max)
  {
    if FieldValue(field, min, max) == Success(s) && field != "*" {
      var items := ParsedWritten(field, min, max);
      assert Written(field, items, min, max) && IsUnion(s, items, min, max);
    }
    if items :| Written(field, items, min, max) && IsUnion(s, items, min, max) {
      WrittenParses(field, items, min, max);
      UnionUnique(s, FieldValue(field, min, max).value, items, min, max);
    }
  }

  // ---------------------------------------------------------------------------
  // Whole expressions

  function FieldFailure<T>(name: string, e: CronError): Result<T, CronError> {
    Failure(InField(name, e))
  }

  /** The five fields in order; the first bad one decides the error. */
  function CronValue(expr: string): Result<CronSchedule, CronError> {
    var fields := Fields(expr);
    if |fields| != 5 then Failure(WrongFieldCount(|fields|))
    else
      match FieldValue(fields[0], 0, 59)
      case Failure(e) => FieldFailure("minute", e)
      case Success(minute) =>
        match FieldValue(fields[1], 0, 23)
        case Failure(e) => FieldFailure("hour", e)
        case Success(hour) =>
          match FieldValue(fields[2], 1, 31)
          case Failure(e) => FieldFailure("day", e)
          case Success(day) =>
            match FieldValue(fields[3], 1, 12)
            case Failure(e) => FieldFailure("month", e)
            case Success(month) =>
              match FieldValue(fields[4], 0, 6)
              case Failure(e) => FieldFailure("weekday", e)
              case Success(weekday) => Success(CronSchedule(minute, hour, day, month, weekday))
  }

  method ParseCron(expr: string) returns (r: Result<CronSchedule, CronError>)
    ensures r == CronValue(expr)
    ensures r.Success? ==> WellFormed(r.value)
  {
    var fields := Fields(expr);
    if |fields| != 5 {
      return Failure(WrongFieldCount(|fields|));
    }
    var minute := ParseCronField(fields[0], 0, 59);
    if minute.Failure? {
      return Failure(InField("minute", minute.error));
    }
    var hour := ParseCronField(fields[1], 0, 23);
    if hour.Failure? {
      return Failure(InField("hour", hour.error));
    }
    var day := ParseCronField(fields[2], 1, 31);
    if day.Failure? {
      return Failure(InField("day", day.error));
    }
    var month := ParseCronField(fields[3], 1, 12);
    if month.Failure? {
      return Failure(InField("month", month.error));
    }
    var weekday := ParseCronField(fields[4], 0, 6);
    if weekday.Failure? {
      return Failure(InField("weekday", weekday.error));
    }
    r := Success(CronSchedule(minute.value, hour.value, day.value, month.value, weekday.value));
  }

  predicate InRange(s: set<int>, min: int, max: int) {
    s != {} && s <= Interval(min, max)
  }

  /** Five non-empty sets of numbers in range. */
  predicate WellFormed(c: CronSchedule) {
    && InRange(c.minute, 0, 59) && InRange(c.hour, 0, 23) && InRange(c.day, 1, 31)
    && InRange(c.month, 1, 12) && InRange(c.weekday, 0, 6)
  }

  lemma ParsedWellFormed(expr: string)
    requires CronValue(expr).Success?
    ensures WellFormed(CronValue(expr).value)
  {
    var fields := Fields(expr);
    FieldInRange(fields[0], 0, 59);
    FieldInRange(fields[1], 0, 23);
    FieldInRange(fields[2], 1, 31);
    FieldInRange(fields[3], 1, 12);
    FieldInRange(fields[4], 0, 6);
  }

  /** A parsed schedule can hang the search in one way only: every one of its
      days is longer than the longest of its months. */
  lemma ParsedPossible(c: CronSchedule)
    requires WellFormed(c)
    ensures c.Possible() <==> exists m, d :: m in c.month && d in c.day && d <= Calendar.LongestLength(m)
  {
    TimeOfDayExists(c);
    var w :| w in c.weekday;
    forall m, d | m in c.month && d in c.day && d <= Calendar.LongestLength(m)
      ensures c.HasDate(m, d)
    {
    }
  }

  lemma TimeOfDayExists(c: CronSchedule)
    requires InRange(c.minute, 0, 59) && InRange(c.hour, 0, 23)
    ensures exists s :: c.HasTimeOfDay(s)
  {
    var mi :| mi in c.minute;
    var h :| h in c.hour;
    var s := 60 * h + mi;
    assert s / 60 == h && s % 60 == mi;
    assert c.HasTimeOfDay(s);
  }

  // ---------------------------------------------------------------------------
  // Printing

  /** How a set is written: one value after the other, or as maximal ranges. */
  datatype Style = Values | Ranges

  /** The end of the run of consecutive members that starts at `i`. */
  function RunEnd(s: set<int>, i: int, max: int): (j: int)
    requires i in s && i <= max
    ensures i <= j <= max && Interval(i, j) <= s && (j < max ==> j + 1 !in s)
    decreases max - i, s
  {
    if i == max || i + 1 !in s then i else RunEnd(s, i + 1, max)
  }

  function Items(s: set<int>, style: Style, i: int, max: int): (items: seq<Item>)
    requires 0 <= i
    decreases max - i, s
  {
    if i > max then []
    else if i !in s then Items(s, style, i + 1, max)
    else
      var j := if style.Values? then i else RunEnd(s, i, max);
      [if i == j then Value(Itoa(i)) else Range(Itoa(i), Itoa(j))] + Items(s, style, j + 1, max)
  }

  function PrintField(s: set<int>, style: Style, min: int, max: int): string
    requires 0 <= min
  {
    Join(ItemTexts(Items(s, style, min, max)), ",")
  }

  lemma ItoaNumeral(n: nat)
    ensures IsNumeral(Itoa(n)) && NumeralValue(Itoa(n)) == n
  {
    ItoaValue(n);
    assert IsDigit(Itoa(n)[0]);
  }

  ghost predicate Denote(s: set<int>, items: seq<Item>, min: int, max: int) {
    AllOk(items, min, max) && IsUnion(s, items, min, max)
  }

  lemma RunDenotes(i: int, j: int, rest: set<int>, items: seq<Item>, min: int, max: int) returns (item: Item)
    requires 0 <= min <= i <= j <= max && Denote(rest, items, min, max)
    ensures item == if i == j then Value(Itoa(i)) else Range(Itoa(i), Itoa(j))
    ensures Denote(Interval(i, j) + rest, [item] + items, min, max)
  {
    ItoaNumeral(i);
    ItoaNumeral(j);
    item := if i == j then Value(Itoa(i)) else Range(Itoa(i), Itoa(j));
    assert item.Denotes() == Interval(i, j);
    assert ([item] + items)[1..] == items;
    UnionCons(Interval(i, j) + rest, rest, [item] + items, min, max);
  }

  lemma {:induction false} ItemsDenote(s: set<int>, style: Style, i: int, min: int, max: int)
    requires 0 <= min <= i
    ensures Denote((set x | x in s && i <= x <= max), Items(s, style, i, max), min, max)
    decreases max - i
  {
    hide AllOk, IsUnion;
    if i > max {
      NothingDenotes(min, max);
      assert (set x | x in s && i <= x <= max) == {};
    } else if i !in s {
      ItemsDenote(s, style, i + 1, min, max);
      assert (set x | x in s && i <= x <= max) == set x | x in s && i + 1 <= x <= max;
    } else {
      var j := if style.Values? then i else RunEnd(s, i, max);
      ItemsDenote(s, style, j + 1, min, max);
      var rest := set x | x in s && j + 1 <= x <= max;
      var item := RunDenotes(i, j, rest, Items(s, style, j + 1, max), min, max);
      assert (set x | x in s && i <= x <= max) == Interval(i, j) + rest;
    }
  }

  lemma NothingDenotes(min: int, max: int)
    ensures Denote({}, [], min, max)
  {
  }

  /** A printed set parses to itself, in either style. */
  lemma FieldRoundTrip(s: set<int>, style: Style, min: int, max: int)
    requires 0 <= min && InRange(s, min, max)
    ensures FieldValue(PrintField(s, style, min, max), min, max) == Success(s)
    ensures IsWord(PrintField(s, style, min, max))
  {
    var items := Items(s, style, min, max);
    var field := PrintField(s, style, min, max);
    ItemsDenote(s, style, min, min, max);
    assert s == set x | x in s && min <= x <= max;
    var x :| x in s;
    assert |items| > 0;
    assert Written(field, items, min, max) && IsUnion(s, items, min, max);
    FieldGrammar(field, min, max, s);
    forall i | 0 <= i < |items|
      ensures IsWord(ItemTexts(items)[i])
    {
      ItemPart(items[i], min, max);
    }
    JoinIsWord(ItemTexts(items));
  }

  lemma {:induction false} JoinIsWord(words: seq<string>)
    requires |words| > 0 && forall w :: w in words ==> IsWord(w)
    ensures IsWord(Join(words, ","))
  {
    if |words| > 1 {
      assert IsWord(words[0]);
      JoinIsWord(words[1..]);
    }
  }

  function PrintCron(c: CronSchedule, style: Style): string {
    Join([
      PrintField(c.minute, style, 0, 59), PrintField(c.hour, style, 0, 23),
      PrintField(c.day, style, 1, 31), PrintField(c.month, style, 1, 12),
      PrintField(c.weekday, style, 0, 6)], " ")
  }

  lemma CronValueOf(expr: string, c: CronSchedule)
    requires |Fields(expr)| == 5
    requires FieldValue(Fields(expr)[0], 0, 59) == Success(c.minute)
    requires FieldValue(Fields(expr)[1], 0, 23) == Success(c.hour)
    requires FieldValue(Fields(expr)[2], 1, 31) == Success(c.day)
    requires FieldValue(Fields(expr)[3], 1, 12) == Success(c.month)
    requires FieldValue(Fields(expr)[4], 0, 6) == Success(c.weekday)
    ensures CronValue(expr) == Success(c)
  {
  }

  /** A printed schedule parses to itself, in either style. */
  lemma CronRoundTrip(c: CronSchedule, style: Style)
    requires WellFormed(c)
    ensures CronValue(PrintCron(c, style)) == Success(c)
  {
    FieldRoundTrip(c.minute, style, 0, 59);
    FieldRoundTrip(c.hour, style, 0, 23);
    FieldRoundTrip(c.day, style, 1, 31);
    FieldRoundTrip(c.month, style, 1, 12);
    FieldRoundTrip(c.weekday, style, 0, 6);
    var words := [
      PrintField(c.minute, style, 0, 59), PrintField(c.hour, style, 0, 23),
      PrintField(c.day, style, 1, 31), PrintField(c.month, style, 1, 12),
      PrintField(c.weekday, style, 0, 6)];
    FieldsJoin(words);
    CronValueOf(PrintCron(c, style), c);
  }

  // ---------------------------------------------------------------------------
  // An expression that parses and never fires

  lemma NumeralField(text: string, min: int, max: int, s: set<int>)
    requires IsNumeral(text) && min <= NumeralValue(text) <= max && s == {NumeralValue(text)}
    ensures FieldValue(text, min, max) == Success(s) && IsWord(text)
  {
    var items := [Value(text)];
    NumeralChars(text);
    assert ItemTexts(items) == [text] + ItemTexts(items[1..]);
    assert Written(text, items, min, max);
    forall x
      ensures x in s <==> exists i :: 0 <= i < |items| && x in items[i].Denotes()
    {
      assert x in items[0].Denotes() <==> x in s;
    }
    FieldGrammar(text, min, max, s);
  }

  lemma Thirty()
    ensures IsNumeral("30") && NumeralValue("30") == 30
  {
    assert "30"[..1] == "3" && "3"[..0] == "";
  }

  lemma ImpossibleValue(expr: string)
    requires Fields(expr) == ["0", "0", "30", "2", "*"]
    ensures CronValue(expr) == Success(CronSchedule({0}, {0}, {30}, {2}, Interval(0, 6)))
  {
    Thirty();
    assert NumeralValue("0") == 0 && NumeralValue("2") == 2;
    NumeralField("0", 0, 59, {0});
    NumeralField("0", 0, 23, {0});
    NumeralField("30", 1, 31, {30});
    NumeralField("2", 1, 12, {2});
    hide FieldValue, CronValue;
    StarValue(0, 6);
    CronValueOf(expr, CronSchedule({0}, {0}, {30}, {2}, Interval(0, 6)));
  }

  lemma StarValue(min: int, max: int)
    ensures FieldValue("*", min, max) == Success(Interval(min, max))
  {
  }

  /** Midnight on 30 February is accepted, and the search for it never returns. */
  lemma ThirtiethOfFebruaryHangs(after: Instant)
    ensures var c := CronValue("0 0 30 2 *"); c.Success? && !Halts(c.value, after)
  {
    hide CronValue, Fields, Interval, Halts;
    var words: seq<string> := ["0", "0", "30", "2", "*"];
    assert forall w :: w in words ==> IsWord(w);
    JoinWords(words);
    FieldsJoin(words);
    ImpossibleValue("0 0 30 2 *");
    HaltsIffPossible(CronSchedule({0}, {0}, {30}, {2}, Interval(0, 6)), after);
  }

  lemma JoinWords(words: seq<string>)
    requires words == ["0", "0", "30", "2", "*"]
    ensures Join(words, " ") == "0 0 30 2 *"
  {
    assert words[1..] == ["0", "30", "2", "*"] && words[1..][1..] == ["30", "2", "*"];
    assert words[1..][1..][1..] == ["2", "*"] && words[1..][1..][1..][1..] == ["*"];
    assert Join(["2", "*"], " ") == "2 *";
    assert Join(["30", "2", "*"], " ") == "30 2 *";
    assert Join(["0", "30", "2", "*"], " ") == "0 30 2 *";
  }

  // ---------------------------------------------------------------------------
  // An expression whose firings are known

  const DAILY := CronSchedule({30}, {9}, Interval(1, 31), Interval(1, 12), Interval(0, 6))

  lemma DailyValue(expr: string)
    requires Fields(expr) == ["30", "9", "*", "*", "*"]
    ensures CronValue(expr) == Success(DAILY)
  {
    Thirty();
    assert NumeralValue("9") == 9;
    NumeralField("30", 0, 59, {30});
    NumeralField("9", 0, 23, {9});
    hide FieldValue, CronValue;
    StarValue(1, 31);
    StarValue(1, 12);
    StarValue(0, 6);
    CronValueOf(expr, DAILY);
  }

  lemma DailyFields()
    ensures Fields("30 9 * * *") == ["30", "9", "*", "*", "*"]
  {
    var words: seq<string> := ["30", "9", "*", "*", "*"];
    assert forall w :: w in words ==> IsWord(w);
    assert words[1..] == ["9", "*", "*", "*"] && words[1..][1..] == ["*", "*", "*"] && words[1..][1..][1..] == ["*", "*"];
    assert Join(["*", "*"], " ") == "* *";
    assert Join(["*", "*", "*"], " ") == "* * *";
    assert Join(["9", "*", "*", "*"], " ") == "9 * * *";
    assert Join(words, " ") == "30 9 * * *";
    FieldsJoin(words);
  }

  lemma DailyMinute(n: int, j: int)
    requires 1440 * n < j <= 1440 * n + 570
    ensures DAILY.Matches(j) <==> j == 1440 * n + 570
  {
    var d := Calendar.DateOf(n);
    var s := j - 1440 * n;
    assert s == 60 * (s / 60) + s % 60;
    MatchesByFields(DAILY, d, s / 60, s % 60);
  }

  /** The first field is the minute and the second the hour: from any midnight, `30 9 * * *`
      fires next at half past nine of the same day. */
  lemma HalfPastNine(n: int)
    ensures CronValue("30 9 * * *") == Success(DAILY) && DAILY.Possible()
    ensures NextTime(DAILY, 86_400_000_000_000 * n) == 86_400_000_000_000 * n + 34_200_000_000_000
  {
    DailyFields();
    DailyValue("30 9 * * *");
    DailyPossible();
    hide CronValue, Fields, CronSchedule.Matches, CronSchedule.Possible;
    forall j | 1440 * n < j <= 1440 * n + 570
      ensures DAILY.Matches(j) <==> j == 1440 * n + 570
    {
      DailyMinute(n, j);
    }
    NextUnique(DAILY, 1440 * n, 1440 * n + 570);
    MinutePart(1440 * n, 0);
  }

  lemma DailyPossible()
    ensures DAILY.Possible()
  {
    DailyFields();
    DailyValue("30 9 * * *");
    ParsedWellFormed("30 9 * * *");
    hide CronValue;
    ParsedPossible(DAILY);
    assert 1 in DAILY.month && 1 in DAILY.day;
  }

  // ---------------------------------------------------------------------------
  // Errors

  /** A part is refused under its own name: as a range if it has a dash, else as a value. */
  lemma PartError(part: string, min: int, max: int)
    requires PartValue(part, min, max).Failure?
    ensures PartValue(part, min, max).error == if '-' in part then InvalidRange(part) else InvalidValue(part)
  {
  }

  /** The error of a field is that of its first bad part. */
  lemma {:induction false} FirstBadPart(parts: seq<string>, min: int, max: int) returns (i: nat)
    requires PartsValue(parts, min, max).Failure?
    ensures i < |parts| && PartValue(parts[i], min, max) == Failure(PartsValue(parts, min, max).error)
    ensures forall j :: 0 <= j < i ==> PartValue(parts[j], min, max).Success?
  {
    if PartValue(parts[0], min, max).Failure? {
      i := 0;
    } else {
      var k := FirstBadPart(parts[1..], min, max);
      i := k + 1;
      forall j | 0 <= j < i ensures PartValue(parts[j], min, max).Success? {
        assert j > 0 ==> parts[1..][j - 1] == parts[j];
      }
    }
  }
}
