/** The functions of Go's `strings` and `strconv` packages that the cron parser
    and the query builder call. */
module GoStrings {
  import opened Wrappers

  // ---------------------------------------------------------------------------
  // Split and Join

  /** `strings.Split` for a separator of one character. */
  function Split(s: string, sep: char): (parts: seq<string>)
    ensures |parts| > 0
  {
    if s == "" then [""]
    else
      var rest := Split(s[1..], sep);
      if s[0] == sep then [""] + rest else [[s[0]] + rest[0]] + rest[1..]
  }

  /** `strings.Join`. */
  function Join(parts: seq<string>, sep: string): string {
    if parts == [] then ""
    else if |parts| == 1 then parts[0]
    else parts[0] + sep + Join(parts[1..], sep)
  }

  lemma {:induction false} JoinSplit(s: string, sep: char)
    ensures Join(Split(s, sep), [sep]) == s
    ensures forall p :: p in Split(s, sep) ==> sep !in p
  {
    if s != "" {
      JoinSplit(s[1..], sep);
      var rest := Split(s[1..], sep);
      if s[0] == sep {
        assert Split(s, sep)[1..] == rest;
      } else {
        var parts := Split(s, sep);
        assert parts[1..] == rest[1..];
      }
    }
  }

  lemma {:induction false} SplitWord(w: string, sep: char, rest: string)
    requires sep !in w
    ensures Split(w + [sep] + rest, sep) == [w] + Split(rest, sep)
  {
    var s := w + [sep] + rest;
    if w == "" {
      assert s[1..] == rest;
    } else {
      assert s[1..] == w[1..] + [sep] + rest;
      assert w[0] in w;
      SplitWord(w[1..], sep, rest);
      assert [w[0]] + w[1..] == w;
    }
  }

  lemma {:induction false} SplitNone(w: string, sep: char)
    requires sep !in w
    ensures Split(w, sep) == [w]
  {
    if w != "" {
      assert w[0] in w;
      SplitNone(w[1..], sep);
      assert [w[0]] + w[1..] == w;
    }
  }

  lemma {:induction false} SplitJoin(parts: seq<string>, sep: char)
    requires |parts| > 0 && forall p :: p in parts ==> sep !in p
    ensures Split(Join(parts, [sep]), sep) == parts
  {
    if |parts| == 1 {
      SplitNone(parts[0], sep);
    } else {
      SplitJoin(parts[1..], sep);
      SplitWord(parts[0], sep, Join(parts[1..], [sep]));
    }
  }

  // ---------------------------------------------------------------------------
  // Fields

  /** `unicode.IsSpace`. */
  predicate IsSpace(c: char) {
    || '\t' <= c <= '\r' || c == ' '
    || c == '\U{85}' || c == '\U{A0}' || c == '\U{1680}'
    || '\U{2000}' <= c <= '\U{200A}'
    || c == '\U{2028}' || c == '\U{2029}' || c == '\U{202F}' || c == '\U{205F}' || c == '\U{3000}'
  }

  /** `strings.Fields`: the maximal runs of non-space characters. */
  function Fields(s: string): seq<string> {
    FieldsFrom(s, "")
  }

  function FieldsFrom(s: string, word: string): seq<string> {
    if s == "" then Flush(word)
    else if IsSpace(s[0]) then Flush(word) + FieldsFrom(s[1..], "")
    else FieldsFrom(s[1..], word + [s[0]])
  }

  function Flush(word: string): seq<string> {
    if word == "" then [] else [word]
  }

  predicate NoSpace(w: string) {
    forall i :: 0 <= i < |w| ==> !IsSpace(w[i])
  }

  predicate IsWord(w: string) {
    w != "" && NoSpace(w)
  }

  lemma {:induction false} FieldsOfWord(w: string, word: string, rest: string)
    requires NoSpace(w)
    ensures FieldsFrom(w + rest, word) == FieldsFrom(rest, word + w)
  {
    if w == "" {
      assert w + rest == rest && word + w == word;
    } else {
      assert (w + rest)[1..] == w[1..] + rest;
      FieldsOfWord(w[1..], word + [w[0]], rest);
      assert word + [w[0]] + w[1..] == word + w;
    }
  }

  lemma {:induction false} FieldsSplit(a: string, c: char, b: string, word: string)
    requires IsSpace(c)
    ensures FieldsFrom(a + [c] + b, word) == FieldsFrom(a, word) + Fields(b)
    decreases |a|
  {
    var s := a + [c] + b;
    if a == "" {
      assert s == [c] + b && s[1..] == b;
    } else {
      assert s[0] == a[0] && s[1..] == a[1..] + [c] + b;
      FieldsSplit(a[1..], c, b, if IsSpace(a[0]) then "" else word + [a[0]]);
    }
  }

  /** A space of any kind separates the fields before it from those behind it, wherever it
      is; so runs of spaces count once, and those at both ends do not count. */
  lemma FieldsAtSpace(a: string, c: char, b: string)
    requires IsSpace(c)
    ensures Fields(a + [c] + b) == Fields(a) + Fields(b)
  {
    FieldsSplit(a, c, b, "");
  }

  /** A word is its own field, and nothing has none. */
  lemma FieldsOfOneWord(w: string)
    ensures IsWord(w) ==> Fields(w) == [w]
    ensures Fields("") == []
  {
    if IsWord(w) {
      FieldsOfWord(w, "", "");
      assert w + "" == w && "" + w == w;
    }
  }

  /** The spaces of ASCII, and some characters that are none. */
  lemma SpaceCharacters()
    ensures forall c :: c in " \t\n\r" ==> IsSpace(c)
    ensures IsSpace('\U{0B}') && IsSpace('\U{0C}')
    ensures forall c :: '!' <= c <= '~' ==> !IsSpace(c)
  {
  }

  /** Words that are joined by single spaces come back. */
  lemma {:induction false} FieldsJoin(words: seq<string>)
    requires forall w :: w in words ==> IsWord(w)
    ensures Fields(Join(words, " ")) == words
  {
    if |words| == 1 {
      assert IsWord(words[0]);
      FieldsOfWord(words[0], "", "");
      assert words[0] + "" == words[0] && "" + words[0] == words[0];
      assert words == [words[0]];
    } else if |words| > 1 {
      var rest := Join(words[1..], " ");
      assert IsWord(words[0]);
      FieldsJoin(words[1..]);
      FieldsOfWord(words[0], "", " " + rest);
      assert words[0] + " " + rest == words[0] + (" " + rest);
      assert (" " + rest)[1..] == rest;
      assert Join(words, " ") == words[0] + " " + rest;
      assert "" + words[0] == words[0];
      assert words == [words[0]] + words[1..];
    }
  }

  // ---------------------------------------------------------------------------
  // Numbers

  predicate IsDigit(c: char) {
    '0' <= c <= '9'
  }

  predicate AllDigits(s: string) {
    forall i :: 0 <= i < |s| ==> IsDigit(s[i])
  }

  /** The value of a string of decimal digits. */
  function DigitsValue(s: string): nat
    requires AllDigits(s)
  {
    if s == "" then 0
    else 10 * DigitsValue(s[..|s| - 1]) + (s[|s| - 1] - '0') as nat
  }

  /** `strconv.Atoi` on unbounded integers: an optional sign and at least one
      digit.  Numbers beyond 64 bits, which the original reports as errors, are
      outside every cron range. */
  function Atoi(s: string): Option<int> {
    if s != "" && (s[0] == '+' || s[0] == '-') then
      (if |s| > 1 && AllDigits(s[1..]) then
         var v: int := DigitsValue(s[1..]);
         Some(if s[0] == '-' then -v else v)
       else None)
    else if s != "" && AllDigits(s) then Some(DigitsValue(s))
    else None
  }

  /** The weight of a digit that stands before `n` others. */
  function TenTo(n: nat): nat {
    if n == 0 then 1 else 10 * TenTo(n - 1)
  }

  lemma PlaceStep(x: int, t: int, front: int, d: int)
    ensures 10 * (x * t + front) + d == x * (10 * t) + (10 * front + d)
  {
  }

  lemma TenStep(n: nat)
    ensures TenTo(0) == 1 && TenTo(n + 1) == 10 * TenTo(n)
  {
  }

  lemma LastDigit(front: string, d: char)
    requires AllDigits(front) && IsDigit(d)
    ensures AllDigits(front + [d]) && DigitsValue(front + [d]) == 10 * DigitsValue(front) + (d - '0') as nat
    ensures DigitsValue("") == 0
  {
    var s := front + [d];
    assert s[..|s| - 1] == front;
  }

  /** Digits count by their place. */
  lemma {:induction false} DigitsByPlace(a: string, b: string)
    requires AllDigits(a) && AllDigits(b)
    ensures AllDigits(a + b) && DigitsValue(a + b) == DigitsValue(a) * TenTo(|b|) + DigitsValue(b)
    decreases |b|
  {
    hide DigitsValue, TenTo;
    if b == "" {
      assert a + b == a;
      LastDigit("", '0');
      TenStep(0);
    } else {
      var front, d := b[..|b| - 1], b[|b| - 1];
      assert b == front + [d] && a + b == (a + front) + [d];
      DigitsByPlace(a, front);
      LastDigit(front, d);
      LastDigit(a + front, d);
      TenStep(|front|);
      PlaceStep(DigitsValue(a), TenTo(|front|), DigitsValue(front), (d - '0') as nat);
    }
  }

  lemma DigitCharacters()
    ensures AllDigits("0123456789")
    ensures forall k :: 0 <= k < 10 ==> DigitsValue(["0123456789"[k]]) == k
  {
    forall k | 0 <= k < 10 ensures DigitsValue(["0123456789"[k]]) == k {
      var s := ["0123456789"[k]];
      assert s[..0] == "";
    }
  }

  /** A leading zero does not count. */
  lemma LeadingZero(s: string)
    requires AllDigits(s)
    ensures AllDigits("0" + s) && DigitsValue("0" + s) == DigitsValue(s)
  {
    DigitsByPlace("0", s);
    assert "0"[..0] == "";
  }

  /** A sign stands before the digits; a minus negates. */
  lemma AtoiSigns(s: string)
    requires s != "" && AllDigits(s)
    ensures Atoi(s) == Some(DigitsValue(s) as int)
    ensures Atoi("+" + s) == Some(DigitsValue(s) as int) && Atoi("-" + s) == Some(-(DigitsValue(s) as int))
  {
    assert ("+" + s)[1..] == s && ("-" + s)[1..] == s;
    assert IsDigit(s[0]);
  }

  /** `strconv.Itoa` for natural numbers. */
  function Itoa(n: nat): (s: string)
    ensures s != "" && AllDigits(s)
    decreases n
  {
    var digit := [('0' as int + n % 10) as char];
    if n < 10 then digit else Itoa(n / 10) + digit
  }

  lemma {:induction false} ItoaValue(n: nat)
    ensures DigitsValue(Itoa(n)) == n
    decreases n
  {
    var s := Itoa(n);
    if n >= 10 {
      ItoaValue(n / 10);
      assert s[..|s| - 1] == Itoa(n / 10);
    } else {
      assert s[..|s| - 1] == "";
    }
  }

  lemma AtoiItoa(n: nat)
    ensures Atoi(Itoa(n)) == Some(n)
  {
    ItoaValue(n);
    assert IsDigit(Itoa(n)[0]);
  }
}
