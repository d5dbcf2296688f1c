/** Byte-string helpers: the parts of the C and DuckDB string libraries the source relies on. */
module Text {
  import opened Common

  //------------------------------------------------------------------ case and white space

  function LowerChar(c: char): char {
    if 'A' <= c <= 'Z' then (c as int + 32) as char else c
  }

  function Lower(s: string): (r: string)
    ensures |r| == |s|
    ensures forall i :: 0 <= i < |s| ==> r[i] == LowerChar(s[i])
  {
    seq(|s|, i requires 0 <= i < |s| => LowerChar(s[i]))
  }

  /** ASCII case-insensitive equality. */
  predicate CIEquals(a: string, b: string) {
    Lower(a) == Lower(b)
  }

  /** Space, tab, newline, vertical tab, form feed, carriage return. */
  predicate IsSpace(c: char) {
    c == ' ' || '\t' <= c <= '\r'
  }

  function TrimLeft(s: string): string {
    if s != [] && IsSpace(s[0]) then TrimLeft(s[1..]) else s
  }

  function TrimRight(s: string): string {
    if s != [] && IsSpace(s[|s| - 1]) then TrimRight(s[..|s| - 1]) else s
  }

  function Trim(s: string): string {
    TrimRight(TrimLeft(s))
  }

  /** No white space at either end. */
  predicate Tight(s: string) {
    s == [] || (!IsSpace(s[0]) && !IsSpace(s[|s| - 1]))
  }

  lemma {:induction false} TrimLeftEdge(s: string)
    ensures var t := TrimLeft(s); t == [] || !IsSpace(t[0])
  {
    if s != [] && IsSpace(s[0]) { TrimLeftEdge(s[1..]); }
  }

  lemma {:induction false} TrimRightEdges(s: string)
    requires s == [] || !IsSpace(s[0])
    ensures Tight(TrimRight(s))
  {
    if s != [] && IsSpace(s[|s| - 1]) {
      TrimRightEdges(s[..|s| - 1]);
    }
  }

  lemma TrimIsTight(s: string)
    ensures Tight(Trim(s))
    ensures Tight(s) ==> Trim(s) == s
  {
    TrimLeftEdge(s);
    TrimRightEdges(TrimLeft(s));
  }

  //------------------------------------------------------------------ what letters and blanks are

  const UPPER_CASE := "ABCDEFGHIJKLMNOPQRSTUVWXYZ"

  const LOWER_CASE := "abcdefghijklmnopqrstuvwxyz"

  /** The same character, or the two cases of one letter. */
  predicate SameLetter(c: char, d: char) {
    || c == d
    || exists k :: 0 <= k < 26 && ((c == UPPER_CASE[k] && d == LOWER_CASE[k]) || (c == LOWER_CASE[k] && d == UPPER_CASE[k]))
  }

  predicate SameIgnoringCase(a: string, b: string) {
    |a| == |b| && forall i :: 0 <= i < |a| ==> SameLetter(a[i], b[i])
  }

  lemma Alphabet(k: nat)
    requires k < 26
    ensures UPPER_CASE[k] as int == 65 + k && LOWER_CASE[k] as int == 97 + k
  {
  }

  lemma SameLetterLowersAlike(c: char, d: char)
    requires SameLetter(c, d)
    ensures LowerChar(c) == LowerChar(d)
  {
    if c != d {
      var k :| 0 <= k < 26 && ((c == UPPER_CASE[k] && d == LOWER_CASE[k]) || (c == LOWER_CASE[k] && d == UPPER_CASE[k]));
      Alphabet(k);
    }
  }

  lemma LowersAlike(c: char, d: char)
    requires LowerChar(c) == LowerChar(d)
    ensures SameLetter(c, d)
  {
    if c != d && 'A' <= c <= 'Z' {
      Alphabet(c as int - 65);
      assert c == UPPER_CASE[c as int - 65] && d == LOWER_CASE[c as int - 65];
    } else if c != d {
      Alphabet(d as int - 65);
      assert d == UPPER_CASE[d as int - 65] && c == LOWER_CASE[d as int - 65];
    }
  }

  lemma LowerCharExactly(c: char, d: char)
    ensures LowerChar(c) == LowerChar(d) <==> SameLetter(c, d)
  {
    if SameLetter(c, d) { SameLetterLowersAlike(c, d); }
    if LowerChar(c) == LowerChar(d) { LowersAlike(c, d); }
  }

  /** Case-insensitive equality, letter by letter. */
  lemma CIEqualsExactly(a: string, b: string)
    ensures CIEquals(a, b) <==> SameIgnoringCase(a, b)
  {
    forall i | 0 <= i < |a| && i < |b| ensures LowerChar(a[i]) == LowerChar(b[i]) <==> SameLetter(a[i], b[i]) {
      LowerCharExactly(a[i], b[i]);
    }
    if SameIgnoringCase(a, b) {
      assert forall i :: 0 <= i < |a| ==> Lower(a)[i] == Lower(b)[i];
    }
    if CIEquals(a, b) {
      assert forall i :: 0 <= i < |a| ==> Lower(a)[i] == Lower(b)[i];
    }
  }

  /** Tab, line feed, vertical tab, form feed, carriage return, space. */
  predicate White(c: char) {
    c as int == 9 || c as int == 10 || c as int == 11 || c as int == 12 || c as int == 13 || c as int == 32
  }

  predicate AllWhite(s: string) {
    forall i :: 0 <= i < |s| ==> White(s[i])
  }

  /** `t` is `s` without the white space at its two ends. */
  ghost predicate Trimmed(s: string, t: string) {
    && (t == "" || (!White(t[0]) && !White(t[|t| - 1])))
    && exists before, after :: AllWhite(before) && AllWhite(after) && s == before + t + after
  }

  lemma {:induction false} TrimLeftDrops(s: string) returns (before: string)
    ensures AllWhite(before) && s == before + TrimLeft(s)
  {
    before := "";
    if s != [] && IsSpace(s[0]) {
      var rest := TrimLeftDrops(s[1..]);
      before := [s[0]] + rest;
    }
  }

  lemma {:induction false} TrimRightDrops(s: string) returns (after: string)
    ensures AllWhite(after) && s == TrimRight(s) + after
  {
    after := "";
    if s != [] && IsSpace(s[|s| - 1]) {
      var rest := TrimRightDrops(s[..|s| - 1]);
      after := rest + [s[|s| - 1]];
      assert TrimRight(s) + after == TrimRight(s) + rest + [s[|s| - 1]];
    }
  }

  lemma TrimTrims(s: string)
    ensures Trimmed(s, Trim(s))
  {
    var before := TrimLeftDrops(s);
    var after := TrimRightDrops(TrimLeft(s));
    TrimIsTight(s);
    assert s == before + Trim(s) + after;
  }

  /** The trimmed text is unique. */
  lemma TrimmedOnce(s: string, t: string, u: string)
    requires Trimmed(s, t) && Trimmed(s, u)
    ensures t == u
  {
    var a, b :| AllWhite(a) && AllWhite(b) && s == a + t + b;
    var c, d :| AllWhite(c) && AllWhite(d) && s == c + u + d;
    EndsAgree(s, a, t, b, c, u, d);
    EndsAgree(s, c, u, d, a, t, b);
    if t != "" && u != "" {
      assert t == s[|a|..|s| - |b|] && u == s[|c|..|s| - |d|];
    }
  }

  lemma EndsAgree(s: string, a: string, t: string, b: string, c: string, u: string, d: string)
    requires AllWhite(a) && AllWhite(b) && s == a + t + b && (t == "" || (!White(t[0]) && !White(t[|t| - 1])))
    requires AllWhite(c) && AllWhite(d) && s == c + u + d
    ensures t != "" ==> u != "" && |c| <= |a| && |d| <= |b|
  {
    if t != "" {
      assert s[|a|] == t[0] && s[|a| + |t| - 1] == t[|t| - 1];
      InsideMiddle(c, u, d, |a|);
      InsideMiddle(c, u, d, |a| + |t| - 1);
    }
  }

  lemma InsideMiddle(c: string, u: string, d: string, p: nat)
    requires AllWhite(c) && AllWhite(d) && p < |c + u + d| && !White((c + u + d)[p])
    ensures |c| <= p < |c| + |u|
  {
    var s := c + u + d;
    assert forall q :: 0 <= q < |c| ==> s[q] == c[q];
    assert forall q :: |c| + |u| <= q < |s| ==> s[q] == d[q - |c| - |u|];
  }

  //------------------------------------------------------------------ C strings

  /** What a `const char *` reader sees: the bytes before the first NUL. */
  function CStr(s: string): (r: string)
    ensures r <= s
    ensures forall i :: 0 <= i < |r| ==> r[i] != '\0'
    ensures |r| < |s| ==> s[|r|] == '\0'
  {
    if s == [] || s[0] == '\0' then [] else [s[0]] + CStr(s[1..])
  }

  //------------------------------------------------------------------ decimal numbers

  predicate IsDigit(c: char) {
    '0' <= c <= '9'
  }

  function DigitValue(c: char): (d: nat)
    requires IsDigit(c)
    ensures d < 10
  {
    c as int - '0' as int
  }

  function DigitChar(d: nat): (c: char)
    requires d < 10
    ensures IsDigit(c) && DigitValue(c) == d
  {
    (d + '0' as int) as char
  }

  /** `std::to_string` of a non-negative number. */
  function Decimal(n: nat): (s: string)
    ensures s != [] && forall i :: 0 <= i < |s| ==> IsDigit(s[i])
  {
    if n < 10 then [DigitChar(n)] else Decimal(n / 10) + [DigitChar(n % 10)]
  }

  /** The longest run of digits at the start of `s`. */
  function DigitRun(s: string): (r: string)
    ensures r <= s
    ensures forall i :: 0 <= i < |r| ==> IsDigit(r[i])
    ensures |r| < |s| ==> !IsDigit(s[|r|])
  {
    if s == [] || !IsDigit(s[0]) then [] else [s[0]] + DigitRun(s[1..])
  }

  /** The value of a digit string; the empty string counts as 0. */
  function DigitsValue(s: string): nat
    requires forall i :: 0 <= i < |s| ==> IsDigit(s[i])
  {
    if s == [] then 0 else DigitsValue(s[..|s| - 1]) * 10 + DigitValue(s[|s| - 1])
  }

  lemma {:induction false} DecimalValue(n: nat)
    ensures DigitsValue(Decimal(n)) == n
  {
    if n >= 10 {
      DecimalValue(n / 10);
      var s := Decimal(n);
      assert s[..|s| - 1] == Decimal(n / 10);
    }
  }

  const INT64_LIMIT: int := 0x8000_0000_0000_0000

  /**
   * `std::stoll` in base 10: leading white space, an optional sign, then digits; trailing text is
   * ignored. None stands for the exception it throws, on no digits or on a value outside int64.
   */
  function Stoll(s: string): Option<int> {
    var t := TrimLeft(s);
    var negative := t != [] && t[0] == '-';
    var unsigned := if t != [] && (t[0] == '-' || t[0] == '+') then t[1..] else t;
    var digits := DigitRun(unsigned);
    if digits == [] then None
    else
      var magnitude: int := DigitsValue(digits);
      var v := if negative then -magnitude else magnitude;
      if -INT64_LIMIT <= v < INT64_LIMIT then Some(v) else None
  }

  lemma DigitRunOfDigits(s: string)
    requires forall i :: 0 <= i < |s| ==> IsDigit(s[i])
    ensures DigitRun(s) == s
  {
  }

  /** Reading back a printed number: exact inside int64, an exception above it. */
  lemma StollOfDecimal(n: nat)
    ensures Stoll(Decimal(n)) == if n < INT64_LIMIT then Some(n) else None
  {
    var s := Decimal(n);
    assert IsDigit(s[0]);
    assert TrimLeft(s) == s;
    DigitRunOfDigits(s);
    DecimalValue(n);
  }

  predicate AllDigits(s: string) {
    forall i :: 0 <= i < |s| ==> IsDigit(s[i])
  }

  lemma {:induction false} TrimLeftOf(white: string, t: string)
    requires AllWhite(white) && t != "" && !White(t[0])
    ensures TrimLeft(white + t) == t
  {
    if white == "" {
      assert white + t == t;
    } else {
      assert (white + t)[1..] == white[1..] + t;
      TrimLeftOf(white[1..], t);
    }
  }

  lemma {:induction false} DigitRunOf(digits: string, rest: string)
    requires AllDigits(digits) && (rest == "" || !IsDigit(rest[0]))
    ensures DigitRun(digits + rest) == digits
  {
    if digits == "" {
      assert digits + rest == rest;
    } else {
      assert (digits + rest)[1..] == digits[1..] + rest;
      DigitRunOf(digits[1..], rest);
    }
  }

  /** What `std::stoll` reads: blanks, a sign, digits; what follows them does not matter. */
  lemma StollReads(white: string, sign: string, digits: string, rest: string)
    requires AllWhite(white) && (sign == "" || sign == "+" || sign == "-")
    requires digits != "" && AllDigits(digits) && (rest == "" || !IsDigit(rest[0]))
    ensures Stoll(white + (sign + (digits + rest))) == InRange(if sign == "-" then -(DigitsValue(digits) as int) else DigitsValue(digits))
  {
    var t := sign + (digits + rest);
    assert t[0] == if sign == "" then digits[0] else sign[0];
    TrimLeftOf(white, t);
    DigitRunOf(digits, rest);
    if sign == "" { assert t == digits + rest; } else { assert t[1..] == digits + rest; }
    StollOf(white + t, t, digits + rest, digits);
  }

  function InRange(v: int): Option<int> {
    if -INT64_LIMIT <= v < INT64_LIMIT then Some(v) else None
  }

  lemma StollOf(text: string, t: string, unsigned: string, digits: string)
    requires TrimLeft(text) == t != "" && unsigned == if t[0] == '-' || t[0] == '+' then t[1..] else t
    requires DigitRun(unsigned) == digits != ""
    ensures Stoll(text) == InRange(if t[0] == '-' then -(DigitsValue(digits) as int) else DigitsValue(digits))
  {
  }

  /** Without a digit in that place it throws. */
  lemma StollReadsNothing(white: string, sign: string, rest: string)
    requires AllWhite(white) && (sign == "" || sign == "+" || sign == "-")
    requires rest == "" || (!IsDigit(rest[0]) && !White(rest[0]) && rest[0] != '+' && rest[0] != '-')
    ensures Stoll(white + (sign + rest)) == None
  {
    var t := sign + rest;
    if t == "" {
      assert white + t == white;
      AllBlank(white);
    } else {
      assert t[0] == if sign == "" then rest[0] else sign[0];
      TrimLeftOf(white, t);
      if sign == "" { assert t == rest; } else { assert t[1..] == rest; }
    }
  }

  lemma {:induction false} AllBlank(white: string)
    requires AllWhite(white)
    ensures TrimLeft(white) == ""
  {
    if white == "" {
    } else {
      AllBlank(white[1..]);
    }
  }
}
