/**
 * Shared vocabulary for the model: optional values and results, the Java and
 * Go string primitives the sources lean on (splitting, joining, trimming,
 * decimal parsing and printing), and Java's 32-bit integer arithmetic.
 */
module Base {

  datatype Option<T> = None | Some(value: T)

  datatype Result<T, E> = Success(value: T) | Failure(error: E)
  {
    predicate IsFailure() { Failure? }
    function PropagateFailure<U>(): Result<U, E> requires Failure? { Failure(error) }
    function Extract(): T requires Success? { value }
  }

  /** The Java exceptions the modelled code throws, with their messages. */
  datatype Exception =
    | IllegalArgument(message: string)
    | IllegalState(message: string)
    | IndexOutOfBounds(message: string)
    | NumberFormat(message: string)
    | NullPointer(message: string)
    | CommandFailure(message: string)
    | Arithmetic(message: string)
    | NoSuchElement(message: string)

  // ---------------------------------------------------------------------
  // Java int arithmetic

  const INT_MIN: int := -0x8000_0000
  const INT_MAX: int := 0x7fff_ffff
  const LONG_MIN: int := -0x8000_0000_0000_0000
  const LONG_MAX: int := 0x7fff_ffff_ffff_ffff

  predicate IsInt32(x: int) { INT_MIN <= x <= INT_MAX }

  /** Two's-complement wrap-around of a mathematical integer into an int. */
  function WrapInt32(x: int): (r: int)
    ensures IsInt32(r)
    ensures (r - x) % 0x1_0000_0000 == 0
    ensures IsInt32(x) ==> r == x
  {
    if IsInt32(x) then x
    else (x - INT_MIN) % 0x1_0000_0000 + INT_MIN
  }

  function Abs(x: int): nat { if x < 0 then -x else x }

  function Min(a: int, b: int): int { if a < b then a else b }

  /** Java's `/` on ints: the quotient is truncated toward zero. */
  function JavaDiv(a: int, b: int): (q: int)
    requires b != 0
    ensures Abs(q) == Abs(a) / Abs(b)
    ensures q != 0 ==> ((q < 0) <==> ((a < 0) != (b < 0)))
  {
    var x := Abs(a);
    var y := Abs(b);
    var u := x / y;
    DivNonNegative(x, y);
    if (a < 0) != (b < 0) then -u else u
  }

  /** A truncated quotient is no larger in magnitude than the dividend. */
  lemma JavaDivBound(a: int, b: int)
    requires b != 0
    ensures Abs(JavaDiv(a, b)) <= Abs(a)
  {
    var x := Abs(a);
    var y := Abs(b);
    var q := x / y;
    DivNonNegative(x, y);
    assert x == q * y + x % y;
    MulAtLeast(q, y);
  }

  lemma MulAtLeast(q: nat, y: nat)
    requires y >= 1
    ensures q <= q * y
  {
    assert q * y == q + q * (y - 1);
  }

  lemma DivNonNegative(x: nat, y: nat)
    requires y > 0
    ensures x / y >= 0
  {
  }

  // ---------------------------------------------------------------------
  // Decimal digits

  predicate IsDigit(c: char) { '0' <= c <= '9' }

  predicate AllDigits(s: string) { forall i :: 0 <= i < |s| ==> IsDigit(s[i]) }

  /** The value of a string of decimal digits, most significant first. */
  function DigitsValue(s: string): nat
    requires AllDigits(s)
  {
    if |s| == 0 then 0
    else DigitsValue(s[..|s| - 1]) * 10 + (s[|s| - 1] as int - '0' as int)
  }

  /** The shortest decimal digit string of n (no leading zeros). */
  function NatString(n: nat): (s: string)
    ensures |s| > 0 && AllDigits(s)
    ensures |s| > 1 ==> s[0] != '0'
  {
    if n < 10 then [('0' as int + n) as char]
    else NatString(n / 10) + [('0' as int + n % 10) as char]
  }

  /** Integer.toString / strconv.Itoa / fmt's %d: a minus sign, then the digits. */
  function DecimalString(n: int): (s: string)
    ensures |s| > 0
  {
    if n < 0 then "-" + NatString(-n) else NatString(n)
  }

  /**
   * Integer.parseInt (lo/hi = the int range) and strconv.ParseInt(s, 10, 64)
   * (lo/hi = the int64 range): an optional '+' or '-', at least one ASCII
   * digit and nothing else, and a value inside [lo, hi].
   */
  function ParseDecimal(s: string, lo: int, hi: int): (r: Option<int>)
    ensures r.Some? ==> lo <= r.value <= hi
    ensures r.Some? ==> |s| > 0 && (s[0] == '-' || s[0] == '+' || IsDigit(s[0]))
  {
    if |s| == 0 then None
    else
      var body := if s[0] == '-' || s[0] == '+' then s[1..] else s;
      if |body| == 0 || !AllDigits(body) then None
      else
        var v := if s[0] == '-' then -(DigitsValue(body) as int) else DigitsValue(body);
        if lo <= v <= hi then Some(v) else None
  }

  function ParseInt32(s: string): Option<int> { ParseDecimal(s, INT_MIN, INT_MAX) }

  function ParseInt64(s: string): Option<int> { ParseDecimal(s, LONG_MIN, LONG_MAX) }

  lemma {:induction false} NatStringValue(n: nat)
    ensures DigitsValue(NatString(n)) == n
  {
    if n >= 10 {
      var s := NatString(n);
      var d := ('0' as int + n % 10) as char;
      assert s == NatString(n / 10) + [d];
      assert s[..|s| - 1] == NatString(n / 10);
      NatStringValue(n / 10);
    }
  }

  lemma NonNegativeRoundTrip(n: nat, lo: int, hi: int)
    requires lo <= n <= hi
    ensures ParseDecimal(NatString(n), lo, hi) == Some(n)
  {
    var d := NatString(n);
    assert IsDigit(d[0]);
    NatStringValue(n);
  }

  lemma NegativeRoundTrip(n: int, lo: int, hi: int)
    requires lo <= n <= hi && n < 0
    ensures ParseDecimal("-" + NatString(-n), lo, hi) == Some(n)
  {
    var d := NatString(-n);
    var s := "-" + d;
    assert s[0] == '-' && s[1..] == d;
    NatStringValue(-n);
  }

  /** Printing an integer and parsing it back gives the integer again. */
  lemma DecimalRoundTrip(n: int, lo: int, hi: int)
    requires lo <= n <= hi
    ensures ParseDecimal(DecimalString(n), lo, hi) == Some(n)
  {
    if n < 0 {
      NegativeRoundTrip(n, lo, hi);
    } else {
      NonNegativeRoundTrip(n, lo, hi);
    }
  }

  // ---------------------------------------------------------------------
  // Splitting and joining on one separator character

  /**
   * Go's strings.Split(s, sep) for a one-character separator: every piece
   * between separators, including empty ones; "" gives [""].
   */
  function Split(s: string, sep: char): (r: seq<string>)
    ensures |r| >= 1
    ensures forall i :: 0 <= i < |r| ==> sep !in r[i]
    ensures sep !in s ==> r == [s]
    decreases |s|
  {
    if |s| == 0 then [""]
    else if s[0] == sep then [""] + Split(s[1..], sep)
    else
      var rest := Split(s[1..], sep);
      assert s == [s[0]] + s[1..];
      [[s[0]] + rest[0]] + rest[1..]
  }

  /** Go's strings.Join(xs, sep): [] gives "". */
  function Join(xs: seq<string>, sep: char): (s: string)
  {
    if |xs| == 0 then ""
    else if |xs| == 1 then xs[0]
    else xs[0] + [sep] + Join(xs[1..], sep)
  }

  lemma {:induction false} JoinSplit(s: string, sep: char)
    ensures Join(Split(s, sep), sep) == s
    decreases |s|
  {
    if |s| == 0 {
    } else if s[0] == sep {
      JoinSplit(s[1..], sep);
      var rest := Split(s[1..], sep);
      assert Split(s, sep) == [""] + rest;
      assert ([""] + rest)[1..] == rest;
    } else {
      JoinSplit(s[1..], sep);
      var rest := Split(s[1..], sep);
      if |rest| == 1 {
        assert Split(s, sep) == [[s[0]] + rest[0]];
      } else {
        var r := Split(s, sep);
        assert r[1..] == rest[1..];
        assert Join(rest, sep) == rest[0] + [sep] + Join(rest[1..], sep);
      }
    }
  }

  /** Split of a string that starts with a given character. */
  lemma SplitCons(c: char, j: string, sep: char)
    ensures c == sep ==> Split([c] + j, sep) == [""] + Split(j, sep)
    ensures c != sep ==> Split([c] + j, sep) == [[c] + Split(j, sep)[0]] + Split(j, sep)[1..]
  {
    var s := [c] + j;
    assert s[0] == c && s[1..] == j;
  }

  lemma {:induction false} SplitJoin(xs: seq<string>, sep: char)
    requires |xs| >= 1
    requires forall i :: 0 <= i < |xs| ==> sep !in xs[i]
    ensures Split(Join(xs, sep), sep) == xs
    decreases |xs|, |xs[0]|
  {
    if |xs| == 1 {
    } else if |xs[0]| == 0 {
      var j := Join(xs[1..], sep);
      SplitJoin(xs[1..], sep);
      assert Join(xs, sep) == [sep] + j;
      SplitCons(sep, j, sep);
      assert [""] + xs[1..] == xs;
    } else {
      var c := xs[0][0];
      var ys := [xs[0][1..]] + xs[1..];
      assert c in xs[0];
      assert forall i :: 1 <= i < |ys| ==> ys[i] == xs[i];
      assert sep !in ys[0];
      SplitJoin(ys, sep);
      var j := Join(ys, sep);
      assert ys[1..] == xs[1..];
      assert Join(xs, sep) == [c] + j;
      SplitCons(c, j, sep);
      assert [c] + ys[0] == xs[0];
    }
  }

  /** Joining one more piece adds a separator and the piece at the end. */
  lemma {:induction false} JoinSnoc(xs: seq<string>, x: string, sep: char)
    requires |xs| >= 1
    ensures Join(xs + [x], sep) == Join(xs, sep) + [sep] + x
    decreases |xs|
  {
    if |xs| == 1 {
      assert (xs + [x])[1..] == [x];
    } else {
      JoinSnoc(xs[1..], x, sep);
      assert (xs + [x])[1..] == xs[1..] + [x];
    }
  }

  /**
   * Java's String.split on a one-character regex with limit 0: no match
   * gives [s]; otherwise the pieces with trailing empty strings removed.
   */
  function JavaSplit(s: string, sep: char): (r: seq<string>)
    ensures sep !in s ==> r == [s]
    ensures forall i :: 0 <= i < |r| ==> sep !in r[i]
    ensures sep in s && |r| > 0 ==> r[|r| - 1] != ""
  {
    if sep !in s then [s] else DropTrailingEmpty(Split(s, sep))
  }

  function DropTrailingEmpty(xs: seq<string>): (r: seq<string>)
    ensures |r| <= |xs| && r == xs[..|r|]
    ensures |r| > 0 ==> r[|r| - 1] != ""
    ensures forall i :: |r| <= i < |xs| ==> xs[i] == ""
  {
    if |xs| == 0 then []
    else if xs[|xs| - 1] == "" then DropTrailingEmpty(xs[..|xs| - 1])
    else xs
  }

  // ---------------------------------------------------------------------
  // Trimming

  /** String.trim(): every character up to U+0020 counts as blank. */
  predicate IsJavaTrimmable(c: char) { c <= ' ' }

  /** Guava's CharMatcher.whitespace(), used by Splitter.trimResults(). */
  predicate IsGuavaWhitespace(c: char)
  {
    ('\U{9}' <= c <= '\U{D}') || c == ' ' || c == '\U{85}' || c == '\U{A0}'
    || c == '\U{1680}' || ('\U{2000}' <= c <= '\U{200A}') || c == '\U{2028}'
    || c == '\U{2029}' || c == '\U{202F}' || c == '\U{205F}' || c == '\U{3000}'
  }

  /** Character.isWhitespace, which String.stripTrailing() uses. */
  predicate IsJavaWhitespace(c: char)
  {
    ('\U{9}' <= c <= '\U{D}') || ('\U{1C}' <= c <= '\U{1F}') || c == ' '
    || c == '\U{1680}' || ('\U{2000}' <= c <= '\U{2006}') || ('\U{2008}' <= c <= '\U{200A}')
    || c == '\U{2028}' || c == '\U{2029}' || c == '\U{205F}' || c == '\U{3000}'
  }

  function JavaTrim(s: string): (r: string)
    ensures |r| <= |s|
    ensures |r| > 0 ==> !IsJavaTrimmable(r[0]) && !IsJavaTrimmable(r[|r| - 1])
    ensures (forall i :: 0 <= i < |s| ==> IsJavaTrimmable(s[i])) <==> r == ""
  {
    StripLeading(StripTrailing(s, 0), 0)
  }

  function GuavaTrim(s: string): (r: string)
    ensures |r| <= |s|
    ensures |r| > 0 ==> !IsGuavaWhitespace(r[0]) && !IsGuavaWhitespace(r[|r| - 1])
  {
    StripLeading(StripTrailing(s, 1), 1)
  }

  /** The three blank-character classes, selected by `kind`. */
  predicate Blank(c: char, kind: nat)
  {
    if kind == 0 then IsJavaTrimmable(c)
    else if kind == 1 then IsGuavaWhitespace(c)
    else IsJavaWhitespace(c)
  }

  /** String.stripTrailing() for kind 2; the trailing half of trimming otherwise. */
  function StripTrailing(s: string, kind: nat): (r: string)
    ensures |r| <= |s| && r == s[..|r|]
    ensures |r| > 0 ==> !Blank(r[|r| - 1], kind)
    ensures forall i :: |r| <= i < |s| ==> Blank(s[i], kind)
  {
    if |s| == 0 || !Blank(s[|s| - 1], kind) then s
    else StripTrailing(s[..|s| - 1], kind)
  }

  function StripLeading(s: string, kind: nat): (r: string)
    ensures |r| <= |s| && r == s[|s| - |r|..]
    ensures |r| > 0 ==> !Blank(r[0], kind)
    ensures forall i :: 0 <= i < |s| - |r| ==> Blank(s[i], kind)
  {
    if |s| == 0 || !Blank(s[0], kind) then s
    else StripLeading(s[1..], kind)
  }

  // ---------------------------------------------------------------------
  // ASCII case

  function UpperChar(c: char): char
  {
    if 'a' <= c <= 'z' then (c as int - 32) as char else c
  }

  /** String.toUpperCase restricted to ASCII letters. */
  function Upper(s: string): (r: string)
    ensures |r| == |s|
    ensures forall i :: 0 <= i < |s| ==> r[i] == UpperChar(s[i])
  {
    if |s| == 0 then "" else [UpperChar(s[0])] + Upper(s[1..])
  }

  /** String.equalsIgnoreCase restricted to ASCII letters. */
  predicate EqualsIgnoreCase(a: string, b: string)
  {
    Upper(a) == Upper(b)
  }

  function Repeat(c: char, n: nat): (r: string)
    ensures |r| == n
    ensures forall i :: 0 <= i < n ==> r[i] == c
  {
    if n == 0 then "" else [c] + Repeat(c, n - 1)
  }

  // ---------------------------------------------------------------------
  // Finite sets

  lemma SubsetCard<T>(a: set<T>, b: set<T>)
    requires a <= b
    ensures |a| <= |b|
  {
    assert b == a + (b - a);
  }

  /** A subset at least as large as its superset is the whole of it. */
  lemma FillsSet<T>(a: set<T>, b: set<T>)
    requires a <= b && |a| >= |b|
    ensures a == b
  {
    if a != b {
      assert !(b <= a);
      var x :| x in b && x !in a;
      SubsetCard(a, b - {x});
    }
  }

}
