/**
 * The few pieces of Python string behaviour the handlers rely on:
 * `str.strip()`, `str.split(sep)`, `int()` on a stripped string,
 * `str.isdigit()` and the `f"{i:03d}"` rendering of range codes.
 * Only ASCII is modelled: whitespace is the ASCII subset of `str.isspace`
 * and digits are '0'..'9'.
 */
module Text {
  import opened Options

  /** ASCII characters for which Python's `str.isspace()` holds. */
  predicate IsSpace(c: char) {
    c == ' ' || (9 <= c as int <= 13) || (28 <= c as int <= 31)
  }

  predicate IsDigit(c: char) {
    '0' <= c <= '9'
  }

  /** Python's `s.isdigit()` restricted to ASCII: non-empty and all digits. */
  predicate AllDigits(s: string) {
    |s| > 0 && forall i :: 0 <= i < |s| ==> IsDigit(s[i])
  }

  // ---------------------------------------------------------------- strip

  /** The first index at or after `i` that holds no whitespace, or `|s|`. */
  function SkipSpaces(s: string, i: nat): (j: nat)
    requires i <= |s|
    ensures i <= j <= |s|
    ensures forall k :: i <= k < j ==> IsSpace(s[k])
    ensures j == |s| || !IsSpace(s[j])
    decreases |s| - i
  {
    if i < |s| && IsSpace(s[i]) then SkipSpaces(s, i + 1) else i
  }

  /** The end of `s[i..j]` once its trailing whitespace is cut off. */
  function TrimSpaces(s: string, i: nat, j: nat): (e: nat)
    requires i <= j <= |s|
    ensures i <= e <= j
    ensures forall k :: e <= k < j ==> IsSpace(s[k])
    ensures e == i || !IsSpace(s[e - 1])
    decreases j
  {
    if j > i && IsSpace(s[j - 1]) then TrimSpaces(s, i, j - 1) else j
  }

  /** Number of leading whitespace characters that `strip()` removes. */
  function StripStart(s: string): (i: nat)
    ensures i <= |s|
  {
    SkipSpaces(s, 0)
  }

  /**
   * Python's `s.strip()`: the slice of `s` that starts after its leading
   * whitespace and ends before its trailing whitespace.
   */
  function Strip(s: string): (r: string)
    ensures StripStart(s) + |r| <= |s| && r == s[StripStart(s)..StripStart(s) + |r|]
    ensures r == [] || (!IsSpace(r[0]) && !IsSpace(r[|r| - 1]))
    ensures forall k :: 0 <= k < StripStart(s) ==> IsSpace(s[k])
    ensures forall k :: StripStart(s) + |r| <= k < |s| ==> IsSpace(s[k])
  {
    s[StripStart(s)..TrimSpaces(s, StripStart(s), |s|)]
  }

  /** A string with no whitespace at its ends is left alone by `strip()`. */
  lemma StripNoEdgeSpaces(s: string)
    requires s == [] || (!IsSpace(s[0]) && !IsSpace(s[|s| - 1]))
    ensures Strip(s) == s
  {
    if s != [] {
      assert StripStart(s) == 0;
      assert TrimSpaces(s, 0, |s|) == |s|;
      assert s[0..|s|] == s;
    }
  }

  /** `strip()` is idempotent. */
  lemma StripIdempotent(s: string)
    ensures Strip(Strip(s)) == Strip(s)
  {
    StripNoEdgeSpaces(Strip(s));
  }

  // ---------------------------------------------------------------- split

  /** Number of occurrences of `c` in `s`. */
  function Count(s: string, c: char): nat {
    if s == [] then 0 else (if s[0] == c then 1 else 0) + Count(s[1..], c)
  }

  /** Pieces joined back with the separator between them (`sep.join(parts)`). */
  function Join(parts: seq<string>, sep: char): string
    requires |parts| >= 1
  {
    if |parts| == 1 then parts[0] else parts[0] + [sep] + Join(parts[1..], sep)
  }

  function IndexOf(s: string, c: char): (k: nat)
    requires c in s
    ensures k < |s| && s[k] == c && c !in s[..k]
  {
    if s[0] == c then 0 else 1 + IndexOf(s[1..], c)
  }

  lemma CountSplit(s: string, c: char, k: nat)
    requires k < |s| && s[k] == c && c !in s[..k]
    ensures Count(s, c) == 1 + Count(s[k + 1..], c)
  {
    if k > 0 {
      assert s[0] != c by { assert s[0] == s[..k][0]; }
      CountSplit(s[1..], c, k - 1);
      assert s[1..][k..] == s[k + 1..];
    }
  }

  lemma CountAbsent(s: string, c: char)
    requires c !in s
    ensures Count(s, c) == 0
  {
    if s != [] {
      assert s[1..] == s[1..];
      CountAbsent(s[1..], c);
    }
  }

  /**
   * Python's `s.split(sep)`: one more piece than there are separators, no
   * piece holds the separator, and joining the pieces gives `s` back.
   */
  function SplitOn(s: string, sep: char): (parts: seq<string>)
    ensures |parts| == Count(s, sep) + 1
    ensures forall i :: 0 <= i < |parts| ==> sep !in parts[i]
    ensures Join(parts, sep) == s
    decreases |s|
  {
    if sep !in s then
      CountAbsent(s, sep);
      [s]
    else
      var k := IndexOf(s, sep);
      var rest := SplitOn(s[k + 1..], sep);
      SplitStep(s, sep, k, rest);
      [s[..k]] + rest
  }

  /** The first piece up to the first separator, followed by the pieces of the rest, splits `s`. */
  lemma SplitStep(s: string, sep: char, k: nat, rest: seq<string>)
    requires k < |s| && s[k] == sep && sep !in s[..k]
    requires |rest| == Count(s[k + 1..], sep) + 1
    requires forall i :: 0 <= i < |rest| ==> sep !in rest[i]
    requires Join(rest, sep) == s[k + 1..]
    ensures |[s[..k]] + rest| == Count(s, sep) + 1
    ensures forall i :: 0 <= i < |[s[..k]] + rest| ==> sep !in ([s[..k]] + rest)[i]
    ensures Join([s[..k]] + rest, sep) == s
  {
    CountSplit(s, sep, k);
    var parts := [s[..k]] + rest;
    assert parts[0] == s[..k] && parts[1..] == rest;
    assert Join(parts, sep) == s[..k] + [sep] + Join(rest, sep);
    assert s == s[..k] + [sep] + s[k + 1..];
    assert forall i :: 1 <= i < |parts| ==> parts[i] == rest[i - 1];
  }

  /** Splitting a string that holds no separator gives the string itself. */
  lemma SplitNoSeparator(s: string, sep: char)
    requires sep !in s
    ensures SplitOn(s, sep) == [s]
  {
  }

  /** The first occurrence of `c` is at `k` when `s[k] == c` and no earlier character is `c`. */
  lemma IndexOfAt(s: string, c: char, k: nat)
    requires k < |s| && s[k] == c && c !in s[..k]
    ensures IndexOf(s, c) == k
  {
    if k > 0 {
      assert s[0] == s[..k][0];
      assert s[1..][..k - 1] == s[..k][1..];
      IndexOfAt(s[1..], c, k - 1);
    }
  }

  /** Splitting `a + [sep] + b` when neither side holds the separator gives the two sides. */
  lemma SplitOnce(a: string, b: string, sep: char)
    requires sep !in a && sep !in b
    ensures SplitOn(a + [sep] + b, sep) == [a, b]
  {
    var s := a + [sep] + b;
    assert s[..|a|] == a;
    IndexOfAt(s, sep, |a|);
    assert s[|a| + 1..] == b;
  }

  /** A string of digits holds no '-'. */
  lemma DigitsHaveNoDash(s: string)
    requires forall i :: 0 <= i < |s| ==> IsDigit(s[i])
    ensures '-' !in s
  {
    assert forall i :: 0 <= i < |s| ==> s[i] != '-';
  }

  // ------------------------------------------------------- decimal numbers

  function DigitChar(d: nat): (c: char)
    requires d < 10
    ensures IsDigit(c)
  {
    ('0' as int + d) as char
  }

  /** Decimal value of a digit string, read left to right. */
  function Value(s: string): int {
    if s == [] then 0 else Value(s[..|s| - 1]) * 10 + (s[|s| - 1] as int - '0' as int)
  }

  /** The decimal rendering of `n` with no leading zeros (`str(n)`). */
  function Digits(n: nat): (r: string)
    ensures 1 <= |r| && forall i :: 0 <= i < |r| ==> IsDigit(r[i])
    ensures n < 10 ==> |r| == 1
    ensures n < 100 ==> |r| <= 2
    ensures n < 1000 ==> |r| <= 3
    ensures r[0] == '0' <==> n == 0
  {
    if n < 10 then [DigitChar(n)] else Digits(n / 10) + [DigitChar(n % 10)]
  }

  lemma {:induction false} DigitsValue(n: nat)
    ensures Value(Digits(n)) == n
  {
    var d := Digits(n);
    if n < 10 {
      assert d[..0] == [];
    } else {
      assert d[..|d| - 1] == Digits(n / 10);
      DigitsValue(n / 10);
    }
  }

  function Zeros(k: nat): (r: string)
    ensures |r| == k && forall i :: 0 <= i < k ==> r[i] == '0'
  {
    if k == 0 then [] else Zeros(k - 1) + ['0']
  }

  lemma {:induction false} ValueZeros(k: nat)
    ensures Value(Zeros(k)) == 0
  {
    if k > 0 {
      assert Zeros(k)[..k - 1] == Zeros(k - 1);
      ValueZeros(k - 1);
    }
  }

  /** Leading zeros do not change a decimal value. */
  lemma {:induction false} ValueLeadingZeros(k: nat, s: string)
    ensures Value(Zeros(k) + s) == Value(s)
    decreases |s|
  {
    if s == [] {
      assert Zeros(k) + s == Zeros(k);
      ValueZeros(k);
    } else {
      var t := Zeros(k) + s;
      assert t[..|t| - 1] == Zeros(k) + s[..|s| - 1];
      ValueLeadingZeros(k, s[..|s| - 1]);
    }
  }

  /**
   * Python's `f"{n:03d}"` for a non-negative `n`: the decimal digits of `n`,
   * left-padded with '0' to a width of at least three.
   */
  function Pad3(n: nat): (r: string)
    ensures |r| >= 3 && forall i :: 0 <= i < |r| ==> IsDigit(r[i])
    ensures n < 1000 ==> |r| == 3
    ensures n >= 1000 ==> r == Digits(n)
  {
    var d := Digits(n);
    if |d| < 3 then Zeros(3 - |d|) + d else d
  }

  /** Reading a rendered code back gives the number it was rendered from. */
  lemma Pad3Value(n: nat)
    ensures Value(Pad3(n)) == n
  {
    var d := Digits(n);
    DigitsValue(n);
    if |d| < 3 {
      ValueLeadingZeros(3 - |d|, d);
    }
  }

  /** Distinct numbers render to distinct codes. */
  lemma Pad3Injective(a: nat, b: nat)
    ensures Pad3(a) == Pad3(b) ==> a == b
  {
    Pad3Value(a);
    Pad3Value(b);
  }

  /**
   * `int(s.strip())` for the forms modelled here: optional whitespace around
   * a non-empty run of ASCII digits. `None` stands for the `ValueError`.
   */
  function ParseNat(s: string): (r: Option<nat>)
    ensures r.Some? <==> AllDigits(Strip(s))
    ensures r.Some? ==> r.value == Value(Strip(s))
  {
    var t := Strip(s);
    if AllDigits(t) then
      ValueNonNegative(t);
      Some(Value(t) as nat)
    else None
  }

  lemma {:induction false} ValueNonNegative(s: string)
    requires forall i :: 0 <= i < |s| ==> IsDigit(s[i])
    ensures Value(s) >= 0
    decreases |s|
  {
    if s != [] {
      ValueNonNegative(s[..|s| - 1]);
    }
  }

  /** A rendered code, with or without surrounding blanks, parses back to its number. */
  lemma ParsePad3(n: nat)
    ensures ParseNat(Pad3(n)) == Some(n)
  {
    var p := Pad3(n);
    assert !IsSpace(p[0]) && !IsSpace(p[|p| - 1]);
    StripNoEdgeSpaces(p);
    Pad3Value(n);
  }

  // ----------------------------------------------------------------- ranges

  datatype Range = Range(lo: nat, hi: nat)

  /** The two ways a range can be rejected, each with its own message in the handler. */
  datatype RangeError =
    | MissingDash     // no '-' at all: "Use: 001-010"
    | NotNumbers      // the `ValueError` path: "Use números: 001-010"

  datatype Parsed = Ok(range: Range) | Err(error: RangeError)

  /**
   * The range form `"<inicio>-<fin>"`: `'-' in rango`, the two-value unpack of
   * `rango.split('-')`, and `int(...strip())` of each half.
   */
  function ParseRange(s: string): (r: Parsed)
    ensures r == Err(MissingDash) <==> '-' !in s
    ensures Count(s, '-') >= 2 ==> r == Err(NotNumbers)
    ensures r.Ok? ==> Count(s, '-') == 1
  {
    if '-' !in s then
      CountAbsent(s, '-');
      Err(MissingDash)
    else
      var parts := SplitOn(s, '-');
      if |parts| != 2 then Err(NotNumbers)
      else
        var lo, hi := ParseNat(parts[0]), ParseNat(parts[1]);
        if lo.None? || hi.None? then Err(NotNumbers)
        else
          Ok(Range(lo.value, hi.value))
  }

  /** An accepted range is two numbers, each optionally padded with whitespace, around one '-'. */
  lemma ParseRangeHalves(s: string)
    requires ParseRange(s).Ok?
    ensures exists lo: string, hi: string ::
              s == lo + "-" + hi && '-' !in lo && '-' !in hi
              && ParseNat(lo) == Some(ParseRange(s).range.lo) && ParseNat(hi) == Some(ParseRange(s).range.hi)
  {
    var parts := SplitOn(s, '-');
    assert s == parts[0] + "-" + parts[1];
  }

  /**
   * A text with a single '-' is accepted exactly when `int()` reads both
   * halves, and then yields their two values; otherwise it is the number error.
   */
  lemma ParseRangeAccepts(lo: string, hi: string)
    requires '-' !in lo && '-' !in hi
    ensures ParseRange(lo + "-" + hi)
         == if ParseNat(lo).Some? && ParseNat(hi).Some? then Ok(Range(ParseNat(lo).value, ParseNat(hi).value))
            else Err(NotNumbers)
  {
    SplitOnce(lo, hi, '-');
    assert lo + "-" + hi == lo + ['-'] + hi;
    assert (lo + "-" + hi)[|lo|] == '-';
  }

  /** The format the form suggests, "001-010", parses to its two numbers. */
  lemma ParseRangeOfCodes(a: nat, b: nat)
    ensures ParseRange(Pad3(a) + "-" + Pad3(b)) == Ok(Range(a, b))
  {
    var pa, pb := Pad3(a), Pad3(b);
    DigitsHaveNoDash(pa);
    DigitsHaveNoDash(pb);
    ParseRangeAccepts(pa, pb);
    ParsePad3(a);
    ParsePad3(b);
  }

  /** `range(lo, hi + 1)` rendered with `f"{i:03d}"`, in ascending order. */
  function RangeCodes(r: Range): (codes: seq<string>)
    ensures |codes| == if r.lo <= r.hi then r.hi - r.lo + 1 else 0
    ensures forall k :: 0 <= k < |codes| ==> codes[k] == Pad3(r.lo + k)
  {
    var n := if r.lo <= r.hi then r.hi - r.lo + 1 else 0;
    seq(n, k requires 0 <= k < n => Pad3(r.lo + k))
  }

  /** The codes of a range are pairwise distinct. */
  lemma RangeCodesDistinct(r: Range, i: nat, j: nat)
    requires i < j < |RangeCodes(r)|
    ensures RangeCodes(r)[i] != RangeCodes(r)[j]
  {
    Pad3Injective(r.lo + i, r.lo + j);
  }
}
