/** Python's conversions between integers and decimal text: `int(text)`
    (base 10, as `get_iso_codes` uses it) and `str(n)` (as the request's query
    string renders integer parameters). */
module Decimal {
  import opened Results

  /** The most digits `int()` converts before it raises `ValueError`
      (`sys.int_info.default_max_str_digits` of Python 3.11 and later). */
  const MaxStrDigits: nat := 4300

  predicate IsDigit(c: char) {
    '0' <= c <= '9'
  }

  predicate AllDigits(s: string) {
    forall i :: 0 <= i < |s| ==> IsDigit(s[i])
  }

  function DigitValue(c: char): (d: nat)
    requires IsDigit(c)
    ensures d < 10
  {
    (c as int) - ('0' as int)
  }

  function DigitChar(d: nat): (c: char)
    requires d < 10
    ensures IsDigit(c) && DigitValue(c) == d
  {
    (('0' as int) + d) as char
  }

  /** The whitespace `int()` skips around a number: the ASCII tab to carriage
      return and space, and every non-ASCII character `str.isspace` accepts
      (which `int()` first turns into a space). The ASCII separators
      0x1C-0x1F count as space for `str.isspace` but not for `int()`. */
  predicate IsSpace(c: char) {
    var n := c as int;
    || (9 <= n <= 13)
    || n == 0x20
    || n == 0x85 || n == 0xA0 || n == 0x1680
    || (0x2000 <= n <= 0x200A)
    || n == 0x2028 || n == 0x2029 || n == 0x202F || n == 0x205F || n == 0x3000
  }

  predicate AllSpaces(s: string) {
    forall i :: 0 <= i < |s| ==> IsSpace(s[i])
  }

  /** The number of whitespace characters that open `s`. */
  function LeadingSpaces(s: string): (n: nat)
    ensures n <= |s|
    ensures forall i :: 0 <= i < n ==> IsSpace(s[i])
    ensures n < |s| ==> !IsSpace(s[n])
  {
    if |s| > 0 && IsSpace(s[0]) then 1 + LeadingSpaces(s[1..]) else 0
  }

  /** The number of whitespace characters that close `s`. */
  function TrailingSpaces(s: string): (n: nat)
    ensures n <= |s|
    ensures forall i :: |s| - n <= i < |s| ==> IsSpace(s[i])
    ensures n < |s| ==> !IsSpace(s[|s| - n - 1])
  {
    if |s| > 0 && IsSpace(s[|s| - 1]) then 1 + TrailingSpaces(s[..|s| - 1]) else 0
  }

  /** `s` without the whitespace `int()` skips at either end. */
  function Strip(s: string): string
  {
    var a := LeadingSpaces(s);
    s[a..|s| - TrailingSpaces(s[a..])]
  }

  /** A run of digits in which a single underscore may stand between two
      digits: the body `int()` accepts after the sign. */
  predicate IsDigitGroup(b: string) {
    && |b| > 0
    && IsDigit(b[0])
    && forall i :: 0 <= i < |b| ==> IsDigit(b[i]) || (b[i] == '_' && i + 1 < |b| && IsDigit(b[i + 1]))
  }

  /** The digits of `b`, in order, with everything else dropped. */
  function Digits(b: string): (ds: string)
    ensures AllDigits(ds)
  {
    if |b| == 0 then [] else (if IsDigit(b[0]) then [b[0]] else []) + Digits(b[1..])
  }

  /** The value of a digit string read in base 10, most significant first. */
  function DecimalValue(ds: string): nat
    requires AllDigits(ds)
  {
    if |ds| == 0 then 0 else DecimalValue(ds[..|ds| - 1]) * 10 + DigitValue(ds[|ds| - 1])
  }

  /** `int(s)` in base 10: `None` where Python raises `ValueError`. Surrounding
      whitespace is ignored, one sign is allowed, and the digits may be grouped
      with single underscores. */
  function ParseInt(s: string): Option<int>
  {
    ParseSigned(Strip(s))
  }

  /** `int()` after the whitespace is stripped. */
  function ParseSigned(t: string): Option<int>
  {
    if |t| > 0 && t[0] == '-' then
      match ParseBody(t[1..])
      case Some(v) => Some(-(v as int))
      case None => None
    else if |t| > 0 && t[0] == '+' then ParseBody(t[1..])
    else ParseBody(t)
  }

  /** The unsigned part of `int()`'s input. */
  function ParseBody(b: string): Option<nat>
  {
    if IsDigitGroup(b) && |Digits(b)| <= MaxStrDigits then Some(DecimalValue(Digits(b))) else None
  }

  /** `str(n)` for `n >= 0`. */
  function ShowNat(n: nat): (s: string)
    ensures |s| > 0 && AllDigits(s)
    ensures s[0] == '0' ==> n == 0 && |s| == 1
  {
    if n < 10 then [DigitChar(n)] else ShowNat(n / 10) + [DigitChar(n % 10)]
  }

  /** `str(n)`. */
  function ShowInt(n: int): string
  {
    if n < 0 then "-" + ShowNat(-n) else ShowNat(n)
  }

  /** `int()` accepts the decimal rendering of `n` without hitting its digit limit. */
  predicate WithinDigitLimit(n: int) {
    |ShowNat(if n < 0 then -n else n)| <= MaxStrDigits
  }

  lemma {:induction false} DecimalValueOfShowNat(n: nat)
    ensures DecimalValue(ShowNat(n)) == n
  {
    var s := ShowNat(n);
    if n >= 10 {
      DecimalValueOfShowNat(n / 10);
      assert s[..|s| - 1] == ShowNat(n / 10);
    }
  }

  lemma {:induction false} DigitsOfAllDigits(ds: string)
    requires AllDigits(ds)
    ensures Digits(ds) == ds
  {
    if |ds| > 0 {
      DigitsOfAllDigits(ds[1..]);
      assert ds == [ds[0]] + ds[1..];
    }
  }

  lemma {:induction false} LeadingSpacesOfPadded(pre: string, x: string)
    requires AllSpaces(pre)
    requires |x| > 0 && !IsSpace(x[0])
    ensures LeadingSpaces(pre + x) == |pre|
  {
    if |pre| > 0 {
      assert (pre + x)[1..] == pre[1..] + x;
      LeadingSpacesOfPadded(pre[1..], x);
    } else {
      assert pre + x == x;
    }
  }

  lemma {:induction false} TrailingSpacesOfPadded(x: string, post: string)
    requires AllSpaces(post)
    requires |x| > 0 && !IsSpace(x[|x| - 1])
    ensures TrailingSpaces(x + post) == |post|
  {
    if |post| > 0 {
      assert (x + post)[..|x + post| - 1] == x + post[..|post| - 1];
      TrailingSpacesOfPadded(x, post[..|post| - 1]);
    } else {
      assert x + post == x;
    }
  }

  /** Surrounding whitespace does not change what `int()` reads. */
  lemma StripPadded(pre: string, x: string, post: string)
    requires AllSpaces(pre) && AllSpaces(post)
    requires |x| > 0 && !IsSpace(x[0]) && !IsSpace(x[|x| - 1])
    ensures Strip(pre + x + post) == x
  {
    var s := pre + x + post;
    assert s == pre + (x + post);
    LeadingSpacesOfPadded(pre, x + post);
    assert s[|pre|..] == x + post;
    TrailingSpacesOfPadded(x, post);
    assert s[|pre|..|s| - |post|] == x;
  }

  lemma ParseBodyOfDigits(ds: string)
    requires |ds| > 0 && AllDigits(ds)
    ensures ParseBody(ds) == (if |ds| <= MaxStrDigits then Some(DecimalValue(ds)) else None)
  {
    DigitsOfAllDigits(ds);
  }

  /** `int(str(n))` is `n`, also with whitespace around the text, as long as
      the digits stay within Python's conversion limit. */
  lemma ParsePaddedShowInt(pre: string, n: int, post: string)
    requires AllSpaces(pre) && AllSpaces(post)
    requires WithinDigitLimit(n)
    ensures ParseInt(pre + ShowInt(n) + post) == Some(n)
  {
    var x := ShowInt(n);
    assert !IsSpace(x[0]) by {
      assert x[0] == '-' || IsDigit(x[0]);
    }
    assert !IsSpace(x[|x| - 1]) by {
      assert IsDigit(x[|x| - 1]);
    }
    StripPadded(pre, x, post);
    ParseSignedShowInt(n);
  }

  /** `int(str(n))` is `n` within Python's conversion limit. */
  lemma ParseShowInt(n: int)
    requires WithinDigitLimit(n)
    ensures ParseInt(ShowInt(n)) == Some(n)
  {
    ParsePaddedShowInt([], n, []);
    assert [] + ShowInt(n) + [] == ShowInt(n);
  }

  lemma ParseSignedShowInt(n: int)
    requires WithinDigitLimit(n)
    ensures ParseSigned(ShowInt(n)) == Some(n)
  {
    var m: nat := if n < 0 then -n else n;
    var digits := ShowNat(m);
    ParseBodyOfDigits(digits);
    DecimalValueOfShowNat(m);
    if n < 0 {
      assert ShowInt(n)[1..] == digits;
    }
  }

  lemma StripDigits(ds: string)
    requires |ds| > 0 && AllDigits(ds)
    ensures Strip(ds) == ds
  {
    StripPadded([], ds, []);
    assert [] + ds + [] == ds;
  }

  lemma ParseUnsigned(t: string)
    requires |t| > 0 && IsDigit(t[0])
    ensures ParseSigned(t) == ParseBody(t)
  {
    assert t[0] != '-' && t[0] != '+';
  }

  /** `int()` refuses digit strings longer than its limit, whatever their value. */
  lemma RejectsTooManyDigits(ds: string)
    requires AllDigits(ds) && |ds| > MaxStrDigits
    ensures ParseInt(ds) == None
  {
    StripDigits(ds);
    ParseUnsigned(ds);
    ParseBodyOfDigits(ds);
  }

  /** `int()` does not skip the ASCII separators 0x1C-0x1F, although
      `str.isspace` counts them as space: a text that starts with one is
      refused. */
  lemma RejectsLeadingSeparator(c: char, s: string)
    requires 0x1C <= c as int <= 0x1F
    ensures ParseInt([c] + s) == None
  {
    var u := [c] + s;
    assert LeadingSpaces(u) == 0;
    var t := Strip(u);
    assert |t| > 0 && t[0] == c by {
      assert TrailingSpaces(u) < |u|;
    }
  }

  /** `int()` refuses any text that holds no digit at all. */
  lemma RejectsWithoutDigits(s: string)
    requires forall i :: 0 <= i < |s| ==> !IsDigit(s[i])
    ensures ParseInt(s) == None
  {
    var a := LeadingSpaces(s);
    var t := Strip(s);
    if |t| > 0 {
      assert t[0] == s[a];
    }
    if |t| > 1 {
      assert t[1] == s[a + 1];
    }
  }
}
