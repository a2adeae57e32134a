/**
 * The string handling the address allocator relies on: Go's `strings.Split`
 * with a one-character separator, decimal formatting as `fmt.Sprintf("%d")`
 * does it for non-negative numbers, and decimal parsing as
 * `fmt.Sscanf(s, "%d", &n)` does it for a 64-bit `int`.
 */
module Text {
  import opened Wrappers

  /** `strings.Split(s, string(sep))`: the pieces between separators, in order; never empty. */
  function Split(s: string, sep: char): (parts: seq<string>)
    ensures |parts| >= 1
    ensures forall k :: 0 <= k < |parts| ==> sep !in parts[k]
    ensures forall k, c :: 0 <= k < |parts| && c in parts[k] ==> c in s
    decreases |s|
  {
    if |s| == 0 then [""]
    else
      var rest := Split(s[1..], sep);
      assert forall c :: c in s[1..] ==> c in s;
      if s[0] == sep then [""] + rest
      else [[s[0]] + rest[0]] + rest[1..]
  }

  /** `strings.Join(parts, string(sep))`. */
  function Join(parts: seq<string>, sep: char): string
    requires |parts| >= 1
  {
    if |parts| == 1 then parts[0] else parts[0] + [sep] + Join(parts[1..], sep)
  }

  lemma JoinTwo(parts: seq<string>, sep: char)
    requires |parts| == 2
    ensures Join(parts, sep) == parts[0] + [sep] + parts[1]
  {
    assert parts[1..] == [parts[1]];
  }

  lemma JoinFour(parts: seq<string>, sep: char)
    requires |parts| == 4
    ensures Join(parts, sep) == parts[0] + [sep] + parts[1] + [sep] + parts[2] + [sep] + parts[3]
  {
    var p1, p2, p3 := parts[1..], parts[1..][1..], parts[1..][1..][1..];
    assert p1 == [parts[1], parts[2], parts[3]] && p2 == [parts[2], parts[3]] && p3 == [parts[3]];
    assert Join(p2, sep) == parts[2] + [sep] + parts[3];
  }

  /** Splitting and joining back gives the original string. */
  lemma {:induction false} JoinSplit(s: string, sep: char)
    ensures Join(Split(s, sep), sep) == s
    decreases |s|
  {
    if |s| > 0 {
      var rest := Split(s[1..], sep);
      JoinSplit(s[1..], sep);
      if s[0] == sep {
        assert ([""] + rest)[1..] == rest;
      } else if |rest| > 1 {
        var parts := Split(s, sep);
        assert parts[1..] == rest[1..];
        assert Join(rest, sep) == rest[0] + [sep] + Join(rest[1..], sep);
        assert s == [s[0]] + s[1..];
      } else {
        assert s == [s[0]] + s[1..];
      }
    }
  }

  lemma {:induction false} SplitWithoutSeparator(p: string, sep: char)
    requires sep !in p
    ensures Split(p, sep) == [p]
    decreases |p|
  {
    if |p| > 0 {
      SplitWithoutSeparator(p[1..], sep);
      assert [p[0]] + p[1..] == p;
    }
  }

  lemma {:induction false} SplitAfterPiece(p: string, t: string, sep: char)
    requires sep !in p
    ensures Split(p + [sep] + t, sep) == [p] + Split(t, sep)
    decreases |p|
  {
    var s := p + [sep] + t;
    if |p| == 0 {
      assert s[1..] == t;
    } else {
      assert s[1..] == p[1..] + [sep] + t;
      SplitAfterPiece(p[1..], t, sep);
      assert [p[0]] + p[1..] == p;
    }
  }

  /** Joining pieces free of the separator and splitting again gives the pieces back. */
  lemma {:induction false} SplitJoin(parts: seq<string>, sep: char)
    requires |parts| >= 1
    requires forall k :: 0 <= k < |parts| ==> sep !in parts[k]
    ensures Split(Join(parts, sep), sep) == parts
    decreases |parts|
  {
    if |parts| == 1 {
      SplitWithoutSeparator(parts[0], sep);
    } else {
      SplitJoin(parts[1..], sep);
      SplitAfterPiece(parts[0], Join(parts[1..], sep), sep);
      assert [parts[0]] + parts[1..] == parts;
    }
  }

  predicate IsDigit(c: char) {
    '0' <= c <= '9'
  }

  predicate AllDigits(s: string) {
    forall k :: 0 <= k < |s| ==> IsDigit(s[k])
  }

  function DigitValue(c: char): nat
    requires IsDigit(c)
  {
    (c as int) - ('0' as int)
  }

  function DigitChar(d: nat): (c: char)
    requires d < 10
    ensures IsDigit(c) && DigitValue(c) == d
  {
    (('0' as int) + d) as char
  }

  /** The number a string of decimal digits denotes, most significant digit first. */
  function DigitsValue(d: string): nat
    requires AllDigits(d)
  {
    if |d| == 0 then 0 else DigitsValue(d[..|d| - 1]) * 10 + DigitValue(d[|d| - 1])
  }

  /** `fmt.Sprintf("%d", n)` for a non-negative `n`: decimal digits without leading zeros. */
  function NatToString(n: nat): (s: string)
    ensures |s| >= 1 && AllDigits(s)
    ensures s[0] == '0' <==> n == 0
    ensures n == 0 ==> s == ['0']
  {
    if n < 10 then [DigitChar(n)] else NatToString(n / 10) + [DigitChar(n % 10)]
  }

  /** Formatting a number and reading its digits back yields the number. */
  lemma {:induction false} DigitsOfNat(n: nat)
    ensures DigitsValue(NatToString(n)) == n
  {
    var s := NatToString(n);
    if n < 10 {
      assert s[..0] == [];
    } else {
      assert s[..|s| - 1] == NatToString(n / 10);
      DigitsOfNat(n / 10);
    }
  }

  const MIN_INT64: int := -0x8000_0000_0000_0000
  const MAX_INT64: int := 0x7FFF_FFFF_FFFF_FFFF

  /** The characters package fmt's scanner treats as white space. */
  predicate IsScanSpace(c: char) {
    var u := c as int;
    (0x09 <= u <= 0x0D) || u == 0x20 || u == 0x85 || u == 0xA0 || u == 0x1680
    || (0x2000 <= u <= 0x200A) || u == 0x2028 || u == 0x2029 || u == 0x202F
    || u == 0x205F || u == 0x3000
  }

  /** What the scanner skips before a number: white space up to the first newline, which it refuses. */
  function SkipSpace(s: string): (t: string)
    ensures |t| <= |s| && t == s[|s| - |t|..]
    ensures |t| == 0 || t[0] == '\n' || !IsScanSpace(t[0])
  {
    if |s| > 0 && s[0] != '\n' && IsScanSpace(s[0]) then SkipSpace(s[1..]) else s
  }

  /** The longest run of decimal digits at the start of `s`. */
  function LeadingDigits(s: string): (d: string)
    ensures d <= s && AllDigits(d)
    ensures |d| < |s| ==> !IsDigit(s[|d|])
  {
    if |s| > 0 && IsDigit(s[0]) then [s[0]] + LeadingDigits(s[1..]) else []
  }

  /**
   * `parseInt`: `fmt.Sscanf(s, "%d", &n)` into a 64-bit `int`. After leading white
   * space it reads an optional sign and then as many decimal digits as follow;
   * what comes after the digits is ignored. It fails on an empty input, on a
   * newline before the number, when no digit follows, or when the value is out
   * of the 64-bit range.
   */
  function ParseInt(s: string): (r: Option<int>)
    ensures r.Some? ==> MIN_INT64 <= r.value <= MAX_INT64
  {
    ScanNumber(SkipSpace(s))
  }

  /** The number at the very start of `t`, once white space is skipped. */
  function ScanNumber(t: string): (r: Option<int>)
    ensures r.Some? ==> MIN_INT64 <= r.value <= MAX_INT64
  {
    if |t| == 0 || t[0] == '\n' then None
    else
      var negative := t[0] == '-';
      var u := if t[0] == '+' || t[0] == '-' then t[1..] else t;
      var d := LeadingDigits(u);
      if |d| == 0 then None
      else
        var magnitude: int := DigitsValue(d);
        var v := if negative then -magnitude else magnitude;
        if MIN_INT64 <= v <= MAX_INT64 then Some(v) else None
  }

  lemma {:induction false} LeadingDigitsOfDigits(d: string, rest: string)
    requires AllDigits(d)
    requires rest == [] || !IsDigit(rest[0])
    ensures LeadingDigits(d + rest) == d
    decreases |d|
  {
    if |d| > 0 {
      assert (d + rest)[1..] == d[1..] + rest;
      LeadingDigitsOfDigits(d[1..], rest);
      assert [d[0]] + d[1..] == d;
    } else {
      assert d + rest == rest;
    }
  }

  /** A decimal digit run is read as its value, whatever non-digit text follows it. */
  lemma ParseIntOfDigits(d: string, rest: string)
    requires |d| >= 1 && AllDigits(d)
    requires rest == [] || !IsDigit(rest[0])
    requires DigitsValue(d) <= MAX_INT64
    ensures ParseInt(d + rest) == Some(DigitsValue(d))
  {
    var s := d + rest;
    assert s[0] == d[0] && IsDigit(s[0]);
    assert !IsScanSpace(s[0]);
    assert SkipSpace(s) == s;
    assert s[0] != '+' && s[0] != '-' && s[0] != '\n';
    LeadingDigitsOfDigits(d, rest);
  }

  /** Scan white space (no newline) is skipped up to the first character the scanner does not skip. */
  lemma {:induction false} SkipSpaceOfSpaces(ws: string, t: string)
    requires forall k :: 0 <= k < |ws| ==> ws[k] != '\n' && IsScanSpace(ws[k])
    requires t == [] || t[0] == '\n' || !IsScanSpace(t[0])
    ensures SkipSpace(ws + t) == t
    decreases |ws|
  {
    if |ws| == 0 {
      assert ws + t == t;
    } else {
      assert (ws + t)[1..] == ws[1..] + t;
      SkipSpaceOfSpaces(ws[1..], t);
    }
  }

  /** A sign written before the digits: nothing, `+` or `-`. */
  predicate IsSign(sign: string) {
    |sign| == 0 || (|sign| == 1 && (sign[0] == '+' || sign[0] == '-'))
  }

  /** The value a signed digit run denotes. */
  function SignedValue(sign: string, d: string): int
    requires AllDigits(d)
  {
    var magnitude: int := DigitsValue(d);
    if |sign| == 1 && sign[0] == '-' then -magnitude else magnitude
  }

  /** Leading white space (no newline) does not change what is parsed. */
  lemma ParseIntSkipsSpace(ws: string, t: string)
    requires forall k :: 0 <= k < |ws| ==> ws[k] != '\n' && IsScanSpace(ws[k])
    requires t == [] || t[0] == '\n' || !IsScanSpace(t[0])
    ensures ParseInt(ws + t) == ParseInt(t)
  {
    SkipSpaceOfSpaces(ws, t);
    assert SkipSpace(t) == t;
  }

  lemma ParseIntSignedDigits(sign: string, d: string, rest: string)
    requires IsSign(sign)
    requires |d| >= 1 && AllDigits(d)
    requires rest == [] || !IsDigit(rest[0])
    ensures var v := SignedValue(sign, d);
      ParseInt(sign + d + rest) == if MIN_INT64 <= v <= MAX_INT64 then Some(v) else None
  {
    var t := sign + d + rest;
    LeadingDigitsOfDigits(d, rest);
    if |sign| == 1 {
      assert t[0] == sign[0] && !IsScanSpace(t[0]);
      assert SkipSpace(t) == t;
      assert t[1..] == d + rest;
    } else {
      assert t == d + rest && t[0] == d[0];
      assert IsDigit(t[0]) && !IsScanSpace(t[0]);
      assert SkipSpace(t) == t;
    }
  }

  /**
   * White space, an optional sign and a digit run, followed by a non-digit or
   * the end, parse as the signed value of the digits when it lies in the
   * 64-bit range, and fail otherwise.
   */
  lemma ParseIntSigned(ws: string, sign: string, d: string, rest: string)
    requires forall k :: 0 <= k < |ws| ==> ws[k] != '\n' && IsScanSpace(ws[k])
    requires IsSign(sign)
    requires |d| >= 1 && AllDigits(d)
    requires rest == [] || !IsDigit(rest[0])
    ensures var v := SignedValue(sign, d);
      ParseInt(ws + sign + d + rest) == if MIN_INT64 <= v <= MAX_INT64 then Some(v) else None
  {
    var t := sign + d + rest;
    assert ws + sign + d + rest == ws + t;
    assert t[0] == (if |sign| == 1 then sign[0] else d[0]);
    ParseIntSkipsSpace(ws, t);
    ParseIntSignedDigits(sign, d, rest);
  }

  /**
   * No number: after white space the input ends or has a newline, or its
   * first other character is neither a sign nor a digit, or a sign is
   * followed by no digit. Each of these fails.
   */
  lemma ParseIntNoNumber(ws: string, sign: string, rest: string)
    requires forall k :: 0 <= k < |ws| ==> ws[k] != '\n' && IsScanSpace(ws[k])
    requires IsSign(sign)
    requires rest == [] || !IsDigit(rest[0])
    requires |sign| == 0 ==>
      rest == [] || rest[0] == '\n' || (!IsScanSpace(rest[0]) && rest[0] != '+' && rest[0] != '-')
    ensures ParseInt(ws + sign + rest) == None
  {
    var t := sign + rest;
    assert ws + sign + rest == ws + t;
    SkipSpaceOfSpaces(ws, t);
    if |t| > 0 && t[0] != '\n' {
      var u := if t[0] == '+' || t[0] == '-' then t[1..] else t;
      assert u == rest;
    }
  }

  /** Reading back a formatted number gives the number. */
  lemma ParseNatToString(n: nat)
    requires n <= MAX_INT64
    ensures ParseInt(NatToString(n)) == Some(n)
  {
    DigitsOfNat(n);
    ParseIntOfDigits(NatToString(n), []);
    assert NatToString(n) + [] == NatToString(n);
  }
}
