/**
 How the archive readers take text and numbers out of fixed-size header fields. Text is kept as
 bytes: decoding is left out, so names are compared byte by byte.
 */
module ArchiveFields {
  import opened Prelude

  type Byte = x: int | 0 <= x < 256
  type Bytes = seq<Byte>

  const NUL: Byte := 0
  const SPACE: Byte := 0x20
  const NEWLINE: Byte := 0x0A
  const RETURN: Byte := 0x0D
  const SLASH: Byte := 0x2F
  /** The largest integer JavaScript calls safe. */
  const MAX_SAFE := 0x1F_FFFF_FFFF_FFFF

  function Min(a: nat, b: nat): nat { if a < b then a else b }

  /** `bytes.subarray(start, start + length)`, which clamps at the end. */
  function Sub(bytes: Bytes, start: nat, length: nat): Bytes {
    bytes[Min(start, |bytes|)..Min(start + length, |bytes|)]
  }

  function UpToNul(s: Bytes): Bytes {
    if s == [] || s[0] == NUL then [] else [s[0]] + UpToNul(s[1..])
  }

  function Field(bytes: Bytes, start: nat, length: nat): Bytes {
    UpToNul(Sub(bytes, start, length))
  }

  predicate IsSpace(b: Byte) { b == SPACE || 9 <= b <= 13 }

  function TrimLeft(s: Bytes): Bytes {
    if s != [] && IsSpace(s[0]) then TrimLeft(s[1..]) else s
  }

  function TrimRight(s: Bytes): Bytes {
    if s != [] && IsSpace(s[|s| - 1]) then TrimRight(s[..|s| - 1]) else s
  }

  function Trim(s: Bytes): Bytes { TrimRight(TrimLeft(s)) }

  predicate StartsWith(s: Bytes, prefix: Bytes) { prefix <= s }

  // ----- numbers

  predicate IsDigit(b: Byte, radix: nat) { 0x30 <= b && b - 0x30 < radix }

  function LeadingDigits(s: Bytes, radix: nat): Bytes {
    if s == [] || !IsDigit(s[0], radix) then [] else [s[0]] + LeadingDigits(s[1..], radix)
  }

  function ValueOf(digits: Bytes, radix: nat): int {
    if digits == [] then 0
    else ValueOf(digits[..|digits| - 1], radix) * radix + (digits[|digits| - 1] as int - 0x30)
  }

  /** `Number.parseInt` on text without leading white space: `None` is NaN. */
  function ParseInt(text: Bytes, radix: nat): Option<int> {
    var negative := text != [] && text[0] == 0x2D;
    var signed := negative || (text != [] && text[0] == 0x2B);
    var digits := LeadingDigits(if signed then text[1..] else text, radix);
    if digits == [] then None
    else Some(if negative then -ValueOf(digits, radix) else ValueOf(digits, radix))
  }

  predicate IsSize(value: Option<int>) { value.Some? && 0 <= value.value <= MAX_SAFE }

  /** The last `width` digits of `n`, most significant first, as an archive writer puts them. */
  function Digits(n: nat, width: nat, radix: nat): (s: Bytes)
    requires 2 <= radix <= 10
    ensures |s| == width
    ensures forall i | 0 <= i < |s| :: IsDigit(s[i], radix)
  {
    if width == 0 then [] else Digits(n / radix, width - 1, radix) + [0x30 + n % radix]
  }

  function Power(radix: nat, width: nat): nat {
    if width == 0 then 1 else radix * Power(radix, width - 1)
  }

  lemma {:induction false} DigitsHaveValue(n: nat, width: nat, radix: nat)
    requires 2 <= radix <= 10 && n < Power(radix, width)
    ensures ValueOf(Digits(n, width, radix), radix) == n
  {
    hide IsDigit;
    if width > 0 {
      QuotientBelow(n, radix, Power(radix, width - 1));
      DigitsHaveValue(n / radix, width - 1, radix);
      var digits := Digits(n, width, radix);
      assert digits[..width - 1] == Digits(n / radix, width - 1, radix);
      assert digits[width - 1] == 0x30 + n % radix;
    }
  }

  lemma AtLeastTimes(k: nat, a: nat, b: nat)
    ensures a >= b ==> k * a >= k * b
  {
  }

  lemma QuotientBelow(n: nat, radix: nat, bound: nat)
    requires radix > 0 && n < radix * bound
    ensures n / radix < bound && n == n / radix * radix + n % radix
  {
    AtLeastTimes(radix, n / radix, bound);
  }

  lemma {:induction false} LeadingDigitsOf(digits: Bytes, rest: Bytes, radix: nat)
    requires forall i | 0 <= i < |digits| :: IsDigit(digits[i], radix)
    requires rest == [] || !IsDigit(rest[0], radix)
    ensures LeadingDigits(digits + rest, radix) == digits
  {
    if digits == [] {
      assert digits + rest == rest;
    } else {
      assert (digits + rest)[1..] == digits[1..] + rest;
      LeadingDigitsOf(digits[1..], rest, radix);
    }
  }

  /** Reading back what a writer put into a number field. */
  lemma ParseIntOfDigits(n: nat, width: nat, radix: nat)
    requires 2 <= radix <= 10 && 0 < width && n < Power(radix, width)
    ensures ParseInt(Digits(n, width, radix), radix) == Some(n)
  {
    var digits := Digits(n, width, radix);
    assert digits + [] == digits;
    LeadingDigitsOf(digits, [], radix);
    DigitsHaveValue(n, width, radix);
  }

  const MINUS: Byte := 0x2D
  const PLUS: Byte := 0x2B

  /** No number starts the text, or a negative one. */
  predicate NoSize(text: Bytes, radix: nat) {
    if text != [] && text[0] == MINUS then
      |text| == 1 || !IsDigit(text[1], radix) || ValueOf(LeadingDigits(text[1..], radix), radix) > 0
    else if text != [] && text[0] == PLUS then |text| == 1 || !IsDigit(text[1], radix)
    else text == [] || !IsDigit(text[0], radix)
  }

  lemma {:induction false} LeadingDigitsBounded(text: Bytes, radix: nat)
    ensures |LeadingDigits(text, radix)| <= |text|
    ensures forall i | 0 <= i < |LeadingDigits(text, radix)| :: IsDigit(LeadingDigits(text, radix)[i], radix)
  {
    if text != [] {
      LeadingDigitsBounded(text[1..], radix);
    }
  }

  lemma {:induction false} ValueBounded(digits: Bytes, radix: nat)
    requires radix > 0 && forall i | 0 <= i < |digits| :: IsDigit(digits[i], radix)
    ensures 0 <= ValueOf(digits, radix) < Power(radix, |digits|)
  {
    if digits != [] {
      var n := |digits| - 1;
      ValueBounded(digits[..n], radix);
      AtLeastTimes(radix, Power(radix, n), ValueOf(digits[..n], radix) + 1);
    }
  }

  /** In a header field, which is too short for an unsafe number, a size is any text that starts with a number. */
  lemma IsSizeIff(text: Bytes, radix: nat)
    requires 2 <= radix <= 10 && |text| <= 12
    ensures IsSize(ParseInt(text, radix)) <==> !NoSize(text, radix)
  {
    var signed := text != [] && (text[0] == MINUS || text[0] == PLUS);
    var digits := LeadingDigits(if signed then text[1..] else text, radix);
    LeadingDigitsBounded(if signed then text[1..] else text, radix);
    ValueBounded(digits, radix);
    PowerGrows(radix, |digits|, 12);
    PowerOfTen(radix, 12);
    assert Power(10, 12) == 1_000_000_000_000;
  }

  lemma {:induction false} PowerOfTen(radix: nat, width: nat)
    requires 0 < radix <= 10
    ensures Power(radix, width) <= Power(10, width)
  {
    if width > 0 {
      PowerOfTen(radix, width - 1);
      AtLeastTimes(radix, Power(10, width - 1), Power(radix, width - 1));
      AtLeastTimes(Power(10, width - 1), 10, radix);
    }
  }

  lemma {:induction false} UpToNulBounded(s: Bytes)
    ensures |UpToNul(s)| <= |s|
  {
    if s != [] {
      UpToNulBounded(s[1..]);
    }
  }

  lemma {:induction false} TrimLeftBounded(s: Bytes)
    ensures |TrimLeft(s)| <= |s|
  {
    if s != [] {
      TrimLeftBounded(s[1..]);
    }
  }

  lemma {:induction false} TrimRightBounded(s: Bytes)
    ensures |TrimRight(s)| <= |s|
  {
    if s != [] {
      TrimRightBounded(s[..|s| - 1]);
    }
  }

  lemma FieldBounded(bytes: Bytes, start: nat, length: nat)
    ensures |Trim(Field(bytes, start, length))| <= length
  {
    UpToNulBounded(Sub(bytes, start, length));
    TrimLeftBounded(Field(bytes, start, length));
    TrimRightBounded(TrimLeft(Field(bytes, start, length)));
  }

  // ----- text

  lemma {:induction false} PowerGrows(radix: nat, a: nat, b: nat)
    requires radix > 0 && a <= b
    ensures 0 < Power(radix, a) <= Power(radix, b)
    decreases b
  {
    if a < b {
      PowerGrows(radix, a, b - 1);
      AtLeastTimes(Power(radix, b - 1), radix, 1);
    } else if a > 0 {
      PowerGrows(radix, a - 1, a - 1);
      AtLeastTimes(Power(radix, a - 1), radix, 1);
    }
  }

  lemma {:induction false} UpToNulStops(s: Bytes, rest: Bytes)
    requires NUL !in s
    requires rest == [] || rest[0] == NUL
    ensures UpToNul(s + rest) == s
  {
    if s == [] {
      assert s + rest == rest;
    } else {
      assert (s + rest)[1..] == s[1..] + rest;
      UpToNulStops(s[1..], rest);
    }
  }

  lemma {:induction false} UpToNulPasses(s: Bytes, rest: Bytes)
    requires NUL !in s
    ensures UpToNul(s + rest) == s + UpToNul(rest)
  {
    if s == [] {
      assert s + rest == rest;
    } else {
      assert (s + rest)[1..] == s[1..] + rest;
      UpToNulPasses(s[1..], rest);
    }
  }

  predicate IsBlank(b: Byte) { b == SPACE || b == NUL }

  lemma {:induction false} BlankUpToNul(s: Bytes)
    requires forall i | 0 <= i < |s| :: IsBlank(s[i])
    ensures AllSpaces(UpToNul(s))
  {
    if s != [] {
      BlankUpToNul(s[1..]);
    }
  }

  predicate AllSpaces(s: Bytes) { forall i | 0 <= i < |s| :: IsSpace(s[i]) }

  /** Neither end is white space. */
  predicate Trimmed(s: Bytes) {
    s == [] || (!IsSpace(s[0]) && !IsSpace(s[|s| - 1]))
  }

  lemma {:induction false} TrimRightDrops(s: Bytes, spaces: Bytes)
    requires AllSpaces(spaces) && (s == [] || !IsSpace(s[|s| - 1]))
    ensures TrimRight(s + spaces) == s
  {
    if spaces == [] {
      assert s + spaces == s;
    } else {
      var n := |spaces| - 1;
      assert (s + spaces)[..|s + spaces| - 1] == s + spaces[..n];
      TrimRightDrops(s, spaces[..n]);
    }
  }

  lemma {:induction false} TrimLeftDrops(spaces: Bytes, rest: Bytes)
    requires AllSpaces(spaces) && (rest == [] || !IsSpace(rest[0]))
    ensures TrimLeft(spaces + rest) == rest
  {
    if spaces == [] {
      assert spaces + rest == rest;
    } else {
      assert (spaces + rest)[1..] == spaces[1..] + rest;
      TrimLeftDrops(spaces[1..], rest);
    }
  }

  lemma TrimDropsPadding(before: Bytes, s: Bytes, after: Bytes)
    requires Trimmed(s) && AllSpaces(before) && AllSpaces(after)
    ensures Trim(before + s + after) == s
  {
    if s == [] {
      var spaces := before + after;
      assert before + s + after == spaces == spaces + [];
      TrimLeftDrops(spaces, []);
    } else {
      assert before + s + after == before + (s + after);
      TrimLeftDrops(before, s + after);
      TrimRightDrops(s, after);
    }
  }

  /** `count` copies of one byte. */
  function Fill(count: nat, b: Byte): (s: Bytes)
    ensures |s| == count && forall i | 0 <= i < count :: s[i] == b
  {
    seq(count, i => b)
  }

  /** A field of `width` bytes holding `s` and then NULs. */
  function NulPadded(s: Bytes, width: nat): (r: Bytes)
    requires |s| <= width
    ensures |r| == width
  {
    s + Fill(width - |s|, NUL)
  }

  lemma NulPaddedReads(s: Bytes, width: nat)
    requires |s| <= width && NUL !in s
    ensures UpToNul(NulPadded(s, width)) == s
  {
    UpToNulStops(s, Fill(width - |s|, NUL));
  }
}
