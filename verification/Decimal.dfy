/**
  Decimal text as the ownership scripts and the Go reply decoder handle it.

  The Lua scripts never turn a generation into a Lua number: they compare canonical
  decimal strings by length and then lexicographically. The Go side parses the reply
  with a 63-bit limit and insists that formatting the number gives the text back.
*/
module Decimal {
  import opened Prelude

  const MAX_INT64: nat := 0x7fff_ffff_ffff_ffff
  const MAX_TEXT: string := "9223372036854775807"

  predicate IsDigit(c: char) {
    '0' <= c <= '9'
  }

  predicate Digits(s: string) {
    forall i | 0 <= i < |s| :: IsDigit(s[i])
  }

  function DigitValue(c: char): (d: nat)
    requires IsDigit(c)
    ensures d < 10
  {
    c as int - '0' as int
  }

  /** The number a digit string denotes. */
  function Value(s: string): nat
    requires Digits(s)
  {
    if s == "" then 0 else 10 * Value(s[..|s| - 1]) + DigitValue(s[|s| - 1])
  }

  predicate Canonical(s: string) {
    s != "" && Digits(s) && (|s| == 1 || s[0] != '0')
  }

  /** Lua's order on strings. */
  predicate LexLess(a: string, b: string) {
    b != "" && (a == "" || a[0] < b[0] || (a[0] == b[0] && LexLess(a[1..], b[1..])))
  }

  /** The script's `compare`: length first, then lexicographic. */
  function Compare(a: string, b: string): int {
    if |a| != |b| then (if |a| < |b| then -1 else 1)
    else if a == b then 0
    else if LexLess(a, b) then -1
    else 1
  }

  /** The script's `valid`. */
  predicate Valid(v: string) {
    && v != "" && Digits(v)
    && (|v| == 1 || v[0] != '0')
    && (|v| < |MAX_TEXT| || (|v| == |MAX_TEXT| && (v == MAX_TEXT || LexLess(v, MAX_TEXT))))
  }

  /** strconv.FormatUint in base 10. */
  function FormatUint(n: nat): (s: string)
    ensures Canonical(s) && Value(s) == n
  {
    var digit := ['0' + (n % 10) as char];
    if n < 10 then
      assert digit[..0] == "";
      digit
    else
      var s := FormatUint(n / 10) + digit;
      assert s[..|s| - 1] == FormatUint(n / 10);
      s
  }

  /** strconv.ParseUint with base 10 and bit size 63. */
  function ParseUint63(s: string): Option<nat> {
    if s != "" && Digits(s) && Value(s) <= MAX_INT64 then Some(Value(s)) else None
  }

  function Pow10(k: nat): (p: nat)
    ensures p > 0
  {
    if k == 0 then 1 else 10 * Pow10(k - 1)
  }

  lemma {:induction false} ValueBound(s: string)
    requires Digits(s)
    ensures Value(s) < Pow10(|s|)
  {
    if s != "" {
      ValueBound(s[..|s| - 1]);
    }
  }

  lemma {:induction false} ValueHead(s: string)
    requires Digits(s) && s != ""
    ensures Value(s) == DigitValue(s[0]) * Pow10(|s| - 1) + Value(s[1..])
  {
    if |s| == 1 {
      assert s[..0] == "" == s[1..];
    } else {
      var body := s[..|s| - 1];
      ValueHead(body);
      assert body[1..] == s[1..][..|s| - 2];
      assert DigitValue(s[0]) * Pow10(|s| - 1) == 10 * (DigitValue(s[0]) * Pow10(|s| - 2));
    }
  }

  lemma {:induction false} Pow10Monotone(j: nat, k: nat)
    requires j <= k
    ensures Pow10(j) <= Pow10(k)
  {
    if j < k {
      Pow10Monotone(j, k - 1);
    }
  }

  lemma {:induction false} NextMultiple(x: nat, y: nat, p: nat)
    requires x < y
    ensures x * p + p <= y * p
  {
    if x + 1 < y {
      NextMultiple(x, y - 1, p);
    }
    assert y * p == (y - 1) * p + p;
  }

  lemma {:induction false} LexIsNumeric(a: string, b: string)
    requires Digits(a) && Digits(b) && |a| == |b|
    ensures LexLess(a, b) <==> Value(a) < Value(b)
    ensures a == b <==> Value(a) == Value(b)
  {
    if a != "" {
      ValueHead(a);
      ValueHead(b);
      LexIsNumeric(a[1..], b[1..]);
      ValueBound(a[1..]);
      ValueBound(b[1..]);
      var p := Pow10(|a| - 1);
      var x, y := DigitValue(a[0]), DigitValue(b[0]);
      if x < y {
        NextMultiple(x, y, p);
      } else if y < x {
        NextMultiple(y, x, p);
      } else {
        assert a == [a[0]] + a[1..] && b == [b[0]] + b[1..];
      }
    }
  }

  lemma LongerIsLarger(a: string, b: string)
    requires Canonical(a) && Canonical(b) && |a| < |b|
    ensures Value(a) < Value(b)
  {
    ValueBound(a);
    ValueHead(b);
    Pow10Monotone(|a|, |b| - 1);
    NextMultiple(0, DigitValue(b[0]), Pow10(|b| - 1));
  }

  /** On canonical text of any length the string comparison is the numeric one. */
  lemma CompareIsNumeric(a: string, b: string)
    requires Canonical(a) && Canonical(b)
    ensures Compare(a, b) < 0 <==> Value(a) < Value(b)
    ensures Compare(a, b) == 0 <==> Value(a) == Value(b)
    ensures Compare(a, b) > 0 <==> Value(a) > Value(b)
    ensures a == b <==> Value(a) == Value(b)
  {
    if |a| < |b| {
      LongerIsLarger(a, b);
    } else if |b| < |a| {
      LongerIsLarger(b, a);
    } else {
      LexIsNumeric(a, b);
    }
  }

  lemma Appended(s: string, digit: string, whole: string)
    requires Digits(s) && Digits(digit) && |digit| == 1 && whole == s + digit
    ensures Digits(whole) && Value(whole) == 10 * Value(s) + DigitValue(digit[0])
  {
    assert whole[..|whole| - 1] == s;
  }

  lemma MaxTextHigh()
    ensures Digits("9223372036") && Value("9223372036") == 9223372036
  {
    Appended("", "9", "9");
    Appended("9", "2", "92");
    Appended("92", "2", "922");
    Appended("922", "3", "9223");
    Appended("9223", "3", "92233");
    Appended("92233", "7", "922337");
    Appended("922337", "2", "9223372");
    Appended("9223372", "0", "92233720");
    Appended("92233720", "3", "922337203");
    Appended("922337203", "6", "9223372036");
  }

  lemma MaxTextValue()
    ensures Canonical(MAX_TEXT) && Value(MAX_TEXT) == MAX_INT64
  {
    MaxTextHigh();
    Appended("9223372036", "8", "92233720368");
    Appended("92233720368", "5", "922337203685");
    Appended("922337203685", "4", "9223372036854");
    Appended("9223372036854", "7", "92233720368547");
    Appended("92233720368547", "7", "922337203685477");
    Appended("922337203685477", "5", "9223372036854775");
    Appended("9223372036854775", "8", "92233720368547758");
    Appended("92233720368547758", "0", "922337203685477580");
    Appended("922337203685477580", "7", "9223372036854775807");
  }

  /** The script's `valid` is exactly "canonical and at most MaxInt64". */
  lemma ValidIsBounded(v: string)
    ensures Valid(v) <==> Canonical(v) && Value(v) <= MAX_INT64
  {
    MaxTextValue();
    if Canonical(v) {
      CompareIsNumeric(v, MAX_TEXT);
    }
  }

  datatype ReplyError = InvalidGenerationRange

  datatype RangeReply = RangeReply(generation: nat, needRange: bool)

  /** `decodeRangeReply`. */
  function DecodeRangeReply(values: seq<string>): Result<RangeReply, ReplyError> {
    if |values| != 2 || (values[0] != "ok" && values[0] != "range") then Err(InvalidGenerationRange)
    else DecodeGeneration(values[1], values[0] == "range")
  }

  function DecodeGeneration(text: string, needRange: bool): Result<RangeReply, ReplyError> {
    match ParseUint63(text)
    case None => Err(InvalidGenerationRange)
    case Some(value) =>
      if FormatUint(value) != text || (!needRange && value == 0) then Err(InvalidGenerationRange)
      else Ok(RangeReply(value, needRange))
  }

  /** Canonical text is the only text that formatting its own value gives back. */
  lemma FormatOfValue(s: string)
    requires Digits(s)
    ensures FormatUint(Value(s)) == s <==> Canonical(s)
  {
    if Canonical(s) {
      CompareIsNumeric(FormatUint(Value(s)), s);
    }
  }

  lemma DecodeMeaning(v: string, needRange: bool)
    ensures DecodeGeneration(v, needRange).Ok? <==> Valid(v) && (needRange || v != "0")
    ensures DecodeGeneration(v, needRange).Ok? ==> DecodeGeneration(v, needRange).value == RangeReply(Value(v), needRange)
  {
    ValidIsBounded(v);
    if Digits(v) {
      FormatOfValue(v);
      if Canonical(v) {
        CompareIsNumeric(v, "0");
        assert Value("0") == 0;
      }
    }
  }

  /**
    The Lua test and the Go decoder accept the same replies: every text `valid`
    accepts as a "range" reply, and nothing else, with the value it denotes; an "ok"
    reply must in addition not be zero.
  */
  lemma DecoderAcceptsExactlyValid(tag: string, v: string)
    ensures DecodeRangeReply([tag, v]).Ok? <==> Valid(v) && (tag == "range" || (tag == "ok" && v != "0"))
    ensures DecodeRangeReply([tag, v]).Ok? ==> DecodeRangeReply([tag, v]).value == RangeReply(Value(v), tag == "range")
  {
    DecodeMeaning(v, true);
    DecodeMeaning(v, false);
  }
}
