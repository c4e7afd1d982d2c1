/**
 * The duration commit of the editing mode: the edit buffer is parsed the way
 * Rust's `str::parse::<u32>` parses decimal text, and any parse error is
 * replaced by 60 seconds.
 */
module DurationParse {
  import opened Wrappers

  /** The largest value of a `u32`. */
  const U32Max: nat := 4294967295

  /** The number of seconds committed when the buffer does not parse. */
  const FallbackSeconds: nat := 60

  predicate IsDigit(c: char) {
    '0' <= c <= '9'
  }

  function DigitValue(c: char): (d: nat)
    requires IsDigit(c)
    ensures d < 10
  {
    (c as int) - ('0' as int)
  }

  predicate AllDigits(s: string) {
    forall i :: 0 <= i < |s| ==> IsDigit(s[i])
  }

  /** The positional value of a digit string, most significant digit first. */
  function Value(s: string): nat
    requires AllDigits(s)
  {
    if s == [] then 0 else 10 * Value(s[..|s| - 1]) + DigitValue(s[|s| - 1])
  }

  /** The digit part of a literal: one leading '+' is dropped, a '-' is kept (and then rejected). */
  function Digits(s: string): string {
    if |s| > 0 && s[0] == '+' then s[1..] else s
  }

  /**
   * The texts that a `u32` parse accepts: an optional single '+', then at
   * least one ASCII digit and nothing else, with a value that fits in 32 bits.
   * Leading zeros are allowed.
   */
  predicate IsU32Literal(s: string)
    ensures IsU32Literal(s) ==> |s| > 0 && (s[0] == '+' || IsDigit(s[0]))
  {
    var d := Digits(s);
    |d| > 0 && AllDigits(d) && Value(d) <= U32Max
  }

  /**
   * The digit loop of the `u32` parse: left to right, multiply by ten and add
   * the digit, failing on a non-digit or as soon as the running value
   * leaves the 32-bit range (the checked multiplication and addition).
   */
  function Accumulate(acc: nat, s: string): (r: Option<nat>)
    requires acc <= U32Max
    ensures r.Some? ==> acc <= r.value <= U32Max
    ensures r.Some? ==> AllDigits(s)
    decreases |s|
  {
    if s == [] then Some(acc)
    else if !IsDigit(s[0]) then None
    else if acc * 10 + DigitValue(s[0]) > U32Max then None
    else Accumulate(acc * 10 + DigitValue(s[0]), s[1..])
  }

  /** Extending a digit string on the right never makes its value smaller. */
  lemma {:induction false} ValuePrefixMonotone(q: string, t: string)
    requires AllDigits(q + t)
    ensures AllDigits(q) && Value(q) <= Value(q + t)
    decreases |t|
  {
    assert forall i :: 0 <= i < |q| ==> (q + t)[i] == q[i];
    if t != [] {
      var u := q + t;
      var t' := t[..|t| - 1];
      assert u[..|u| - 1] == q + t';
      ValuePrefixMonotone(q, t');
    } else {
      assert q + t == q;
    }
  }

  /**
   * The digit loop started from the value of an already consumed prefix p
   * yields the value of p + s exactly when p + s is all digits and fits in
   * 32 bits: failing early on overflow loses nothing.
   */
  lemma {:induction false} AccumulateCorrect(p: string, s: string)
    requires AllDigits(p) && Value(p) <= U32Max
    ensures Accumulate(Value(p), s) ==
              if AllDigits(p + s) && Value(p + s) <= U32Max then Some(Value(p + s)) else None
    decreases |s|
  {
    if s == [] {
      assert p + s == p;
    } else if !IsDigit(s[0]) {
      assert (p + s)[|p|] == s[0];
    } else {
      var p' := p + [s[0]];
      assert p'[..|p'| - 1] == p;
      assert AllDigits(p');
      assert Value(p') == Value(p) * 10 + DigitValue(s[0]);
      assert p' + s[1..] == p + s;
      if Value(p') > U32Max {
        if AllDigits(p + s) {
          ValuePrefixMonotone(p', s[1..]);
        }
      } else {
        AccumulateCorrect(p', s[1..]);
      }
    }
  }

  /**
   * Rust's `u32` parse of decimal text: an empty text and a lone sign are
   * errors, one leading '+' is skipped, then the digit loop runs.
   */
  function ParseU32(s: string): (r: Option<nat>)
    ensures IsU32Literal(s) ==> r == Some(Value(Digits(s)))
    ensures !IsU32Literal(s) ==> r == None
  {
    if s == [] then None
    else if (s[0] == '+' || s[0] == '-') && |s| == 1 then None
    else
      var digits := if s[0] == '+' then s[1..] else s;
      assert [] + digits == digits;
      AccumulateCorrect([], digits);
      Accumulate(0, digits)
  }

  /** The value committed by Enter: the parsed value, or 60 on any parse error. */
  function ParseU32OrDefault(s: string): (seconds: nat)
    ensures seconds <= U32Max
    ensures IsU32Literal(s) ==> seconds == Value(Digits(s))
    ensures !IsU32Literal(s) ==> seconds == FallbackSeconds
  {
    match ParseU32(s)
    case Some(v) => v
    case None => FallbackSeconds
  }

  function DigitChar(d: nat): (c: char)
    requires d < 10
    ensures IsDigit(c) && DigitValue(c) == d
  {
    (('0' as int) + d) as char
  }

  /** The canonical decimal text of n (Rust's `to_string`): no sign, no leading zero. */
  function Decimal(n: nat): (s: string)
    ensures |s| > 0 && AllDigits(s) && Value(s) == n
    ensures s[0] == '0' <==> n == 0
    ensures n == 0 ==> s == "0"
  {
    if n < 10 then [DigitChar(n)]
    else
      var s := Decimal(n / 10) + [DigitChar(n % 10)];
      assert s[..|s| - 1] == Decimal(n / 10);
      s
  }

  /** Round trip one way: the decimal text of every u32 value parses back to it. */
  lemma ParseDecimal(n: nat)
    requires n <= U32Max
    ensures ParseU32(Decimal(n)) == Some(n)
    ensures ParseU32("+" + Decimal(n)) == Some(n)
    ensures ParseU32OrDefault(Decimal(n)) == n
  {
    var d := Decimal(n);
    assert IsDigit(d[0]);
    assert ("+" + d)[1..] == d;
  }

  /** A leading zero does not change the value of a digit string. */
  lemma {:induction false} ValueDropLeadingZero(s: string)
    requires |s| > 0 && AllDigits(s) && s[0] == '0'
    ensures AllDigits(s[1..]) && Value(s[1..]) == Value(s)
    decreases |s|
  {
    assert forall i :: 0 <= i < |s| - 1 ==> s[1..][i] == s[i + 1];
    if |s| == 1 {
      assert s[..0] == [];
    } else {
      var init := s[..|s| - 1];
      assert init[0] == '0';
      assert init[1..] == s[1..][..|s[1..]| - 1];
      ValueDropLeadingZero(init);
    }
  }

  /** The text left when leading zeros are stripped, keeping at least one digit. */
  function StripLeadingZeros(s: string): (t: string)
    decreases |s|
  {
    if |s| > 1 && s[0] == '0' then StripLeadingZeros(s[1..]) else s
  }

  lemma {:induction false} StripLeadingZerosValue(s: string)
    requires |s| > 0 && AllDigits(s)
    ensures var t := StripLeadingZeros(s);
      |t| > 0 && AllDigits(t) && Value(t) == Value(s) && (t[0] == '0' ==> |t| == 1)
    decreases |s|
  {
    if |s| > 1 && s[0] == '0' {
      ValueDropLeadingZero(s);
      StripLeadingZerosValue(s[1..]);
    }
  }

  /** A digit string whose first digit is not zero has a positive value. */
  lemma PositiveLead(s: string)
    requires |s| > 0 && AllDigits(s) && s[0] != '0'
    ensures Value(s) > 0
  {
    assert [s[0]] + s[1..] == s;
    assert [s[0]][..0] == [];
    ValuePrefixMonotone([s[0]], s[1..]);
  }

  /** A digit string without a leading zero (or the single digit "0") is the decimal text of its value. */
  lemma {:induction false} CanonicalIsDecimal(s: string)
    requires |s| > 0 && AllDigits(s) && (s[0] == '0' ==> |s| == 1)
    ensures Decimal(Value(s)) == s
    decreases |s|
  {
    if |s| > 1 {
      var init := s[..|s| - 1];
      assert init[0] == s[0];
      PositiveLead(init);
      CanonicalIsDecimal(init);
      var v := Value(s);
      assert v == 10 * Value(init) + DigitValue(s[|s| - 1]);
      assert v / 10 == Value(init) && v % 10 == DigitValue(s[|s| - 1]);
      assert DigitChar(v % 10) == s[|s| - 1];
      assert s == init + [s[|s| - 1]];
    } else {
      assert s[..0] == [];
      assert DigitChar(DigitValue(s[0])) == s[0];
    }
  }

  /**
   * Round trip the other way: a text the parse accepts is, after its '+' and
   * its leading zeros are dropped, the decimal text of the parsed value.
   */
  lemma DecimalOfParse(s: string)
    requires ParseU32(s).Some?
    ensures Decimal(ParseU32(s).value) == StripLeadingZeros(Digits(s))
  {
    StripLeadingZerosValue(Digits(s));
    CanonicalIsDecimal(StripLeadingZeros(Digits(s)));
  }

  /** An empty buffer commits the fallback. */
  lemma EmptyFallsBack()
    ensures ParseU32OrDefault("") == FallbackSeconds
  {
  }

  /** A buffer holding a character other than a digit (a leading '+' aside) commits the fallback. */
  lemma NonDigitFallsBack(s: string, i: nat)
    requires i < |s| && !IsDigit(s[i]) && !(i == 0 && s[i] == '+')
    ensures ParseU32(s) == None
    ensures ParseU32OrDefault(s) == FallbackSeconds
  {
    if |s| > 0 && s[0] == '+' {
      assert Digits(s)[i - 1] == s[i];
    } else {
      assert Digits(s)[i] == s[i];
    }
  }

  /** Negative numbers, blanks anywhere (leading, trailing or inside) and a second '+' all commit the fallback. */
  lemma MalformedFallsBack(s: string, i: nat)
    requires i < |s|
    requires s[i] == '-' || s[i] == ' ' || s[i] == '\t' || s[i] == '\n' || s[i] == '\r'
             || (i > 0 && s[i] == '+')
    ensures ParseU32OrDefault(s) == FallbackSeconds
  {
    NonDigitFallsBack(s, i);
  }

  /** Digits whose value exceeds the u32 range commit the fallback, not a truncated value. */
  lemma OverflowFallsBack(s: string)
    requires |s| > 0 && AllDigits(s) && Value(s) > U32Max
    ensures ParseU32OrDefault(s) == FallbackSeconds
  {
    assert IsDigit(s[0]);
  }

  /** The decimal text of the u32 maximum without its last digit. */
  lemma DecimalOfMaxPrefix()
    ensures Decimal(429496729) == "429496729"
  {
    assert Decimal(4) == "4";
    assert Decimal(42) == "42";
    assert Decimal(429) == "429";
    assert Decimal(4294) == "4294";
    assert Decimal(42949) == "42949";
    assert Decimal(429496) == "429496";
    assert Decimal(4294967) == "4294967";
    assert Decimal(42949672) == "42949672";
  }

  /** The largest u32, 4294967295, is committed as it is. */
  lemma LargestAccepted()
    ensures ParseU32OrDefault("4294967295") == 4294967295
  {
    DecimalOfMaxPrefix();
    assert Decimal(4294967295) == "4294967295";
    ParseDecimal(4294967295);
  }

  /** One more, 4294967296, overflows and commits the fallback. */
  lemma FirstOverflowFallsBack()
    ensures ParseU32OrDefault("4294967296") == FallbackSeconds
  {
    DecimalOfMaxPrefix();
    assert Decimal(4294967296) == "4294967296";
    OverflowFallsBack("4294967296");
  }
}
