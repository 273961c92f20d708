/** Base-32 integers written with the digits 0-9 and a-v. */
module DoubleHex {
  import opened Bits
  import opened Division

  const DHEX_DIGITS := "0123456789abcdefghijklmnopqrstuv"

  ghost predicate IsDigit(c: char) {
    '0' <= c <= '9' || 'a' <= c <= 'v'
  }

  ghost predicate IsDigitString(s: string) {
    forall i :: 0 <= i < |s| ==> IsDigit(s[i])
  }

  /** What the decoder takes a character to be worth; out of 0..31 for characters that are no digit. */
  function CharValue(c: char): int {
    c as int - (if c < 'a' then 48 else 87)
  }

  function Pow32(k: nat): (p: nat)
    ensures p > 0
  {
    if k == 0 then 1 else 32 * Pow32(k - 1)
  }

  /** Digits of a non-negative integer, most significant first; the empty string for zero. */
  function Encode(n: nat): string {
    if n == 0 then "" else Encode(n / 32) + [DHEX_DIGITS[n % 32]]
  }

  /** Positional value of a digit string, written with powers of 32. */
  function Positional(s: string): int {
    if s == "" then 0 else CharValue(s[0]) * Pow32(|s| - 1) + Positional(s[1..])
  }

  /** The decoder's left fold of shift and or. */
  function ShiftOrFold(s: string): int {
    if s == "" then 0 else BitOr(32 * ShiftOrFold(s[..|s| - 1]), CharValue(s[|s| - 1]))
  }

  function StripZeros(s: string): string {
    if s != "" && s[0] == '0' then StripZeros(s[1..]) else s
  }

  lemma DigitChars(d: nat)
    requires d < 32
    ensures IsDigit(DHEX_DIGITS[d]) && CharValue(DHEX_DIGITS[d]) == d
  {
    assert forall k: nat :: k < 32 ==>
      DHEX_DIGITS[k] == if k < 10 then '0' + k as char else 'a' + (k - 10) as char;
  }

  lemma DigitOf(c: char)
    requires IsDigit(c)
    ensures 0 <= CharValue(c) < 32 && DHEX_DIGITS[CharValue(c)] == c
  {
    var v := CharValue(c);
    DigitChars(v);
    assert CharValue(DHEX_DIGITS[v]) == CharValue(c);
  }

  /** Encoding converts digit by digit: dividing, and shifting right, by 32 agree on non-negative values. */
  method IntToDhex(value: int) returns (dhex: string)
    ensures dhex == Encode(if value > 0 then value else 0)
  {
    var valueBig := value;
    dhex := "";
    ghost var start := if value > 0 then value else 0;
    while valueBig > 0
      invariant valueBig > 0 ==> Encode(valueBig) + dhex == Encode(start)
      invariant valueBig <= 0 ==> dhex == Encode(start)
      decreases valueBig
    {
      assert Encode(valueBig) == Encode(valueBig / 32) + [DHEX_DIGITS[valueBig % 32]];
      assert Encode(valueBig / 32) + ([DHEX_DIGITS[valueBig % 32]] + dhex)
          == Encode(valueBig / 32) + [DHEX_DIGITS[valueBig % 32]] + dhex;
      dhex := [DHEX_DIGITS[valueBig % 32]] + dhex;
      valueBig := valueBig / 32;
    }
  }

  method DhexToInt(dhex: string) returns (value: int)
    ensures value == ShiftOrFold(dhex)
    ensures IsDigitString(dhex) ==> value == Positional(dhex)
  {
    value := 0;
    for i := 0 to |dhex|
      invariant value == ShiftOrFold(dhex[..i])
    {
      assert dhex[..i + 1][..i] == dhex[..i];
      value := BitOr(32 * value, CharValue(dhex[i]));
    }
    assert dhex[..|dhex|] == dhex;
    if IsDigitString(dhex) { FoldIsPositional(dhex); }
  }

  lemma {:induction false} PositionalSnoc(s: string, c: char)
    ensures Positional(s + [c]) == 32 * Positional(s) + CharValue(c)
  {
    if s == "" {
      assert s + [c] == [c];
    } else {
      assert (s + [c])[1..] == s[1..] + [c];
      PositionalSnoc(s[1..], c);
      assert CharValue(s[0]) * (32 * Pow32(|s| - 1)) == 32 * (CharValue(s[0]) * Pow32(|s| - 1));
    }
  }

  lemma FirstDigitBound(d: int, p: int, rest: int)
    requires 0 <= d < 32 && 0 <= rest < p
    ensures 0 <= d * p + rest < 32 * p
  {
    assert 0 <= d * p <= 31 * p;
  }

  lemma {:induction false} PositionalBound(s: string)
    requires IsDigitString(s)
    ensures 0 <= Positional(s) < Pow32(|s|)
  {
    if s != "" {
      DigitOf(s[0]);
      PositionalBound(s[1..]);
      FirstDigitBound(CharValue(s[0]), Pow32(|s| - 1), Positional(s[1..]));
    }
  }

  /** On digit strings the shift-and-or fold is the positional value. */
  lemma {:induction false} FoldIsPositional(s: string)
    requires IsDigitString(s)
    ensures ShiftOrFold(s) == Positional(s) >= 0
  {
    PositionalBound(s);
    if s != "" {
      var front, last := s[..|s| - 1], s[|s| - 1];
      assert s == front + [last];
      FoldIsPositional(front);
      DigitOf(last);
      PositionalSnoc(front, last);
      OrShiftedDigit(ShiftOrFold(front), CharValue(last));
    }
  }

  /** The encoder writes digits only and never a leading zero. */
  lemma {:induction false} EncodeCanonical(n: nat)
    ensures IsDigitString(Encode(n))
    ensures Encode(n) != "" ==> Encode(n)[0] != '0'
    ensures Encode(n) == "" <==> n == 0
  {
    if n != 0 {
      EncodeCanonical(n / 32);
      DigitChars(n % 32);
      if n < 32 {
        assert Encode(n) == [DHEX_DIGITS[n]];
        assert CharValue('0') == 0;
      }
    }
  }

  /** Decoding undoes encoding. */
  lemma {:induction false} DecodeEncode(n: nat)
    ensures ShiftOrFold(Encode(n)) == n
  {
    EncodeCanonical(n);
    FoldIsPositional(Encode(n));
    if n != 0 {
      DecodeEncode(n / 32);
      EncodeCanonical(n / 32);
      FoldIsPositional(Encode(n / 32));
      DigitChars(n % 32);
      PositionalSnoc(Encode(n / 32), DHEX_DIGITS[n % 32]);
    }
  }

  lemma {:induction false} StripKeepsValue(s: string)
    requires IsDigitString(s)
    ensures IsDigitString(StripZeros(s)) && Positional(StripZeros(s)) == Positional(s)
    ensures StripZeros(s) != "" ==> StripZeros(s)[0] != '0'
  {
    if s != "" && s[0] == '0' { StripKeepsValue(s[1..]); }
  }

  /** A canonical digit string is the encoding of its value. */
  lemma {:induction false} EncodeOfCanonical(s: string)
    requires IsDigitString(s) && (s != "" ==> s[0] != '0')
    ensures Positional(s) >= 0 && Encode(Positional(s)) == s
  {
    PositionalBound(s);
    if s != "" {
      var front, last := s[..|s| - 1], s[|s| - 1];
      assert s == front + [last];
      EncodeOfCanonical(front);
      PositionalSnoc(front, last);
      DigitOf(last);
      assert Positional(s) / 32 == Positional(front) && Positional(s) % 32 == CharValue(last);
      if front == "" { DigitOf('0'); assert CharValue(last) != 0 by { assert DHEX_DIGITS[0] == '0'; } }
      else { EncodeCanonical(Positional(front)); }
    }
  }

  /** Encoding undoes decoding up to leading zeros, for every digit string. */
  lemma {:induction false} EncodeDecode(s: string)
    requires IsDigitString(s)
    ensures ShiftOrFold(s) >= 0 && Encode(ShiftOrFold(s)) == StripZeros(s)
  {
    FoldIsPositional(s);
    StripKeepsValue(s);
    EncodeOfCanonical(StripZeros(s));
  }

  /** How many digits a value takes. */
  lemma {:induction false} EncodeLength(n: nat, k: nat)
    ensures |Encode(n)| <= k <==> n < Pow32(k)
  {
    if n == 0 {
    } else if k == 0 {
      EncodeCanonical(n);
    } else {
      EncodeLength(n / 32, k - 1);
      var p := Pow32(k - 1);
      assert n / 32 < p <==> n < 32 * p;
    }
  }

  lemma QuotientTwice(n: nat, p: nat)
    requires p > 0
    ensures n / (32 * p) == n / 32 / p
  {
    var q, r := n / 32 / p, n / 32 % p;
    assert n / 32 == p * q + r;
    assert n == 32 * p * q + (32 * r + n % 32) by { assert 32 * (p * q) == 32 * p * q; }
    DivUnique(n, 32 * p, q, 32 * r + n % 32);
  }

  /** The k-th digit from the right is the k-th base-32 digit of the value: 0-9 up to nine, then a-v. */
  lemma {:induction false} DigitsAre(n: nat, k: nat)
    requires k < |Encode(n)|
    ensures var d, digit := n / Pow32(k) % 32, Encode(n)[|Encode(n)| - 1 - k];
      digit as int == if d < 10 then '0' as int + d else 'a' as int + d - 10
  {
    if k == 0 {
      DigitChars(n % 32);
    } else {
      DigitsAre(n / 32, k - 1);
      QuotientTwice(n, Pow32(k - 1));
    }
  }

  /** Leading zeros, as padding adds them, do not change the value. */
  lemma {:induction false} PaddingKeepsValue(zeros: string, s: string)
    requires forall i :: 0 <= i < |zeros| ==> zeros[i] == '0'
    ensures Positional(zeros + s) == Positional(s)
  {
    if zeros == "" {
      assert zeros + s == s;
    } else {
      assert (zeros + s)[1..] == zeros[1..] + s;
      PaddingKeepsValue(zeros[1..], s);
    }
  }
}
