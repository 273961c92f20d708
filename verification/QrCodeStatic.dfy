/** The fast-format transaction id of a static QR code: flags, due date, value, random letters, check letter. */
module QrCodeStatic {
  import opened Bits
  import opened DoubleHex
  import opened Wrappers

  const WITH_VALUE := 1
  const DUE_DATE := 2
  const MANY_PAID_TIMES := 4
  const PREFIX_SIZE := 1
  const DUE_DATE_DHEX_SIZE := 9
  const VALUE_DHEX_SIZE := 8
  const RANDOM_SIZE := 6
  const CHECKSUM_SIZE := 1

  /** Where the amount, the random letters and the check letter start. */
  const VALUE_START := PREFIX_SIZE + DUE_DATE_DHEX_SIZE
  const RANDOM_START := VALUE_START + VALUE_DHEX_SIZE
  const CHECKSUM_START := RANDOM_START + RANDOM_SIZE

  /** What the constructor knows about a code. A date is its fourteen digits YYYYMMDDHHmmss; value 0 means none. */
  datatype QrCode = QrCode(payableManyTimes: bool, expirationDate: Option<nat>, documentValue: int)

  /** The letters and digits drawn at random for the parts that carry no data. */
  datatype Randomness = Randomness(date: string, value: string, tail: string) {
    ghost predicate Valid() {
      && |date| == DUE_DATE_DHEX_SIZE && |value| == VALUE_DHEX_SIZE && |tail| == RANDOM_SIZE
      && IsAlphanumeric(date) && IsAlphanumeric(value) && IsAlphanumeric(tail)
    }
  }

  ghost predicate IsAlphanumeric(s: string) {
    forall i :: 0 <= i < |s| ==> '0' <= s[i] <= '9' || 'A' <= s[i] <= 'Z' || 'a' <= s[i] <= 'z'
  }

  ghost predicate IsAscii(s: string) {
    forall i :: 0 <= i < |s| ==> s[i] as int < 128
  }

  function Substring(s: string, from: nat, to: nat): string
    requires from <= to
  {
    if |s| <= from then "" else if |s| <= to then s[from..] else s[from..to]
  }

  function Zeros(k: nat): (z: string)
    ensures |z| == k && forall i :: 0 <= i < k ==> z[i] == '0'
  {
    seq(k, _ => '0')
  }

  function PadStart(s: string, size: nat): string {
    if |s| < size then Zeros(size - |s|) + s else s
  }

  /** All letters or-ed exclusively into 0xff, from left to right. */
  function Fold(s: string): nat {
    if s == "" then 0xff else BitXor(Fold(s[..|s| - 1]), s[|s| - 1] as int)
  }

  /** First base-32 letter of the folded letters, or nothing. */
  function CheckLetter(s: string): string {
    Substring(Encode(Fold(s)), 0, 1)
  }

  function PrefixFlags(q: QrCode): nat {
    (if q.payableManyTimes then MANY_PAID_TIMES else 0)
    + (if q.expirationDate.Some? then DUE_DATE else 0)
    + (if q.documentValue != 0 then WITH_VALUE else 0)
  }

  function DatePart(q: QrCode, r: Randomness): string {
    if q.expirationDate.Some? then Encode(q.expirationDate.value) else r.date
  }

  function AmountPart(q: QrCode, r: Randomness): string {
    if q.documentValue != 0
    then PadStart(Encode(if q.documentValue > 0 then q.documentValue else 0), VALUE_DHEX_SIZE)
    else r.value
  }

  /** The id without its check letter. */
  function Body(q: QrCode, r: Randomness): string {
    [('Z' as int - PrefixFlags(q)) as char] + DatePart(q, r) + AmountPart(q, r) + r.tail
  }

  function CreateTxId(q: QrCode, r: Randomness): Result<string, string> {
    if !q.payableManyTimes && q.expirationDate.None?
    then Err("Expiration date is required when payableManyTimes is false.")
    else Ok(Body(q, r) + CheckLetter(Body(q, r)))
  }

  predicate IsFastFormat(txId: string) {
    txId != "" && 'Z' as int - 8 < txId[0] as int <= 'Z' as int
  }

  function GetPrefixFlags(txId: string): nat
    requires IsFastFormat(txId)
  {
    'Z' as int - txId[0] as int
  }

  predicate HasFlag(txId: string, mask: nat)
    requires IsFastFormat(txId) && mask > 0
  {
    GetPrefixFlags(txId) / mask % 2 == 1
  }

  predicate IsPayableManyTimes(txId: string)
    requires IsFastFormat(txId)
  {
    HasFlag(txId, MANY_PAID_TIMES)
  }

  predicate HasValue(txId: string)
    requires IsFastFormat(txId)
  {
    HasFlag(txId, WITH_VALUE)
  }

  predicate HasDueDate(txId: string)
    requires IsFastFormat(txId)
  {
    HasFlag(txId, DUE_DATE)
  }

  function GetValue(txId: string): int {
    ShiftOrFold(Substring(txId, VALUE_START, RANDOM_START))
  }

  /** The digits YYYYMMDDHHmmss of the due date. */
  function GetDueDate(txId: string): int {
    ShiftOrFold(Substring(txId, PREFIX_SIZE, VALUE_START))
  }

  predicate CheckTxId(txId: string)
    requires IsFastFormat(txId)
  {
    CheckLetter(Substring(txId, 0, CHECKSUM_START))
      == Substring(txId, CHECKSUM_START, CHECKSUM_START + CHECKSUM_SIZE)
  }

  /** A date whose digits take nine base-32 letters: the years 0110 to 3518. */
  ghost predicate NineLetterDate(d: nat) {
    Pow32(DUE_DATE_DHEX_SIZE - 1) <= d < Pow32(DUE_DATE_DHEX_SIZE)
  }

  lemma {:induction false} FoldBounds(s: string)
    requires IsAscii(s)
    ensures 128 <= Fold(s) < 256
  {
    if s != "" {
      FoldBounds(s[..|s| - 1]);
      var f, c := Fold(s[..|s| - 1]), s[|s| - 1] as int;
      XorHighBits(f, c);
      assert f / 32 in {4, 5, 6, 7} && c / 32 in {0, 1, 2, 3};
      XorSmall(f / 32, c / 32);
    }
  }

  lemma XorSmall(a: nat, b: nat)
    requires 4 <= a < 8 && b < 4
    ensures BitXor(a, b) == 4 + 2 * ((a / 2 + b / 2) % 2) + (a + b) % 2
  {
    XorHalves(a, b);
    XorHalves(a / 2, b / 2);
    assert BitXor(1, 0) == 1;
  }

  /** The check letter of ASCII text is the base-32 digit of the folded letters' top three bits. */
  lemma {:induction false} CheckLetterIsHighDigit(s: string)
    requires IsAscii(s)
    ensures 4 <= Fold(s) / 32 < 8 && CheckLetter(s) == [DHEX_DIGITS[Fold(s) / 32]]
  {
    FoldBounds(s);
    var n := Fold(s);
    assert Encode(n / 32) == [DHEX_DIGITS[n / 32]];
    assert Encode(n) == [DHEX_DIGITS[n / 32], DHEX_DIGITS[n % 32]];
  }

  /** Capital and small letters, and the signs between and after them. */
  predicate InUpperHalf(c: char) {
    '@' <= c
  }

  /** Digits, small letters and the signs about them. */
  predicate InOddBlock(c: char) {
    ' ' <= c < '@' || '`' <= c
  }

  function Count(s: string, p: char -> bool): nat {
    if s == "" then 0 else Count(s[..|s| - 1], p) + (if p(s[|s| - 1]) then 1 else 0)
  }

  lemma BlockOf(c: char)
    requires c as int < 128
    ensures c as int / 32 == (if InUpperHalf(c) then 2 else 0) + (if InOddBlock(c) then 1 else 0)
  {
  }

  /** One letter more, counted in `u` or in `o` or in both or in neither. */
  lemma CountStep(f: nat, u: nat, o: nat, inUpper: bool, inOdd: bool)
    requires f == 4 + 2 * ((1 + u) % 2) + (1 + o) % 2
    ensures var b := (if inUpper then 2 else 0) + (if inOdd then 1 else 0);
      BitXor(f, b) == 4 + 2 * ((1 + u + (if inUpper then 1 else 0)) % 2) + (1 + o + (if inOdd then 1 else 0)) % 2
  {
    hide BitXor;
    XorSmall(f, (if inUpper then 2 else 0) + (if inOdd then 1 else 0));
    assert f / 2 == 2 + (1 + u) % 2;
  }

  lemma {:induction false} FoldCounts(s: string)
    requires IsAscii(s)
    ensures Fold(s) / 32 == 4 + 2 * ((1 + Count(s, InUpperHalf)) % 2) + (1 + Count(s, InOddBlock)) % 2
  {
    hide BitXor, InUpperHalf, InOddBlock;
    if s != "" {
      var front, c := s[..|s| - 1], s[|s| - 1];
      FoldCounts(front);
      XorHighBits(Fold(front), c as int);
      BlockOf(c);
      CountStep(Fold(front) / 32, Count(front, InUpperHalf), Count(front, InOddBlock), InUpperHalf(c), InOddBlock(c));
    }
  }

  /**
   * The check letter is one of 4, 5, 6 and 7. It tells whether the letters it is made of hold an odd number from the
   * upper half of the ASCII codes, and an odd number from its odd blocks of 32, and nothing else of them.
   */
  lemma CheckLetterExactly(s: string)
    requires IsAscii(s)
    ensures CheckLetter(s) ==
      if Count(s, InUpperHalf) % 2 == 1 then (if Count(s, InOddBlock) % 2 == 1 then "4" else "5")
      else if Count(s, InOddBlock) % 2 == 1 then "6" else "7"
  {
    hide Fold, CheckLetter, Count, InUpperHalf, InOddBlock;
    FoldCounts(s);
    CheckLetterIsHighDigit(s);
    DigitChars(Fold(s) / 32);
  }

  /** Changing one letter leaves the top bits of the fold alone exactly when the letter keeps its own top bits. */
  lemma {:induction false} FoldAfterChange(s: string, i: nat, c: char)
    requires i < |s|
    ensures Fold(s[i := c]) / 32 == Fold(s) / 32 <==> c as int / 32 == s[i] as int / 32
  {
    var t, n := s[i := c], |s| - 1;
    XorHighBits(Fold(s[..n]), s[n] as int);
    XorHighBits(Fold(t[..n]), t[n] as int);
    if i == n {
      assert t[..n] == s[..n];
      XorCancels(Fold(s[..n]) / 32, s[n] as int / 32, c as int / 32);
    } else {
      assert t[..n] == s[..n][i := c];
      FoldAfterChange(s[..n], i, c);
      var x := s[n] as int / 32;
      XorCommutes(Fold(s[..n]) / 32, x);
      XorCommutes(Fold(t[..n]) / 32, x);
      XorCancels(x, Fold(s[..n]) / 32, Fold(t[..n]) / 32);
    }
  }

  /** How many letters the date takes, and how many the value. */
  function DateWidth(q: QrCode): nat {
    if q.expirationDate.Some? then |Encode(q.expirationDate.value)| else DUE_DATE_DHEX_SIZE
  }

  function AmountWidth(q: QrCode): nat {
    if q.documentValue != 0
    then |PadStart(Encode(if q.documentValue > 0 then q.documentValue else 0), VALUE_DHEX_SIZE)|
    else VALUE_DHEX_SIZE
  }

  /** Nine letters for the date and eight for the value put every part of the id where it is looked for. */
  lemma UsualWidths(q: QrCode)
    ensures q.expirationDate.Some? ==> (DateWidth(q) == DUE_DATE_DHEX_SIZE <==> NineLetterDate(q.expirationDate.value))
    ensures AmountWidth(q) >= VALUE_DHEX_SIZE
    ensures AmountWidth(q) == VALUE_DHEX_SIZE <==> q.documentValue < Pow32(VALUE_DHEX_SIZE)
  {
    if q.expirationDate.Some? {
      EncodeLength(q.expirationDate.value, DUE_DATE_DHEX_SIZE);
      EncodeLength(q.expirationDate.value, DUE_DATE_DHEX_SIZE - 1);
    }
    ValueLetters(q);
  }

  lemma PartsLayout(q: QrCode, r: Randomness)
    requires r.Valid()
    ensures |DatePart(q, r)| == DateWidth(q) && IsAscii(DatePart(q, r))
    ensures |AmountPart(q, r)| == AmountWidth(q) >= VALUE_DHEX_SIZE
    ensures IsAscii(AmountPart(q, r)) && IsAlphanumeric(AmountPart(q, r))
  {
    if q.expirationDate.Some? { EncodeCanonical(q.expirationDate.value); }
    ValueLetters(q);
  }

  lemma AsciiConcat(a: string, b: string)
    requires IsAscii(a) && IsAscii(b)
    ensures IsAscii(a + b)
  {
  }

  lemma BodyLayout(q: QrCode, r: Randomness)
    requires r.Valid()
    ensures IsAscii(Body(q, r)) && |Body(q, r)| == PREFIX_SIZE + DateWidth(q) + AmountWidth(q) + RANDOM_SIZE
  {
    PartsLayout(q, r);
    hide DatePart, AmountPart, DateWidth, AmountWidth;
    var prefix := [('Z' as int - PrefixFlags(q)) as char];
    AsciiConcat(prefix, DatePart(q, r));
    AsciiConcat(prefix + DatePart(q, r), AmountPart(q, r));
    assert IsAscii(r.tail);
    AsciiConcat(prefix + DatePart(q, r) + AmountPart(q, r), r.tail);
  }

  /** A value is written in at least eight digits that decode to it, or to zero when it is negative. */
  lemma ValueLetters(q: QrCode)
    ensures var v := if q.documentValue > 0 then q.documentValue else 0;
      var amount := PadStart(Encode(v), VALUE_DHEX_SIZE);
      && IsDigitString(amount) && IsAscii(amount) && |amount| >= VALUE_DHEX_SIZE
      && (|amount| == VALUE_DHEX_SIZE <==> v < Pow32(VALUE_DHEX_SIZE))
      && ShiftOrFold(amount) == v
  {
    var v := if q.documentValue > 0 then q.documentValue else 0;
    EncodeCanonical(v);
    EncodeLength(v, VALUE_DHEX_SIZE);
    DecodeEncode(v);
    FoldIsPositional(Encode(v));
    if |Encode(v)| < VALUE_DHEX_SIZE {
      PaddingKeepsValue(Zeros(VALUE_DHEX_SIZE - |Encode(v)|), Encode(v));
      FoldIsPositional(PadStart(Encode(v), VALUE_DHEX_SIZE));
    }
  }

  /** A body followed by its own check letter passes the check. */
  lemma OwnLetterChecks(body: string)
    requires |body| == CHECKSUM_START && IsAscii(body) && IsFastFormat(body)
    ensures var txId := body + CheckLetter(body);
      |txId| == 25 && IsAscii(txId) && IsFastFormat(txId) && CheckTxId(txId)
  {
    CheckLetterIsHighDigit(body);
    DigitChars(Fold(body) / 32);
    var txId := body + CheckLetter(body);
    assert txId[..CHECKSUM_START] == body && txId[CHECKSUM_START..] == CheckLetter(body);
  }

  lemma PrefixKeepsFlags(q: QrCode, txId: string)
    requires txId != "" && txId[0] as int == 'Z' as int - PrefixFlags(q)
    ensures IsFastFormat(txId)
    ensures IsPayableManyTimes(txId) == q.payableManyTimes
    ensures HasDueDate(txId) == q.expirationDate.Some?
    ensures HasValue(txId) == (q.documentValue != 0)
  {
  }

  /**
   * A created id gives back the flags it was made with. It passes its own check if its parts have 25 letters together,
   * as they have with a date of nine letters and a value of eight, and fails it if they have fewer.
   */
  lemma CreatedTxIdIsValid(q: QrCode, r: Randomness)
    requires r.Valid()
    ensures CreateTxId(q, r).Err? <==> !q.payableManyTimes && q.expirationDate.None?
    ensures CreateTxId(q, r).Ok? ==>
      var txId := CreateTxId(q, r).value;
      && IsAscii(txId) && IsFastFormat(txId)
      && IsPayableManyTimes(txId) == q.payableManyTimes
      && HasDueDate(txId) == q.expirationDate.Some?
      && HasValue(txId) == (q.documentValue != 0)
      && |txId| == PREFIX_SIZE + DateWidth(q) + AmountWidth(q) + RANDOM_SIZE + CHECKSUM_SIZE
      && (|txId| == 25 ==> CheckTxId(txId))
      && (|txId| < 25 ==> !CheckTxId(txId))
  {
    var body := Body(q, r);
    BodyLayout(q, r);
    PrefixKeepsFlags(q, body);
    CheckLetterIsHighDigit(body);
    DigitChars(Fold(body) / 32);
    var txId := body + CheckLetter(body);
    PrefixKeepsFlags(q, txId);
    if |txId| == 25 {
      OwnLetterChecks(body);
    } else if |txId| < 25 {
      assert Substring(txId, 0, CHECKSUM_START) == txId;
      CheckLetterIsHighDigit(txId);
    }
  }

  lemma {:induction false} OrNotLess(a: nat, b: nat)
    ensures BitOr(a, b) >= a
  {
    if a != 0 { OrNotLess(a / 2, b / 2); }
  }

  /** More letters make the number read at least 32 times as large. */
  lemma {:induction false} FoldGrows(s: string, t: string)
    requires t != "" && IsAlphanumeric(t) && ShiftOrFold(s) >= 0
    ensures ShiftOrFold(s + t) >= 32 * ShiftOrFold(s)
  {
    var n := |t| - 1;
    assert (s + t)[..|s + t| - 1] == s + t[..n];
    if n == 0 {
      assert s + t[..n] == s;
    } else {
      FoldGrows(s, t[..n]);
    }
    OrNotLess(32 * ShiftOrFold(s + t[..n]), CharValue(t[n]));
  }

  /** The due date of a created id comes back exactly when it is written with nine letters; no date is all zeros. */
  lemma DueDateRoundTrip(q: QrCode, r: Randomness)
    requires r.Valid() && q.expirationDate.Some? && q.expirationDate.value > 0
    ensures CreateTxId(q, r).Ok?
    ensures GetDueDate(CreateTxId(q, r).value) == q.expirationDate.value <==> NineLetterDate(q.expirationDate.value)
  {
    var d := q.expirationDate.value;
    var letters, txId := Encode(d), CreateTxId(q, r).value;
    EncodeLength(d, DUE_DATE_DHEX_SIZE);
    EncodeLength(d, DUE_DATE_DHEX_SIZE - 1);
    EncodeCanonical(d);
    DecodeEncode(d);
    if |letters| >= DUE_DATE_DHEX_SIZE {
      var part := letters[..DUE_DATE_DHEX_SIZE];
      assert Substring(txId, PREFIX_SIZE, VALUE_START) == part;
      FoldIsPositional(part);
      PositionalBound(part);
      if |letters| == DUE_DATE_DHEX_SIZE { assert part == letters; }
    } else {
      DueDateTooShort(q, r);
    }
  }

  lemma CutDate(prefix: string, letters: string, amount: string, rest: string)
    requires |prefix| == PREFIX_SIZE && |letters| < DUE_DATE_DHEX_SIZE <= |letters| + |amount|
    ensures Substring(prefix + letters + amount + rest, PREFIX_SIZE, VALUE_START)
      == letters + amount[..DUE_DATE_DHEX_SIZE - |letters|]
  {
    assert (prefix + letters + amount + rest)[PREFIX_SIZE..] == letters + (amount + rest);
  }

  /** A date of fewer letters is read together with the letters after it. */
  lemma DueDateTooShort(q: QrCode, r: Randomness)
    requires r.Valid() && q.expirationDate.Some? && q.expirationDate.value > 0
    requires |Encode(q.expirationDate.value)| < DUE_DATE_DHEX_SIZE
    ensures GetDueDate(CreateTxId(q, r).value) > q.expirationDate.value
  {
    var d := q.expirationDate.value;
    var letters, amount, txId := Encode(d), AmountPart(q, r), CreateTxId(q, r).value;
    EncodeCanonical(d);
    DecodeEncode(d);
    PartsLayout(q, r);
    hide Encode, ShiftOrFold, AmountPart, AmountWidth, CheckLetter;
    var more := amount[..DUE_DATE_DHEX_SIZE - |letters|];
    var prefix, rest := [('Z' as int - PrefixFlags(q)) as char], r.tail + CheckLetter(Body(q, r));
    assert txId == prefix + letters + amount + rest;
    CutDate(prefix, letters, amount, rest);
    FoldGrows(letters, more);
  }

  lemma CutValue(head: string, amount: string, rest: string)
    requires |head| == VALUE_START && |amount| >= VALUE_DHEX_SIZE
    ensures Substring(head + amount + rest, VALUE_START, RANDOM_START) == amount[..VALUE_DHEX_SIZE]
  {
    assert (head + amount + rest)[VALUE_START..] == amount + rest;
  }

  /** With a date of nine letters the value is read from the first eight letters it was written with. */
  lemma ValueIsCut(q: QrCode, r: Randomness)
    requires r.Valid() && (q.expirationDate.Some? ==> NineLetterDate(q.expirationDate.value))
    requires CreateTxId(q, r).Ok?
    ensures |AmountPart(q, r)| >= VALUE_DHEX_SIZE
    ensures GetValue(CreateTxId(q, r).value) == ShiftOrFold(AmountPart(q, r)[..VALUE_DHEX_SIZE])
  {
    UsualWidths(q);
    PartsLayout(q, r);
    var head := [('Z' as int - PrefixFlags(q)) as char] + DatePart(q, r);
    var amount, rest := AmountPart(q, r), r.tail + CheckLetter(Body(q, r));
    hide DatePart, AmountPart, AmountWidth, CheckLetter;
    assert CreateTxId(q, r).value == head + amount + rest;
    CutValue(head, amount, rest);
  }

  lemma FirstLettersOf(amount: string)
    requires IsDigitString(amount) && |amount| >= VALUE_DHEX_SIZE
    ensures 0 <= ShiftOrFold(amount[..VALUE_DHEX_SIZE]) < Pow32(VALUE_DHEX_SIZE)
    ensures |amount| == VALUE_DHEX_SIZE ==> amount[..VALUE_DHEX_SIZE] == amount
  {
    FoldIsPositional(amount[..VALUE_DHEX_SIZE]);
    PositionalBound(amount[..VALUE_DHEX_SIZE]);
  }

  /** The value comes back exactly when it is positive and fits its eight letters. */
  lemma ValueRoundTrip(q: QrCode, r: Randomness)
    requires r.Valid() && (q.expirationDate.Some? ==> NineLetterDate(q.expirationDate.value))
    requires q.documentValue != 0 && CreateTxId(q, r).Ok?
    ensures GetValue(CreateTxId(q, r).value) == q.documentValue
      <==> 0 < q.documentValue < Pow32(VALUE_DHEX_SIZE)
  {
    ValueLetters(q);
    ValueIsCut(q, r);
    FirstLettersOf(AmountPart(q, r));
  }

  /**
   * The layout of a created id with the usual widths: one letter for what it carries, counted back from Z, nine for
   * the due date, eight for the value, six at random, and the check letter of those before. Each is read from there.
   */
  lemma LayoutExactly(q: QrCode, r: Randomness)
    requires r.Valid() && CreateTxId(q, r).Ok?
    requires q.documentValue < Pow32(8)
    requires q.expirationDate.Some? ==> Pow32(8) <= q.expirationDate.value < Pow32(9)
    ensures var t, amount := CreateTxId(q, r).value, Encode(if q.documentValue > 0 then q.documentValue else 0);
      var zeros := Zeros(if |amount| < 8 then 8 - |amount| else 0);
      && |t| == 25
      && t[0] as int == 'Z' as int - (if q.payableManyTimes then 4 else 0)
         - (if q.expirationDate.Some? then 2 else 0) - (if q.documentValue != 0 then 1 else 0)
      && t[1..10] == (if q.expirationDate.Some? then Encode(q.expirationDate.value) else r.date)
      && t[10..18] == (if q.documentValue != 0 then zeros + amount else r.value)
      && t[18..24] == r.tail && t[24..] == CheckLetter(t[..24])
      && GetDueDate(t) == ShiftOrFold(t[1..10]) && GetValue(t) == ShiftOrFold(t[10..18])
  {
    UsualWidths(q);
    PartsLayout(q, r);
    BodyLayout(q, r);
    CheckLetterIsHighDigit(Body(q, r));
    ValueLetters(q);
    if q.expirationDate.None? { assert |DatePart(q, r)| == 9; }
    Cut([('Z' as int - PrefixFlags(q)) as char], DatePart(q, r), AmountPart(q, r), r.tail, CheckLetter(Body(q, r)));
  }

  lemma Cut(prefix: string, date: string, amount: string, tail: string, check: string)
    requires |prefix| == 1 && |date| == 9 && |amount| == 8 && |tail| == 6 && |check| == 1
    ensures var t := prefix + date + amount + tail + check;
      && |t| == 25 && t[0] == prefix[0] && t[1..10] == date && t[10..18] == amount && t[18..24] == tail
      && t[24..] == check && t[..24] == prefix + date + amount + tail
  {
  }

  /** The check is made of ids in the fast format only, so a change that leaves the format is not noticed either. */
  predicate GoesUnnoticed(txId: string) {
    IsFastFormat(txId) ==> CheckTxId(txId)
  }

  /**
   * What the check letter detects. Replacing one letter of the body of a valid id goes unnoticed exactly when the
   * new letter is in the same block of 32 ASCII codes (digits, upper case, lower case) or is the first of an id that
   * leaves the fast format; so a change of the first letter always does. Replacing the check letter never does.
   */
  lemma CheckDetectsBlockChange(txId: string, i: nat, c: char)
    requires |txId| == 25 && IsAscii(txId) && c as int < 128
    requires IsFastFormat(txId) && CheckTxId(txId) && i < |txId|
    ensures 0 < i < CHECKSUM_START ==> (GoesUnnoticed(txId[i := c]) <==> c as int / 32 == txId[i] as int / 32)
    ensures i == 0 ==> GoesUnnoticed(txId[i := c])
    ensures i == CHECKSUM_START ==> (GoesUnnoticed(txId[i := c]) <==> c == txId[i])
  {
    if IsFastFormat(txId[i := c]) { CheckDetects(txId, i, c); }
  }

  lemma CheckDetects(txId: string, i: nat, c: char)
    requires |txId| == 25 && IsAscii(txId) && c as int < 128
    requires IsFastFormat(txId) && CheckTxId(txId)
    requires i < |txId| && IsFastFormat(txId[i := c])
    ensures i < CHECKSUM_START ==> (CheckTxId(txId[i := c]) <==> c as int / 32 == txId[i] as int / 32)
    ensures i == CHECKSUM_START ==> (CheckTxId(txId[i := c]) <==> c == txId[i])
  {
    var t := txId[i := c];
    var body, tbody := txId[..CHECKSUM_START], t[..CHECKSUM_START];
    CheckLetterIsHighDigit(body);
    CheckLetterIsHighDigit(tbody);
    DigitChars(Fold(body) / 32);
    DigitChars(Fold(tbody) / 32);
    if i < CHECKSUM_START {
      assert tbody == body[i := c];
      FoldAfterChange(body, i, c);
      assert t[CHECKSUM_START..] == txId[CHECKSUM_START..];
    } else {
      assert tbody == body;
      assert t[CHECKSUM_START..] == [c] && txId[CHECKSUM_START..] == [txId[i]];
    }
  }
}
