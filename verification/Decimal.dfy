/**
 * Decimal strings: parsing and printing fixed-point amounts with up to eight decimals.
 */
module Decimal {
  import opened Protocol

  datatype ParseError = Invalid | Overflow
  datatype Parsed = Ok(value: U64) | Err(error: ParseError)

  const DECIMALS: nat := 8

  predicate IsDigit(c: char) {
    '0' <= c <= '9'
  }

  predicate AllDigits(s: string) {
    forall i :: 0 <= i < |s| ==> IsDigit(s[i])
  }

  function Digit(d: nat): char
    requires d < 10
  {
    '0' + d as char
  }

  function DigitValue(c: char): nat
    requires IsDigit(c)
  {
    (c - '0') as nat
  }

  function Value(s: string): nat
    requires AllDigits(s)
  {
    if s == [] then 0 else Value(s[..|s| - 1]) * 10 + DigitValue(s[|s| - 1])
  }

  /** Without leading zeros. */
  function Digits(n: nat): (s: string)
    ensures AllDigits(s) && s != [] && (|s| > 1 ==> s[0] != '0') && (n > 0 ==> s[0] != '0')
  {
    if n < 10 then [Digit(n)] else Digits(n / 10) + [Digit(n % 10)]
  }

  lemma {:induction false} ValueOfDigits(n: nat)
    ensures Value(Digits(n)) == n
  {
    if n >= 10 {
      ValueOfDigits(n / 10);
    }
  }

  function Itoa(n: int): string {
    if n < 0 then "-" + Digits(-n) else Digits(n)
  }

  function Pow10(k: nat): nat {
    if k == 0 then 1 else 10 * Pow10(k - 1)
  }

  /** The last `width` digits, with leading zeros. */
  function Padded(n: nat, width: nat): (s: string)
    ensures AllDigits(s) && |s| == width
  {
    if width == 0 then [] else Padded(n / 10, width - 1) + [Digit(n % 10)]
  }

  function Zeros(k: nat): (s: string)
    ensures AllDigits(s) && |s| == k
  {
    if k == 0 then [] else Zeros(k - 1) + ['0']
  }

  function TrimZeros(s: string): (r: string)
    ensures r <= s
  {
    if s != [] && s[|s| - 1] == '0' then TrimZeros(s[..|s| - 1]) else s
  }

  // ---------- what a decimal string means ----------

  predicate IsSpace(c: char) {
    c in " \t\n\r" || c == 11 as char || c == 12 as char || c == 0x85 as char || c == 0xA0 as char
    || c == 0x1680 as char
    || 0x2000 as char <= c <= 0x200A as char || c == 0x2028 as char || c == 0x2029 as char || c == 0x202F as char
    || c == 0x205F as char || c == 0x3000 as char
  }

  function TrimLeft(s: string): string {
    if s != [] && IsSpace(s[0]) then TrimLeft(s[1..]) else s
  }

  function TrimRight(s: string): string {
    if s != [] && IsSpace(s[|s| - 1]) then TrimRight(s[..|s| - 1]) else s
  }

  function Trim(s: string): string {
    TrimRight(TrimLeft(s))
  }

  /** Where the first dot is, or the length. */
  function Dot(s: string): (i: nat)
    ensures i <= |s| && '.' !in s[..i] && (i < |s| ==> s[i] == '.')
  {
    if s == [] || s[0] == '.' then 0
    else
      assert s[..1 + Dot(s[1..])] == [s[0]] + s[1..][..Dot(s[1..])];
      1 + Dot(s[1..])
  }

  function Whole(s: string): string {
    s[..Dot(s)]
  }

  function Fraction(s: string): string {
    if Dot(s) < |s| then s[Dot(s) + 1..] else []
  }

  /** Digits, at most one dot, at most eight decimals, at least one digit. */
  predicate WellFormed(s: string) {
    && AllDigits(Whole(s)) && AllDigits(Fraction(s))
    && |Fraction(s)| <= DECIMALS && (Whole(s) != [] || Fraction(s) != [])
  }

  function Amount(s: string): nat
    requires WellFormed(s)
  {
    Value(Whole(s)) * SCALE + Value(Fraction(s)) * Pow10(DECIMALS - |Fraction(s)|)
  }

  function Meaning(s: string): Parsed {
    if !WellFormed(Trim(s)) then Err(Invalid)
    else if Amount(Trim(s)) >= U64_MODULUS then Err(Overflow)
    else Ok(Amount(Trim(s)))
  }

  // ---------- spellings ----------

  /** White space that people type. */
  predicate Blank(s: string) {
    forall i :: 0 <= i < |s| ==> s[i] == ' ' || s[i] == '\t' || s[i] == '\n' || s[i] == '\r'
  }

  /** Digits, perhaps a dot and up to eight more digits, not all missing. */
  predicate Spelling(whole: string, dot: bool, fraction: string) {
    && AllDigits(whole) && AllDigits(fraction) && |fraction| <= 8
    && (dot || fraction == "") && whole + fraction != ""
  }

  function Spelled(whole: string, dot: bool, fraction: string): string {
    whole + (if dot then "." else "") + fraction
  }

  /** Every such spelling, with blanks around it, means the number it shows. */
  lemma SpellingMeans(before: string, whole: string, dot: bool, fraction: string, after: string)
    requires Blank(before) && Blank(after) && Spelling(whole, dot, fraction)
    ensures var amount := Value(whole) * 100_000_000 + Value(fraction) * Pow10(8 - |fraction|);
            Meaning(before + Spelled(whole, dot, fraction) + after)
            == if amount < U64_MODULUS then Ok(amount) else Err(Overflow)
  {
    hide Value, Pow10, Trim, IsSpace, AllDigits, Meaning, Amount, WellFormed, Spelled;
    var s := Spelled(whole, dot, fraction);
    NoBlankEnds(whole, dot, fraction);
    TrimsTo(before, s, after);
    SpellingAmount(whole, dot, fraction);
    MeaningOf(before + s + after);
  }

  lemma MeaningOf(s: string)
    requires WellFormed(Trim(s))
    ensures Meaning(s) == if Amount(Trim(s)) < U64_MODULUS then Ok(Amount(Trim(s))) else Err(Overflow)
  {
    hide Trim, WellFormed, Amount;
  }

  lemma SpellingAmount(whole: string, dot: bool, fraction: string)
    requires Spelling(whole, dot, fraction)
    ensures WellFormed(Spelled(whole, dot, fraction))
    ensures Amount(Spelled(whole, dot, fraction))
         == Value(whole) * 100_000_000 + Value(fraction) * Pow10(8 - |fraction|)
  {
    hide *;
    PartsOf(whole, dot, fraction);
    PartsWell(Spelled(whole, dot, fraction), whole, dot, fraction);
    PartsAmount(Spelled(whole, dot, fraction));
  }

  lemma PartsWell(s: string, whole: string, dot: bool, fraction: string)
    requires Whole(s) == whole && Fraction(s) == fraction && Spelling(whole, dot, fraction)
    ensures WellFormed(s)
  {
    hide Whole, Fraction, AllDigits;
  }

  lemma PartsAmount(s: string)
    requires WellFormed(s)
    ensures |Fraction(s)| <= 8 && AllDigits(Whole(s)) && AllDigits(Fraction(s))
    ensures Amount(s) == Value(Whole(s)) * 100_000_000 + Value(Fraction(s)) * Pow10(8 - |Fraction(s)|)
  {
    hide Whole, Fraction, AllDigits, Value, Pow10;
  }

  lemma PartsOf(whole: string, dot: bool, fraction: string)
    requires Spelling(whole, dot, fraction)
    ensures Whole(Spelled(whole, dot, fraction)) == whole && Fraction(Spelled(whole, dot, fraction)) == fraction
  {
    DotAt(whole, fraction);
    hide Whole, Fraction;
    assert Spelled(whole, dot, fraction) == if dot then whole + "." + fraction else whole;
  }

  lemma NoBlankEnds(whole: string, dot: bool, fraction: string)
    requires Spelling(whole, dot, fraction)
    ensures var s := Spelled(whole, dot, fraction); s != "" && !IsSpace(s[0]) && !IsSpace(s[|s| - 1])
  {
    var s := Spelled(whole, dot, fraction);
    forall k | 0 <= k < |s|
      ensures IsDigit(s[k]) || s[k] == '.'
    {
      if k < |whole| {
        assert s[k] == whole[k];
      } else if dot && k > |whole| {
        assert s[k] == fraction[k - |whole| - 1];
      }
    }
    hide AllDigits, Spelled;
  }

  lemma TrimsTo(before: string, s: string, after: string)
    requires Blank(before) && Blank(after) && s != "" && !IsSpace(s[0]) && !IsSpace(s[|s| - 1])
    ensures Trim(before + s + after) == s
  {
    assert (before + s + after) == before + (s + after);
    SkipsLeft(before, s + after);
    SkipsRight(s, after);
  }

  lemma {:induction false} SkipsLeft(before: string, s: string)
    requires Blank(before) && s != "" && !IsSpace(s[0])
    ensures TrimLeft(before + s) == s
  {
    if before == "" {
      assert before + s == s;
    } else {
      assert (before + s)[1..] == before[1..] + s;
      SkipsLeft(before[1..], s);
    }
  }

  lemma {:induction false} SkipsRight(s: string, after: string)
    requires Blank(after) && s != "" && !IsSpace(s[|s| - 1])
    ensures TrimRight(s + after) == s
  {
    if after == "" {
      assert s + after == s;
    } else {
      assert (s + after)[..|s + after| - 1] == s + after[..|after| - 1];
      SkipsRight(s, after[..|after| - 1]);
    }
  }

  /** And nothing else means a number: what is accepted is such a spelling once white space is cut off. */
  lemma OnlySpellings(s: string) returns (whole: string, dot: bool, fraction: string)
    ensures Meaning(s) != Err(Invalid) ==> Spelling(whole, dot, fraction) && Trim(s) == Spelled(whole, dot, fraction)
  {
    var t := Trim(s);
    whole, dot, fraction := Whole(t), Dot(t) < |t|, Fraction(t);
    hide Trim, Amount, AllDigits;
    if dot {
      assert t == t[..Dot(t)] + [t[Dot(t)]] + t[Dot(t) + 1..];
    } else {
      assert t == t[..Dot(t)];
    }
  }

  lemma {:induction false} ValueConcat(s: string, t: string)
    requires AllDigits(s) && AllDigits(t)
    ensures AllDigits(s + t) && Value(s + t) == Value(s) * Pow10(|t|) + Value(t)
  {
    if t == [] {
      assert s + t == s;
    } else {
      var front := t[..|t| - 1];
      ValueConcat(s, front);
      assert (s + t)[..|s + t| - 1] == s + front;
      assert Value(s + t) == Value(s + front) * 10 + DigitValue(t[|t| - 1]);
      assert Pow10(|t|) == 10 * Pow10(|front|);
      Times10(Value(s), Pow10(|front|));
    }
  }

  lemma Times10(a: nat, b: nat)
    ensures (a * b) * 10 == a * (10 * b)
  {
  }

  lemma {:induction false} ValueZeros(k: nat)
    ensures Value(Zeros(k)) == 0
  {
    if k > 0 {
      ValueZeros(k - 1);
      assert Zeros(k)[..k - 1] == Zeros(k - 1);
    }
  }

  method TrimSpace(s: string) returns (t: string)
    ensures t == Trim(s)
  {
    var lo := 0;
    while lo < |s| && IsSpace(s[lo])
      invariant lo <= |s| && TrimLeft(s) == TrimLeft(s[lo..])
    {
      assert s[lo..][1..] == s[lo + 1..];
      lo := lo + 1;
    }
    var u := s[lo..];
    var hi: nat := |u|;
    assert u[..hi] == u;
    while hi > 0 && IsSpace(u[hi - 1])
      invariant hi <= |u| && TrimRight(u) == TrimRight(u[..hi])
    {
      assert u[..hi][..hi - 1] == u[..hi - 1];
      hi := hi - 1;
    }
    t := u[..hi];
  }

  /** Accumulates the digits; stops when the value leaves the 64-bit range. */
  method ParseUint(s: string) returns (r: Parsed)
    requires AllDigits(s)
    ensures r == if Value(s) < U64_MODULUS then Ok(Value(s)) else Err(Overflow)
  {
    var v := 0;
    var i := 0;
    while i < |s|
      invariant i <= |s| && 0 <= v < U64_MODULUS && v == Value(s[..i])
    {
      assert s[..i + 1][..i] == s[..i];
      v := v * 10 + DigitValue(s[i]);
      i := i + 1;
      if v >= U64_MODULUS {
        ValueGrows(s, i);
        return Err(Overflow);
      }
    }
    assert s[..i] == s;
    r := Ok(v);
  }

  lemma {:induction false} ValueGrows(s: string, i: nat)
    requires AllDigits(s) && i <= |s|
    ensures Value(s[..i]) <= Value(s)
  {
    if i < |s| {
      ValueGrows(s[..|s| - 1], i);
      assert s[..|s| - 1][..i] == s[..i];
    } else {
      assert s[..i] == s;
    }
  }

  lemma SplitCovers(t: string)
    ensures forall i :: 0 <= i < |t| && t[i] != '.' ==> t[i] in Whole(t) || t[i] in Fraction(t)
    ensures WellFormed(t) ==> forall c | c in t :: IsDigit(c) || c == '.'
  {
  }

  method SplitAtDot(t: string) returns (whole: string, fraction: string)
    ensures whole == Whole(t) && fraction == Fraction(t)
  {
    var i := 0;
    while i < |t| && t[i] != '.'
      invariant i <= |t| && Dot(t) == i + Dot(t[i..])
    {
      assert t[i..][1..] == t[i + 1..];
      i := i + 1;
    }
    whole := t[..i];
    fraction := if i < |t| then t[i + 1..] else "";
  }

  method OnlyDigits(s: string) returns (ok: bool)
    ensures ok <==> AllDigits(s)
  {
    var k := 0;
    while k < |s|
      invariant k <= |s| && forall i :: 0 <= i < k ==> IsDigit(s[i])
    {
      if !IsDigit(s[k]) {
        return false;
      }
      k := k + 1;
    }
    ok := true;
  }

  method Pad(fraction: string) returns (padded: string)
    requires |fraction| <= DECIMALS
    ensures padded == fraction + Zeros(DECIMALS - |fraction|)
  {
    padded := fraction;
    while |padded| < DECIMALS
      invariant |fraction| <= |padded| <= DECIMALS && padded == fraction + Zeros(|padded| - |fraction|)
      decreases DECIMALS - |padded|
    {
      padded := padded + "0";
    }
  }

  method Parse(s: string) returns (r: Parsed)
    ensures r == Meaning(s)
  {
    hide Value, Pow10, Zeros, Dot;
    var t := TrimSpace(s);
    SplitCovers(t);
    NoWhole();
    if t == "" || exists i :: 0 <= i < |t| && t[i] in "-+eE" {
      return Err(Invalid);
    }
    var whole, fraction := SplitAtDot(t);
    if whole == "" && fraction == "" {
      return Err(Invalid);
    }
    if |fraction| > DECIMALS {
      return Err(Invalid);
    }
    if whole == "" {
      whole := "0";
    }
    DigitsOfBoth(whole, fraction);
    var ok := OnlyDigits(whole + fraction);
    if !ok {
      return Err(Invalid);
    }
    var padded := Pad(fraction);
    PaddedValue(whole, fraction);
    r := ParseUint(whole + padded);
  }

  lemma NoWhole()
    ensures AllDigits("0") && Value("") == 0 && Value("0") == 0
  {
  }

  lemma DigitsOfBoth(s: string, t: string)
    ensures AllDigits(s + t) <==> AllDigits(s) && AllDigits(t)
  {
    if AllDigits(s + t) {
      assert forall i :: 0 <= i < |s| ==> s[i] == (s + t)[i];
      assert forall i :: 0 <= i < |t| ==> t[i] == (s + t)[|s| + i];
    }
  }

  lemma PaddedValue(whole: string, fraction: string)
    requires AllDigits(whole) && AllDigits(fraction) && |fraction| <= DECIMALS
    ensures var all := whole + (fraction + Zeros(DECIMALS - |fraction|));
            AllDigits(all)
            && Value(all) == Value(whole) * SCALE + Value(fraction) * Pow10(DECIMALS - |fraction|)
  {
    var zeros := Zeros(DECIMALS - |fraction|);
    ValueConcat(fraction, zeros);
    ValueZeros(DECIMALS - |fraction|);
    ValueConcat(whole, fraction + zeros);
    PowScale();
  }

  lemma PowScale()
    ensures Pow10(DECIMALS) == SCALE
  {
  }

  // ---------- printing ----------

  function Format(v: U64): string {
    var whole := v / SCALE;
    var part := v % SCALE;
    if part == 0 then Digits(whole) else Digits(whole) + "." + TrimZeros(Padded(part, DECIMALS))
  }

  lemma {:induction false} ValuePadded(n: nat, width: nat)
    requires n < Pow10(width)
    ensures Value(Padded(n, width)) == n
  {
    if width > 0 {
      ValuePadded(n / 10, width - 1);
    }
  }

  /** Trimmed zeros are what the missing places stand for. */
  lemma {:induction false} ValueTrimmed(s: string)
    requires AllDigits(s)
    ensures var r := TrimZeros(s);
            |r| <= |s| && AllDigits(r) && Value(s) == Value(r) * Pow10(|s| - |r|)
    ensures TrimZeros(s) == [] ==> Value(s) == 0
  {
    var r := TrimZeros(s);
    if s != [] && s[|s| - 1] == '0' {
      var front := s[..|s| - 1];
      ValueTrimmed(front);
      Times10(Value(r), Pow10(|front| - |r|));
    }
  }

  lemma DotAt(whole: string, fraction: string)
    requires AllDigits(whole)
    ensures Whole(whole + "." + fraction) == whole && Fraction(whole + "." + fraction) == fraction
    ensures Whole(whole) == whole && Fraction(whole) == []
  {
    var s := whole + "." + fraction;
    assert forall i :: 0 <= i < |whole| ==> s[i] == whole[i];
    assert s[|whole|] == '.';
    DotIs(s, |whole|);
    DotIs(whole, |whole|);
  }

  lemma {:induction false} DotIs(s: string, i: nat)
    requires i <= |s| && (i < |s| ==> s[i] == '.') && forall j :: 0 <= j < i ==> s[j] != '.'
    ensures Dot(s) == i
  {
  }

  lemma NoTrim(s: string)
    requires s != [] && !IsSpace(s[0]) && !IsSpace(s[|s| - 1])
    ensures Trim(s) == s
  {
  }

  lemma DigitsAreNoSpace(s: string)
    ensures forall c | c in s && IsDigit(c) :: !IsSpace(c)
  {
  }

  /** What printing puts after the dot. */
  function Decimals(v: U64): string {
    if v % SCALE == 0 then [] else TrimZeros(Padded(v % SCALE, DECIMALS))
  }

  lemma DecimalsValue(v: U64)
    ensures var f := Decimals(v);
            && AllDigits(f) && |f| <= DECIMALS && (f == [] <==> v % SCALE == 0)
            && (f != [] ==> f[|f| - 1] != '0')
            && Value(f) * Pow10(DECIMALS - |f|) == v % SCALE
  {
    PowScale();
    ValuePadded(v % SCALE, DECIMALS);
    ValueTrimmed(Padded(v % SCALE, DECIMALS));
    LastNotZero(Padded(v % SCALE, DECIMALS));
    hide Padded, TrimZeros, Pow10;
  }

  lemma LastNotZero(s: string)
    ensures var r := TrimZeros(s); r != [] ==> r[|r| - 1] != '0'
  {
  }

  lemma FormatParts(v: U64)
    ensures Whole(Format(v)) == Digits(v / SCALE) && Fraction(Format(v)) == Decimals(v)
    ensures Format(v) != [] && IsDigit(Format(v)[0]) && IsDigit(Format(v)[|Format(v)| - 1])
    ensures Dot(Format(v)) < |Format(v)| <==> v % SCALE != 0
  {
    DecimalsValue(v);
    DotAt(Digits(v / SCALE), Decimals(v));
    hide Digits, Padded, TrimZeros;
  }

  /** Printing and parsing gives the amount back, for every 64-bit amount. */
  lemma ParseOfFormat(v: U64)
    ensures Meaning(Format(v)) == Ok(v)
  {
    hide Format, Decimals, Pow10, Trim, Digits, Value, Whole, Fraction, IsSpace;
    FormatParts(v);
    DecimalsValue(v);
    ValueOfDigits(v / SCALE);
    DigitsAreNoSpace(Format(v));
    NoTrim(Format(v));
    assert Amount(Format(v)) == v / SCALE * SCALE + v % SCALE;
  }

  // ---------- one spelling of each amount ----------

  /** No spaces, no superfluous zeros, a dot only before decimals. */
  predicate Canonical(s: string) {
    && WellFormed(s)
    && Whole(s) != [] && (|Whole(s)| > 1 ==> Whole(s)[0] != '0')
    && (Dot(s) < |s| ==> Fraction(s) != [] && Fraction(s)[|Fraction(s)| - 1] != '0')
  }

  lemma {:induction false} DigitsUnique(s: string)
    requires AllDigits(s) && s != [] && (|s| > 1 ==> s[0] != '0')
    ensures Digits(Value(s)) == s
    ensures s[0] != '0' ==> Value(s) > 0
  {
    var front := s[..|s| - 1];
    assert s == front + [s[|s| - 1]];
    if front == [] {
      assert Value(front) == 0;
    } else {
      DigitsUnique(front);
      hide Digits;
      DigitsStep(Value(front), DigitValue(s[|s| - 1]));
    }
  }

  lemma DigitsStep(n: nat, d: nat)
    requires d < 10 && 0 < n
    ensures Digits(n * 10 + d) == Digits(n) + [Digit(d)]
  {
  }

  lemma {:induction false} PaddedExact(f: string)
    requires AllDigits(f)
    ensures Padded(Value(f), |f|) == f
  {
    hide Padded, Value, Digit, DigitValue;
    if f == [] {
      PaddedEmpty();
    } else {
      var front, last := f[..|f| - 1], f[|f| - 1];
      PaddedExact(front);
      assert f == front + [last];
      LastDigit(front, last);
      PaddedStep(Value(front), DigitValue(last), |front|);
    }
  }

  lemma PaddedEmpty()
    ensures Padded(Value([]), 0) == []
  {
  }

  lemma LastDigit(front: string, c: char)
    requires AllDigits(front) && IsDigit(c)
    ensures AllDigits(front + [c]) && Value(front + [c]) == Value(front) * 10 + DigitValue(c)
    ensures DigitValue(c) < 10 && Digit(DigitValue(c)) == c
  {
    assert (front + [c])[..|front|] == front;
  }

  lemma {:induction false} PaddedUnique(f: string, k: nat)
    requires AllDigits(f)
    ensures Padded(Value(f) * Pow10(k), |f| + k) == f + Zeros(k)
  {
    hide Padded, Value, Digit;
    PaddedExact(f);
    if k == 0 {
      assert f + Zeros(0) == f;
    } else {
      PaddedUnique(f, k - 1);
      ShiftedValue(Value(f), k);
      hide Pow10;
      PaddedStep(Value(f) * Pow10(k - 1), 0, |f| + k - 1);
      ZeroDigit();
      assert f + Zeros(k) == f + Zeros(k - 1) + ['0'];
    }
  }

  lemma ShiftedValue(v: nat, k: nat)
    requires 0 < k
    ensures v * Pow10(k) == v * Pow10(k - 1) * 10
  {
    Times10(v, Pow10(k - 1));
  }

  lemma ZeroDigit()
    ensures Digit(0) == '0'
  {
  }

  lemma PaddedStep(n: nat, d: nat, width: nat)
    requires d < 10
    ensures Padded(n * 10 + d, width + 1) == Padded(n, width) + [Digit(d)]
  {
  }

  lemma {:induction false} TrimAdded(f: string, k: nat)
    requires f != [] && f[|f| - 1] != '0'
    ensures TrimZeros(f + Zeros(k)) == f
  {
    if k > 0 {
      assert (f + Zeros(k))[..|f| + k - 1] == f + Zeros(k - 1);
      TrimAdded(f, k - 1);
    } else {
      assert f + Zeros(0) == f;
    }
  }

  lemma {:induction false} BelowPow(f: string)
    requires AllDigits(f)
    ensures Value(f) < Pow10(|f|)
  {
    if f != [] {
      BelowPow(f[..|f| - 1]);
    }
  }

  lemma {:induction false} PowAdd(a: nat, b: nat)
    ensures Pow10(a + b) == Pow10(a) * Pow10(b)
  {
    if a > 0 {
      PowAdd(a - 1, b);
      assert Pow10(a + b) == 10 * (Pow10(a - 1) * Pow10(b));
    }
  }

  lemma ScaledBelow(f: string)
    requires AllDigits(f) && |f| <= DECIMALS
    ensures 0 <= Value(f) * Pow10(DECIMALS - |f|) < SCALE
  {
    BelowPow(f);
    PowAdd(|f|, DECIMALS - |f|);
    PowScale();
    PowPositive(DECIMALS - |f|);
    Strictly(Value(f), Pow10(|f|), Pow10(DECIMALS - |f|));
  }

  lemma Strictly(a: nat, b: nat, c: nat)
    requires a < b && 0 < c
    ensures a * c < b * c
  {
  }

  lemma {:induction false} PowPositive(k: nat)
    ensures Pow10(k) > 0
  {
    if k > 0 {
      PowPositive(k - 1);
    }
  }

  lemma Split(w: nat, p: nat)
    requires p < SCALE
    ensures (w * SCALE + p) / SCALE == w && (w * SCALE + p) % SCALE == p
  {
  }

  /** Every amount has exactly one canonical spelling, and it is the one that is printed. */
  lemma OneCanonicalSpelling(s: string, v: U64)
    requires Meaning(s) == Ok(v)
    ensures Canonical(Format(v))
    ensures Canonical(s) <==> s == Format(v)
  {
    FormatIsCanonical(v);
    if Canonical(s) {
      CanonicalIsFormat(s, v);
    }
  }

  lemma FormatIsCanonical(v: U64)
    ensures Canonical(Format(v))
  {
    FormatParts(v);
    DecimalsValue(v);
  }

  lemma CanonicalIsFormat(s: string, v: U64)
    requires Canonical(s) && Meaning(s) == Ok(v)
    ensures s == Format(v)
  {
    CanonicalParts(s, v);
    Reassemble(s);
    hide *;
    FormatIs(v);
  }

  lemma FormatIs(v: U64)
    ensures Format(v) == if Decimals(v) == [] then Digits(v / SCALE) else Digits(v / SCALE) + "." + Decimals(v)
  {
    DecimalsValue(v);
  }

  lemma Reassemble(s: string)
    requires Canonical(s)
    ensures s == if Fraction(s) == [] then Whole(s) else Whole(s) + "." + Fraction(s)
  {
  }

  lemma CanonicalParts(s: string, v: U64)
    requires Canonical(s) && Meaning(s) == Ok(v)
    ensures Digits(v / SCALE) == Whole(s) && Decimals(v) == Fraction(s)
  {
    var w, f := Whole(s), Fraction(s);
    CanonicalEnds(s);
    NoTrim(s);
    hide Trim, Pow10, Value, Whole, Fraction, Decimals, Digits;
    ScaledBelow(f);
    Split(Value(w), Value(f) * Pow10(DECIMALS - |f|));
    DigitsUnique(w);
    CanonicalDecimals(f, v);
  }

  lemma CanonicalEnds(s: string)
    requires Canonical(s)
    ensures s != [] && IsDigit(s[0]) && IsDigit(s[|s| - 1])
  {
  }

  lemma CanonicalDecimals(f: string, v: U64)
    requires AllDigits(f) && |f| <= DECIMALS && (f != [] ==> f[|f| - 1] != '0')
    requires v % SCALE == Value(f) * Pow10(DECIMALS - |f|)
    ensures Decimals(v) == f
  {
    hide Pow10, Padded, TrimZeros, Zeros;
    if f == [] {
      assert v % SCALE == 0;
    } else {
      PaddedUnique(f, DECIMALS - |f|);
      TrimAdded(f, DECIMALS - |f|);
      LastCounts(f);
      PowPositive(DECIMALS - |f|);
      Strictly(0, Value(f), Pow10(DECIMALS - |f|));
    }
  }

  lemma LastCounts(f: string)
    requires AllDigits(f) && f != [] && f[|f| - 1] != '0'
    ensures Value(f) > 0
  {
  }
}
