/** Dollar amounts on the command line: the parser, the printer and the language they share. */
module Dollars {
  import opened Results
  import opened Text

  function WithoutCommas(s: string): string {
    if s == "" then "" else (if s[0] == ',' then "" else [s[0]]) + WithoutCommas(s[1..])
  }

  function LeadingDigits(s: string): (d: string)
    ensures AllDigits(d) && d <= s
  {
    if s != "" && IsDigit(s[0]) then [s[0]] + LeadingDigits(s[1..]) else ""
  }

  /** One digit after the point is a tenth. */
  function Padded(fraction: string): string {
    if |fraction| == 1 then fraction + "0" else if fraction == "" then "00" else fraction
  }

  lemma {:induction false} PaddedDigits(fraction: string)
    requires AllDigits(fraction)
    ensures AllDigits(Padded(fraction))
  {
  }

  function DropDollar(s: string): string {
    if s != "" && s[0] == '$' then s[1..] else s
  }

  /** The digits, the optional point with one or two digits, and nothing else. */
  function ParseAmount(t: string): Option<int> {
    var whole := LeadingDigits(t);
    var rest := t[|whole|..];
    if !(1 <= |whole| <= 9) then None
    else if rest == "" then Some(Value(whole) * 100)
    else if rest[0] == '.' && 1 <= |rest| - 1 <= 2 && AllDigits(rest[1..]) then
      PaddedDigits(rest[1..]);
      Some(Value(whole) * 100 + Value(Padded(rest[1..])))
    else None
  }

  /** The pattern ^\$?(\d{1,9})(?:\.(\d{1,2}))?$ on the trimmed text without commas. */
  function ParseDollarCents(s: string): Option<int> {
    ParseAmount(DropDollar(WithoutCommas(TrimSpace(s))))
  }

  // ---------------------------------------------------------------- the language

  /** Written out: an optional dollar sign, one to nine digits, and up to two digits after a point. */
  ghost predicate Denotes(text: string, whole: string, fraction: string) {
    && AllDigits(whole) && AllDigits(fraction) && 1 <= |whole| <= 9 && |fraction| <= 2
    && DropDollar(text) == whole + if fraction == "" then "" else "." + fraction
  }

  function Cents(whole: string, fraction: string): nat
    requires AllDigits(whole) && AllDigits(fraction)
  {
    PaddedDigits(fraction);
    Value(whole) * 100 + Value(Padded(fraction))
  }

  lemma {:induction false} LeadingDigitsOf(whole: string, rest: string)
    requires AllDigits(whole) && (rest == "" || !IsDigit(rest[0]))
    ensures LeadingDigits(whole + rest) == whole
    decreases |whole|
  {
    var all := whole + rest;
    if whole == "" {
      assert all == rest;
    } else {
      assert all[0] == whole[0] && whole[0] in whole && all[1..] == whole[1..] + rest;
      assert forall c :: c in whole[1..] ==> c in whole;
      LeadingDigitsOf(whole[1..], rest);
    }
  }

  lemma {:induction false} ValueOfZeros()
    ensures AllDigits("00") && Value("00") == 0
  {
    ValueSnoc("", '0');
    ValueSnoc("0", '0');
    assert "" + ['0'] == "0" && "0" + ['0'] == "00";
  }

  /** Acceptance and value, both ways: the parser knows exactly this language. */
  lemma {:induction false} ParseExactly(s: string, cents: int)
    ensures ParseDollarCents(s) == Some(cents) <==>
            exists whole, fraction :: Denotes(WithoutCommas(TrimSpace(s)), whole, fraction) && cents == Cents(whole, fraction)
  {
    var text := WithoutCommas(TrimSpace(s));
    var t := DropDollar(text);
    var w := LeadingDigits(t);
    var rest := t[|w|..];
    ValueOfZeros();
    assert t == w + rest;
    if ParseDollarCents(s) == Some(cents) {
      if rest == "" {
        assert t == w + "";
        assert Denotes(text, w, "") && cents == Cents(w, "");
      } else {
        assert rest == "." + rest[1..];
        assert Denotes(text, w, rest[1..]) && cents == Cents(w, rest[1..]);
      }
    }
    if exists whole, fraction :: Denotes(text, whole, fraction) && cents == Cents(whole, fraction) {
      var whole, fraction :| Denotes(text, whole, fraction) && cents == Cents(whole, fraction);
      ParseOfDenoted(s, whole, fraction);
    }
  }

  lemma {:induction false} ParseOfDenoted(s: string, whole: string, fraction: string)
    requires Denotes(WithoutCommas(TrimSpace(s)), whole, fraction)
    ensures ParseDollarCents(s) == Some(Cents(whole, fraction))
  {
    AmountOf(whole, fraction);
  }

  lemma {:induction false} AmountOf(whole: string, fraction: string)
    requires AllDigits(whole) && AllDigits(fraction) && 1 <= |whole| <= 9 && |fraction| <= 2
    ensures ParseAmount(whole + if fraction == "" then "" else "." + fraction) == Some(Cents(whole, fraction))
  {
    var tail := if fraction == "" then "" else "." + fraction;
    ValueOfZeros();
    LeadingDigitsOf(whole, tail);
    assert (whole + tail)[|whole|..] == tail;
    if fraction != "" { assert tail[1..] == fraction; }
  }

  lemma {:induction false} CentsBound(whole: string, fraction: string)
    requires AllDigits(whole) && AllDigits(fraction) && |whole| <= 9 && |fraction| <= 2
    ensures 0 <= Cents(whole, fraction) < 100_000_000_000
  {
    PaddedDigits(fraction);
    ValueBound(whole);
    ValueBound(Padded(fraction));
    PowerMonotone(|whole|, 9);
    Powers();
  }

  /** Every accepted amount fits easily: 64-bit arithmetic cannot overflow on it. */
  lemma {:induction false} ParsedIsBounded(s: string)
    requires ParseDollarCents(s).Some?
    ensures 0 <= ParseDollarCents(s).value < 100_000_000_000
  {
    var cents := ParseDollarCents(s).value;
    ParseExactly(s, cents);
    var whole, fraction :| Denotes(WithoutCommas(TrimSpace(s)), whole, fraction) && cents == Cents(whole, fraction);
    CentsBound(whole, fraction);
  }

  lemma {:induction false} PowerMonotone(a: nat, b: nat)
    requires a <= b
    ensures Power10(a) <= Power10(b)
    decreases b
  {
    if a < b { PowerMonotone(a, b - 1); }
  }

  lemma {:induction false} Powers()
    ensures Power10(2) == 100 && Power10(9) == 1_000_000_000
  {
    assert Power10(1) == 10 * Power10(0);
    assert Power10(2) == 10 * Power10(1);
    assert Power10(3) == 10 * Power10(2);
    assert Power10(4) == 10 * Power10(3);
    assert Power10(5) == 10 * Power10(4);
    assert Power10(6) == 10 * Power10(5);
    assert Power10(7) == 10 * Power10(6);
    assert Power10(8) == 10 * Power10(7);
    assert Power10(9) == 10 * Power10(8);
  }

  // ---------------------------------------------------------------- the printer

  /** Go's integer division truncates toward zero, and the remainder takes the dividend's sign. */
  function Quo(a: int, b: int): int
    requires b > 0
  {
    if a >= 0 then a / b else -((-a) / b)
  }

  function Rem(a: int, b: int): int
    requires b > 0
  {
    a - b * Quo(a, b)
  }

  /** fmt's %d. */
  function Signed(n: int): string {
    if n >= 0 then Decimal(n) else "-" + Decimal(-n)
  }

  /** fmt's %02d: zero padding up to two characters, the sign included. */
  function TwoDigits(n: int): string {
    if 0 <= n < 10 then "0" + Decimal(n) else Signed(n)
  }

  /** What follows the dollar sign. */
  function Amount(whole: int, part: int): string {
    Signed(whole) + if part == 0 then "" else "." + TwoDigits(part)
  }

  function FormatDollars(cents: int): string {
    "$" + Amount(Quo(cents, 100), Rem(cents, 100))
  }

  lemma {:induction false} NothingToRemove(s: string)
    requires ',' !in s
    ensures WithoutCommas(s) == s
    decreases |s|
  {
    if s != "" {
      assert s[0] in s;
      assert forall c :: c in s[1..] ==> c in s;
      NothingToRemove(s[1..]);
      assert s == [s[0]] + s[1..];
    }
  }

  predicate Plain(c: char) {
    IsDigit(c) || c == '-' || c == '.' || c == '$'
  }

  /** Printed amounts hold no comma and no white space. */
  lemma {:induction false} PrintedSurvives(s: string)
    requires s != "" && forall c :: c in s ==> Plain(c)
    ensures WithoutCommas(TrimSpace(s)) == s
  {
    assert s[0] in s && s[|s| - 1] in s;
    TrimSpaceOfTrimmed(s);
    NothingToRemove(s);
  }

  lemma {:induction false} SignedIsPlain(n: int)
    ensures forall c :: c in Signed(n) ==> Plain(c)
    ensures n >= 0 ==> AllDigits(Signed(n)) && Signed(n) != ""
    ensures n < 0 ==> Signed(n) != "" && Signed(n)[0] == '-'
  {
    DecimalReadsBack(if n >= 0 then n else -n);
  }

  lemma {:induction false} AmountIsPlain(whole: int, part: int)
    ensures forall c :: c in Amount(whole, part) ==> Plain(c)
  {
    SignedIsPlain(whole);
    SignedIsPlain(part);
  }

  /** A printed text reaches the amount parser unchanged, without its dollar sign. */
  lemma {:induction false} PrintedParses(amount: string)
    requires forall c :: c in amount ==> Plain(c)
    ensures ParseDollarCents("$" + amount) == ParseAmount(amount)
  {
    PrintedSurvives("$" + amount);
    assert ("$" + amount)[1..] == amount;
  }

  lemma {:induction false} TwoDigitsReadsBack(n: nat)
    requires n < 100
    ensures AllDigits(TwoDigits(n)) && |TwoDigits(n)| == 2 && Value(TwoDigits(n)) == n
  {
    DecimalReadsBack(n);
    if n < 10 {
      ValueSnoc("", '0');
      ValueSnoc("0", Digit(n));
      assert "0" + [Digit(n)] == TwoDigits(n) && "" + ['0'] == "0";
    } else {
      DecimalLength(n, 2);
      DecimalLength(n, 1);
      Powers();
      assert Power10(1) == 10 * Power10(0);
    }
  }

  lemma {:induction false} AmountReadsBack(whole: nat, part: nat)
    requires part < 100
    ensures ParseAmount(Amount(whole, part)) == if whole < 1_000_000_000 then Some(whole * 100 + part) else None
  {
    DecimalReadsBack(whole);
    DecimalLength(whole, 9);
    Powers();
    ValueOfZeros();
    if part != 0 { TwoDigitsReadsBack(part); }
    var fraction := if part == 0 then "" else TwoDigits(part);
    if whole < 1_000_000_000 {
      AmountOf(Decimal(whole), fraction);
    } else {
      LeadingDigitsOf(Decimal(whole), if part == 0 then "" else "." + fraction);
    }
  }

  /** A minus sign, in front or behind the point, is never parsed. */
  lemma {:induction false} NegativeIsRefused(whole: int, part: int)
    requires (whole < 0 && part <= 0) || (whole == 0 && part < 0)
    ensures ParseAmount(Amount(whole, part)) == None
  {
    SignedIsPlain(whole);
    SignedIsPlain(part);
    if whole == 0 {
      var tail := "." + TwoDigits(part);
      LeadingDigitsOf("0", tail);
      assert Amount(whole, part) == "0" + tail && ("0" + tail)[1..] == tail;
      assert tail[1..] == Signed(part) && Signed(part)[0] in tail[1..];
    } else {
      assert LeadingDigits(Amount(whole, part)) == "";
    }
  }

  lemma {:induction false} TruncatedParts(cents: int)
    ensures cents >= 0 ==> Quo(cents, 100) >= 0 && 0 <= Rem(cents, 100) < 100
    ensures cents >= 0 ==> Quo(cents, 100) * 100 + Rem(cents, 100) == cents
    ensures cents >= 0 ==> (Quo(cents, 100) < 1_000_000_000 <==> cents < 100_000_000_000)
    ensures cents < 0 ==> (Quo(cents, 100) < 0 && Rem(cents, 100) <= 0) || (Quo(cents, 100) == 0 && Rem(cents, 100) < 0)
  {
  }

  lemma {:induction false} FormatParses(cents: int)
    ensures ParseDollarCents(FormatDollars(cents)) == ParseAmount(Amount(Quo(cents, 100), Rem(cents, 100)))
  {
    AmountIsPlain(Quo(cents, 100), Rem(cents, 100));
    PrintedParses(Amount(Quo(cents, 100), Rem(cents, 100)));
  }

  lemma {:induction false} PartsReadBack(whole: nat, part: nat, cents: int)
    requires part < 100 && whole * 100 + part == cents
    requires whole < 1_000_000_000 <==> cents < 100_000_000_000
    ensures ParseAmount(Amount(whole, part)) == if cents < 100_000_000_000 then Some(cents) else None
  {
    AmountReadsBack(whole, part);
  }

  lemma {:induction false} AmountRoundTrip(cents: int)
    ensures ParseAmount(Amount(Quo(cents, 100), Rem(cents, 100)))
         == if 0 <= cents < 100_000_000_000 then Some(cents) else None
  {
    TruncatedParts(cents);
    if cents >= 0 {
      PartsReadBack(Quo(cents, 100), Rem(cents, 100), cents);
    } else {
      NegativeIsRefused(Quo(cents, 100), Rem(cents, 100));
    }
  }

  /** Printing then parsing gives an amount back exactly when it is not negative and below ten to the eleven. */
  lemma {:induction false} RoundTripExactly(cents: int)
    ensures ParseDollarCents(FormatDollars(cents)) == (if 0 <= cents < 100_000_000_000 then Some(cents) else None)
  {
    FormatParses(cents);
    AmountRoundTrip(cents);
  }

  // ---------------------------------------------------------------- what the parts mean

  /** Commas do not matter, wherever they stand. */
  lemma {:induction false} CommasDoNotMatter(a: string, b: string)
    ensures WithoutCommas(a + "," + b) == WithoutCommas(a + b)
    decreases |a|
  {
    if a == "" {
      assert a + "," + b == "," + b && ("," + b)[1..] == b && a + b == b;
    } else {
      assert (a + "," + b)[1..] == a[1..] + "," + b && (a + b)[1..] == a[1..] + b;
      CommasDoNotMatter(a[1..], b);
    }
  }

  /** The written-out language: a dollar sign or none, digits, and a point only before one or two digits. */
  lemma {:induction false} DenotesExactly(text: string, whole: string, fraction: string)
    requires AllDigits(whole) && AllDigits(fraction) && 1 <= |whole| <= 9 && |fraction| <= 2
    ensures var body := whole + if fraction == "" then "" else "." + fraction;
            Denotes(text, whole, fraction) <==> text == body || text == "$" + body
  {
    var body := whole + if fraction == "" then "" else "." + fraction;
    assert body[0] == whole[0] && whole[0] in whole && !IsDigit('$');
    if text != "" && text[0] == '$' { assert text == "$" + text[1..]; }
    assert ("$" + body)[1..] == body;
  }

  /** The cents of an amount are its digits, read as one number and shifted by the point. */
  lemma {:induction false} CentsMean(whole: string, fraction: string)
    requires AllDigits(whole) && AllDigits(fraction) && |fraction| <= 2
    ensures AllDigits(whole + fraction) && Cents(whole, fraction) * Power10(|fraction|) == Value(whole + fraction) * 100
  {
    ValueOfZeros();
    assert Power10(1) == 10 * Power10(0) && Power10(2) == 10 * Power10(1);
    if fraction == "" {
      assert whole + fraction == whole;
    } else if |fraction| == 1 {
      OneDigit(whole, fraction);
    } else {
      TwoMoreDigits(whole, fraction);
    }
  }

  lemma {:induction false} OneDigit(whole: string, fraction: string)
    requires AllDigits(whole) && AllDigits(fraction) && |fraction| == 1
    ensures AllDigits(whole + fraction) && AllDigits(Padded(fraction))
    ensures Value(whole + fraction) == Value(whole) * 10 + DigitValue(fraction[0])
    ensures Value(Padded(fraction)) == DigitValue(fraction[0]) * 10
  {
    var c := fraction[0];
    assert c in fraction && fraction == [c];
    ValueSnoc(whole, c);
    ValueSnoc("", c);
    ValueSnoc([c], '0');
    assert "" + [c] == [c] && [c] + ['0'] == Padded(fraction);
  }

  lemma {:induction false} TwoMoreDigits(whole: string, fraction: string)
    requires AllDigits(whole) && AllDigits(fraction) && |fraction| == 2
    ensures AllDigits(whole + fraction) && Value(whole + fraction) == Value(whole) * 100 + Value(fraction)
  {
    var c, d := fraction[0], fraction[1];
    assert c in fraction && d in fraction && fraction == [c, d];
    ValueSnoc(whole, c);
    ValueSnoc(whole + [c], d);
    ValueSnoc("", c);
    ValueSnoc([c], d);
    assert "" + [c] == [c] && [c] + [d] == fraction && (whole + [c]) + [d] == whole + fraction;
  }

  /** The quotient is cut toward zero: what is left has the sign of the amount and is less than a dollar. */
  lemma {:induction false} TruncatedExactly(cents: int)
    ensures Quo(cents, 100) * 100 + Rem(cents, 100) == cents && -100 < Rem(cents, 100) < 100
    ensures cents >= 0 ==> Rem(cents, 100) >= 0
    ensures cents <= 0 ==> Rem(cents, 100) <= 0
  {
  }

  /**
   An amount that is not negative is printed as a dollar sign, the whole dollars without leading zeros,
   and a point with exactly two digits when there are cents.
   */
  lemma {:induction false} FormatExactly(cents: nat) returns (whole: string, part: string)
    ensures FormatDollars(cents) == "$" + whole + if cents % 100 == 0 then "" else "." + part
    ensures AllDigits(whole) && whole != "" && Value(whole) == cents / 100 && (whole[0] == '0' ==> |whole| == 1)
    ensures cents % 100 != 0 ==> AllDigits(part) && |part| == 2 && Value(part) == cents % 100
  {
    var n, rest := cents / 100, cents % 100;
    whole, part := Decimal(n), TwoDigits(rest);
    DecimalReadsBack(n);
    NoLeadingZero(n);
    if rest != 0 { TwoDigitsReadsBack(rest); }
    assert Quo(cents, 100) == n && Rem(cents, 100) == rest;
    assert "$" + (whole + (if rest == 0 then "" else "." + part)) == "$" + whole + if rest == 0 then "" else "." + part;
  }

  lemma {:induction false} NoLeadingZero(n: nat)
    ensures Decimal(n) != "" && (Decimal(n)[0] == '0' ==> n == 0)
    decreases n
  {
    if n >= 10 { NoLeadingZero(n / 10); }
  }

  /** A negative amount keeps its sign: before the dollars, or before the cents when the dollars are none. */
  lemma {:induction false} NegativeFormat(cents: int)
    requires cents < 0
    ensures cents <= -100 ==> "$-" <= FormatDollars(cents)
    ensures -100 < cents ==> "$0.-" <= FormatDollars(cents)
  {
    TruncatedExactly(cents);
    var q, r := Quo(cents, 100), Rem(cents, 100);
    if cents <= -100 {
      assert q < 0 && Amount(q, r)[0] == '-';
    } else {
      assert q == 0 && r == cents && Amount(q, r) == "0" + ("." + ("-" + Decimal(-r)));
    }
  }
}
