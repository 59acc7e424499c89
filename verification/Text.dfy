/** The string operations of Go's standard library that the models share. */
module Text {

  // ---------------------------------------------------------------- white space

  /** unicode.IsSpace: the characters with Unicode's White_Space property. */
  predicate IsSpace(c: char) {
    var n := c as int;
    || (9 <= n <= 13) || n == 32 || n == 0x85 || n == 0xA0 || n == 0x1680
    || (0x2000 <= n <= 0x200A) || n == 0x2028 || n == 0x2029 || n == 0x202F || n == 0x205F || n == 0x3000
  }

  function TrimLeft(s: string): string {
    if s != "" && IsSpace(s[0]) then TrimLeft(s[1..]) else s
  }

  function TrimRight(s: string): string {
    if s != "" && IsSpace(s[|s| - 1]) then TrimRight(s[..|s| - 1]) else s
  }

  function TrimSpace(s: string): string {
    TrimRight(TrimLeft(s))
  }

  lemma {:induction false} TrimSpaceOfTrimmed(s: string)
    requires s != "" && !IsSpace(s[0]) && !IsSpace(s[|s| - 1])
    ensures TrimSpace(s) == s
  {
  }

  /** Trimming keeps a contiguous part: nothing is added. */
  lemma {:induction false} TrimLeftIsSuffix(s: string)
    ensures |TrimLeft(s)| <= |s| && TrimLeft(s) == s[|s| - |TrimLeft(s)|..]
    decreases |s|
  {
    if s != "" && IsSpace(s[0]) { TrimLeftIsSuffix(s[1..]); }
  }

  lemma {:induction false} TrimRightIsPrefix(s: string)
    ensures TrimRight(s) <= s
    decreases |s|
  {
    if s != "" && IsSpace(s[|s| - 1]) { TrimRightIsPrefix(s[..|s| - 1]); }
  }

  lemma {:induction false} TrimSpaceAddsNothing(s: string)
    ensures |TrimSpace(s)| <= |s| && forall c :: c in TrimSpace(s) ==> c in s
  {
    TrimLeftIsSuffix(s);
    TrimRightIsPrefix(TrimLeft(s));
  }

  /** Trimming takes white space from both ends, and all of it. */
  lemma {:induction false} TrimSpaceTakes(s: string) returns (front: string, back: string)
    ensures s == front + TrimSpace(s) + back
    ensures (forall c :: c in front ==> IsSpace(c)) && (forall c :: c in back ==> IsSpace(c))
    ensures TrimSpace(s) != "" ==> !IsSpace(TrimSpace(s)[0]) && !IsSpace(TrimSpace(s)[|TrimSpace(s)| - 1])
  {
    front := TrimLeftTakes(s);
    back := TrimRightTakes(TrimLeft(s));
    var t := TrimSpace(s);
    if t != "" { assert TrimLeft(s)[0] == t[0]; }
    assert s == front + (t + back);
  }

  lemma {:induction false} TrimLeftTakes(s: string) returns (front: string)
    ensures s == front + TrimLeft(s) && forall c :: c in front ==> IsSpace(c)
    ensures TrimLeft(s) != "" ==> !IsSpace(TrimLeft(s)[0])
    decreases |s|
  {
    if s != "" && IsSpace(s[0]) {
      var rest := TrimLeftTakes(s[1..]);
      front := [s[0]] + rest;
      assert s == [s[0]] + s[1..];
    } else {
      front := "";
    }
  }

  lemma {:induction false} TrimRightTakes(s: string) returns (back: string)
    ensures s == TrimRight(s) + back && forall c :: c in back ==> IsSpace(c)
    ensures TrimRight(s) != "" ==> !IsSpace(TrimRight(s)[|TrimRight(s)| - 1])
    decreases |s|
  {
    if s != "" && IsSpace(s[|s| - 1]) {
      var rest := TrimRightTakes(s[..|s| - 1]);
      back := rest + [s[|s| - 1]];
      assert s == s[..|s| - 1] + [s[|s| - 1]];
    } else {
      back := "";
    }
  }

  // ---------------------------------------------------------------- splitting

  /** strings.Split at one character: never empty, the pieces contain no separator. */
  function Split(s: string, sep: char): (r: seq<string>)
    ensures |r| > 0
  {
    if s == "" then [""]
    else if s[0] == sep then [""] + Split(s[1..], sep)
    else
      var rest := Split(s[1..], sep);
      [[s[0]] + rest[0]] + rest[1..]
  }

  lemma {:induction false} SplitPieces(s: string, sep: char)
    ensures forall i :: 0 <= i < |Split(s, sep)| ==> sep !in Split(s, sep)[i]
    decreases |s|
  {
    if s != "" { SplitPieces(s[1..], sep); }
  }

  /** A piece without separator, then a separator: the split continues with the rest. */
  lemma {:induction false} SplitAfterPiece(line: string, rest: string, sep: char)
    requires sep !in line
    ensures Split(line + [sep] + rest, sep) == [line] + Split(rest, sep)
    decreases |line|
  {
    var all := line + [sep] + rest;
    if line == "" {
      assert all[1..] == rest;
    } else {
      assert all[1..] == line[1..] + [sep] + rest;
      assert all[0] == line[0] && line[0] in line;
      forall c | c in line[1..] ensures c in line { }
      SplitAfterPiece(line[1..], rest, sep);
      assert line == [line[0]] + line[1..];
    }
  }

  lemma {:induction false} SplitOfPiece(line: string, sep: char)
    requires sep !in line
    ensures Split(line, sep) == [line]
    decreases |line|
  {
    if line != "" {
      assert line[0] in line;
      forall c | c in line[1..] ensures c in line { }
      SplitOfPiece(line[1..], sep);
      assert line == [line[0]] + line[1..];
    }
  }

  // ---------------------------------------------------------------- decimal numbers

  predicate IsDigit(c: char) {
    '0' <= c <= '9'
  }

  predicate AllDigits(s: string) {
    forall c :: c in s ==> IsDigit(c)
  }

  function DigitValue(c: char): nat
    requires IsDigit(c)
  {
    c as int - '0' as int
  }

  function Digit(d: nat): char
    requires d < 10
  {
    (d + '0' as int) as char
  }

  const DIGITS := "0123456789"

  /** Digits stand for what they are. */
  lemma {:induction false} DigitsAre(d: nat)
    requires d < 10
    ensures |DIGITS| == 10 && Digit(d) == DIGITS[d] && IsDigit(DIGITS[d]) && DigitValue(DIGITS[d]) == d
  {
  }

  /** strconv's base-10 form, without a sign or leading zeros. */
  function Decimal(n: nat): string {
    if n < 10 then [Digit(n)] else Decimal(n / 10) + [Digit(n % 10)]
  }

  /** The number a digit string denotes; leading zeros are allowed. */
  function Value(s: string): nat
    requires AllDigits(s)
  {
    if s == "" then 0 else
      assert forall c :: c in s[..|s| - 1] ==> c in s;
      Value(s[..|s| - 1]) * 10 + DigitValue(s[|s| - 1])
  }

  function Power10(k: nat): nat {
    if k == 0 then 1 else 10 * Power10(k - 1)
  }

  lemma {:induction false} ValueSnoc(s: string, c: char)
    requires AllDigits(s) && IsDigit(c)
    ensures AllDigits(s + [c]) && Value(s + [c]) == Value(s) * 10 + DigitValue(c)
  {
    assert (s + [c])[..|s|] == s;
  }

  lemma {:induction false} DecimalReadsBack(n: nat)
    ensures |Decimal(n)| > 0 && AllDigits(Decimal(n)) && Value(Decimal(n)) == n
  {
    if n < 10 {
      assert Decimal(n) == "" + [Digit(n)];
      ValueSnoc("", Digit(n));
    } else {
      DecimalReadsBack(n / 10);
      ValueSnoc(Decimal(n / 10), Digit(n % 10));
    }
  }

  /** A number has at most k digits exactly when it is below ten to the k. */
  lemma {:induction false} DecimalLength(n: nat, k: nat)
    requires k > 0
    ensures |Decimal(n)| <= k <==> n < Power10(k)
    decreases k
  {
    if n >= 10 {
      DecimalReadsBack(n / 10);
      if k > 1 { DecimalLength(n / 10, k - 1); } else { assert Power10(1) == 10 * Power10(0); }
    } else {
      Power10Grows(k);
    }
  }

  lemma {:induction false} Power10Grows(k: nat)
    requires k > 0
    ensures Power10(k) >= 10
  {
    if k > 1 { Power10Grows(k - 1); } else { assert Power10(1) == 10 * Power10(0); }
  }

  lemma {:induction false} ShiftedBound(v: nat, p: nat, d: nat)
    requires v < p && d < 10
    ensures v * 10 + d < 10 * p
  {
  }

  lemma {:induction false} ValueBound(s: string)
    requires AllDigits(s)
    ensures Value(s) < Power10(|s|)
    decreases |s|
  {
    if s != "" {
      assert forall c :: c in s[..|s| - 1] ==> c in s;
      var init := s[..|s| - 1];
      ValueBound(init);
      assert Value(s) == Value(init) * 10 + DigitValue(s[|s| - 1]);
      assert Power10(|s|) == 10 * Power10(|init|);
      ShiftedBound(Value(init), Power10(|init|), DigitValue(s[|s| - 1]));
    }
  }
}
