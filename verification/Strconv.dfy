/** Go's strconv.Atoi and strconv.ParseBool, with the value each returns beside an error, and strconv.Itoa. */
module Strconv {

  const MAX_UINT64: int := 0xFFFF_FFFF_FFFF_FFFF
  const MAX_INT64: int := 0x7FFF_FFFF_FFFF_FFFF
  const MIN_INT64: int := -0x8000_0000_0000_0000

  datatype Scan = SyntaxError | RangeError | Value(n: int)

  /** Digits are read left to right; leaving the range of uint64 ends the scan, whatever follows. */
  function ScanDigits(s: string, n: nat): (r: Scan)
    ensures r.Value? ==> r.n >= n
  {
    if s == "" then Value(n)
    else if !('0' <= s[0] <= '9') then SyntaxError
    else
      var next := 10 * n + (s[0] as int - '0' as int);
      if next > MAX_UINT64 then RangeError else ScanDigits(s[1..], next)
  }

  datatype Number = Number(value: int, ok: bool)

  /** A syntax error yields 0, a range error the nearest int64. */
  function Atoi(s: string): (r: Number)
    ensures MIN_INT64 <= r.value <= MAX_INT64
  {
    var signed := s != "" && (s[0] == '-' || s[0] == '+');
    var negative := signed && s[0] == '-';
    var digits := if signed then s[1..] else s;
    if digits == "" then Number(0, false)
    else
      match ScanDigits(digits, 0)
      case SyntaxError => Number(0, false)
      case RangeError => Number(if negative then MIN_INT64 else MAX_INT64, false)
      case Value(n) =>
        if negative then
          if -n < MIN_INT64 then Number(MIN_INT64, false) else Number(-n, true)
        else
          if n > MAX_INT64 then Number(MAX_INT64, false) else Number(n, true)
  }

  lemma AtoiOfOne(c: char)
    requires '0' <= c <= '9'
    ensures Atoi([c]) == Number(c as int - '0' as int, true)
  {
    var s := [c];
    assert s[1..] == "";
    assert ScanDigits(s, 0) == ScanDigits(s[1..], c as int - '0' as int);
  }

  lemma AtoiOfTwo(c: char, d: char)
    requires '0' <= c <= '9'
    ensures Atoi([c, d]) ==
            if '0' <= d <= '9' then Number(10 * (c as int - '0' as int) + (d as int - '0' as int), true)
            else Number(0, false)
  {
    var s := [c, d];
    var tens := c as int - '0' as int;
    assert s[1..] == [d] && s[1..][1..] == "";
    assert ScanDigits(s, 0) == ScanDigits(s[1..], tens);
    if '0' <= d <= '9' {
      assert ScanDigits(s[1..], tens) == ScanDigits(s[1..][1..], 10 * tens + (d as int - '0' as int));
    }
  }

  // ----- which number a text denotes -----

  predicate IsDigit(c: char) {
    '0' <= c <= '9'
  }

  predicate Digits(s: string) {
    forall i | 0 <= i < |s| :: IsDigit(s[i])
  }

  /** The number a decimal text denotes: its last digit is worth 1, the text before it ten times as much. */
  function Denoted(s: string): nat
    requires Digits(s)
  {
    if s == "" then 0 else 10 * Denoted(s[..|s| - 1]) + (s[|s| - 1] as int - '0' as int)
  }

  lemma DenotedOneMore(s: string, c: char)
    requires Digits(s) && IsDigit(c)
    ensures Digits(s + [c]) && Denoted(s + [c]) == 10 * Denoted(s) + (c as int - '0' as int)
  {
    assert (s + [c])[..|s|] == s;
  }

  lemma {:induction false} LongerDenotesMore(s: string, more: string)
    requires Digits(s) && Digits(more)
    ensures Digits(s + more) && Denoted(s) <= Denoted(s + more)
    decreases |more|
  {
    if more == "" {
      assert s + more == s;
    } else {
      var front, c := more[..|more| - 1], more[|more| - 1];
      LongerDenotesMore(s, front);
      DenotedOneMore(s + front, c);
      assert s + more == s + front + [c];
    }
  }

  /** After `before` the scan takes in `digits` and goes on with `tail`, unless uint64 is left on the way. */
  lemma {:induction false} ScanTakesIn(before: string, digits: string, tail: string)
    requires Digits(before) && Digits(digits) && Denoted(before) <= MAX_UINT64
    ensures Digits(before + digits)
    ensures ScanDigits(digits + tail, Denoted(before)) ==
            if Denoted(before + digits) > MAX_UINT64 then RangeError else ScanDigits(tail, Denoted(before + digits))
    decreases |digits|
  {
    if digits == "" {
      assert before + digits == before && digits + tail == tail;
    } else {
      var next := before + [digits[0]];
      DenotedOneMore(before, digits[0]);
      assert before + digits == next + digits[1..] && (digits + tail)[1..] == digits[1..] + tail;
      LongerDenotesMore(next, digits[1..]);
      if Denoted(next) <= MAX_UINT64 {
        ScanTakesIn(next, digits[1..], tail);
      }
    }
  }

  function SignOf(s: string): string {
    if s != "" && (s[0] == '-' || s[0] == '+') then [s[0]] else ""
  }

  function LeadingDigits(s: string): (r: string)
    ensures Digits(r) && r <= s && (|r| < |s| ==> !IsDigit(s[|r|]))
  {
    if s == "" || !IsDigit(s[0]) then "" else [s[0]] + LeadingDigits(s[1..])
  }

  function Clamp(n: int): int {
    if n < MIN_INT64 then MIN_INT64 else if n > MAX_INT64 then MAX_INT64 else n
  }

  lemma ScanReadsLeadingDigits(text: string)
    ensures var digits := LeadingDigits(text);
            ScanDigits(text, 0) == if Denoted(digits) > MAX_UINT64 then RangeError
                                   else if digits == text then Value(Denoted(digits))
                                   else SyntaxError
  {
    var digits := LeadingDigits(text);
    var tail := text[|digits|..];
    assert text == digits + tail && "" + digits == digits;
    ScanTakesIn("", digits, tail);
  }

  /**
   What Atoi makes of any text: behind an optional sign, a decimal number gives the nearest int64, and
   an error when it is another one; any other text is an error with 0, unless its leading digits
   already leave uint64.
   */
  lemma AtoiReadsDecimals(s: string)
    ensures var sign := SignOf(s);
            var digits := LeadingDigits(s[|sign|..]);
            var n: int := if sign == "-" then 0 - Denoted(digits) else Denoted(digits);
            Atoi(s) ==
              if digits == s[|sign|..] && digits != "" then Number(Clamp(n), Clamp(n) == n)
              else Number(if Denoted(digits) > MAX_UINT64 then Clamp(n) else 0, false)
  {
    var text := s[|SignOf(s)|..];
    assert s[0..] == s;
    ScanReadsLeadingDigits(text);
  }

  function DecimalDigit(n: nat): char
    requires n < 10
  {
    ('0' as int + n) as char
  }

  function Decimal(n: nat): string {
    if n < 10 then [DecimalDigit(n)] else Decimal(n / 10) + [DecimalDigit(n % 10)]
  }

  function Itoa(n: int): string {
    if n < 0 then "-" + Decimal(-n) else Decimal(n)
  }

  lemma {:induction false} DecimalDenotes(n: nat)
    ensures Digits(Decimal(n)) && Decimal(n) != "" && Denoted(Decimal(n)) == n
  {
    if n < 10 {
      DenotedOneMore("", DecimalDigit(n));
      assert "" + [DecimalDigit(n)] == [DecimalDigit(n)];
    } else {
      DecimalDenotes(n / 10);
      DenotedOneMore(Decimal(n / 10), DecimalDigit(n % 10));
    }
  }

  lemma {:induction false} AllDigitsLead(s: string)
    requires Digits(s)
    ensures LeadingDigits(s) == s
  {
    if s != "" {
      AllDigitsLead(s[1..]);
    }
  }

  lemma SignedText(sign: string, text: string)
    requires sign == "" || sign == "-"
    requires text != "" && IsDigit(text[0])
    ensures SignOf(sign + text) == sign && (sign + text)[|sign|..] == text
  {
    assert (sign + text)[0] == if sign == "" then text[0] else '-';
  }

  /** Reading back a written number gives the number, or the nearest int64 and an error. */
  lemma AtoiInvertsItoa(n: int)
    ensures Atoi(Itoa(n)) == Number(Clamp(n), MIN_INT64 <= n <= MAX_INT64)
  {
    var sign, m := if n < 0 then "-" else "", if n < 0 then -n else n;
    DecimalDenotes(m);
    AllDigitsLead(Decimal(m));
    SignedText(sign, Decimal(m));
    assert Itoa(n) == sign + Decimal(m);
    AtoiReadsDecimals(Itoa(n));
  }

  // ----- the one decimal text of a number -----

  /** Digits without a leading zero, except zero itself. */
  predicate Shortest(s: string) {
    s != "" && Digits(s) && (s[0] == '0' ==> |s| == 1)
  }

  lemma {:induction false} DecimalIsShortest(n: nat)
    ensures Shortest(Decimal(n)) && (n > 0 ==> Decimal(n)[0] != '0')
  {
    if n >= 10 {
      DecimalIsShortest(n / 10);
    }
    DecimalDenotes(n);
  }

  lemma {:induction false} ShortestIsDecimal(s: string)
    requires Shortest(s)
    ensures Decimal(Denoted(s)) == s && (s[0] != '0' ==> Denoted(s) > 0)
  {
    var front, d := s[..|s| - 1], s[|s| - 1] as int - '0' as int;
    assert s == front + [s[|s| - 1]];
    if front != "" {
      ShortestIsDecimal(front);
    }
    assert DecimalDigit(d) == s[|s| - 1];
    assert Denoted(s) == 10 * Denoted(front) + d;
  }

  /** Itoa writes the shortest digits of the absolute value, behind a minus sign for negative numbers only. */
  lemma ItoaIsShortest(n: int, s: string)
    ensures Itoa(n) == s <==>
            if n < 0 then s != "" && s[0] == '-' && Shortest(s[1..]) && Denoted(s[1..]) == -n
            else Shortest(s) && Denoted(s) == n
  {
    var m: nat := if n < 0 then -n else n;
    DecimalIsShortest(m);
    DecimalDenotes(m);
    var digits := if n < 0 && s != "" then s[1..] else s;
    if Shortest(digits) {
      ShortestIsDecimal(digits);
    }
    assert n < 0 && s != "" && s[0] == '-' ==> s == "-" + s[1..];
  }

  // ----- booleans -----

  /** Text that is not a boolean yields false. */
  predicate ParseBool(s: string) {
    s in {"1", "t", "T", "TRUE", "true", "True"}
  }

  function Upper(s: string): string
    requires forall i | 0 <= i < |s| :: 'a' <= s[i] <= 'z'
  {
    seq(|s|, i requires 0 <= i < |s| => (s[i] as int - 32) as char)
  }

  /** A word in small letters, in capital letters or with one capital. */
  predicate Spells(s: string, word: string)
    requires word != "" && forall i | 0 <= i < |word| :: 'a' <= word[i] <= 'z'
  {
    s == word || s == Upper(word) || s == Upper(word[..1]) + word[1..]
  }

  /** True is the digit 1, and the words t and true in each of their spellings. */
  lemma ParseBoolReads(s: string)
    ensures ParseBool(s) <==> s == "1" || Spells(s, "t") || Spells(s, "true")
  {
    assert Upper("t") == "T";
    assert Upper("true") == "TRUE";
    assert "t"[..1] == "t" && "true"[..1] == "t";
    assert "T" + "t"[1..] == "T";
    assert "T" + "true"[1..] == "True";
  }
}
