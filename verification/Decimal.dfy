/** Decimal text: the printer of lib/vga.c and the parser of lib/kutils.c, over C strings. */
module Decimal {

  /** A signed 8-bit char. */
  type CChar = x: int | -128 <= x < 128

  const INT_MAX: int := 0x7FFFFFFF
  const INT_MIN: int := -0x80000000
  const ZERO: CChar := 48
  const MINUS: CChar := 45

  // ---------------------------------------------------------------------------------------
  // Numerals
  // ---------------------------------------------------------------------------------------

  /** The decimal numeral of n, highest digit first. */
  function Digits(n: nat): (s: seq<CChar>)
    ensures s != []
  {
    if n < 10 then [n + 48] else Digits(n / 10) + [n % 10 + 48]
  }

  function Text(v: int): seq<CChar> {
    if v < 0 then [MINUS] + Digits(-v) else Digits(v)
  }

  predicate IsDigit(c: CChar) {
    ZERO <= c <= 57
  }

  predicate AllDigits(s: seq<CChar>) {
    forall i | 0 <= i < |s| :: IsDigit(s[i])
  }

  /** What a left-to-right reading of s in base ten gives, whatever its characters. */
  function Value(s: seq<CChar>): int {
    if s == [] then 0 else Value(s[..|s| - 1]) * 10 + (s[|s| - 1] as int - 48)
  }

  lemma ValueSnoc(s: seq<CChar>, c: CChar)
    ensures Value(s + [c]) == Value(s) * 10 + (c as int - 48)
  {
    assert (s + [c])[..|s|] == s;
  }

  lemma DigitsStep(q: nat, r: nat)
    requires q > 0 && r < 10
    ensures Digits(q * 10 + r) == Digits(q) + [r + 48]
  {
  }

  lemma DigitValue(c: CChar)
    ensures Value([c]) == c as int - 48
  {
    assert [c] == [] + [c];
    ValueSnoc([], c);
  }

  /** Reading what was printed. */
  lemma {:induction false} ReadDigits(n: nat)
    ensures Value(Digits(n)) == n && AllDigits(Digits(n))
  {
    hide Value;
    if n < 10 {
      DigitValue(n + 48);
    } else {
      var q, r := n / 10, n % 10;
      ReadDigits(q);
      ValueSnoc(Digits(q), r + 48);
    }
  }

  /** A numeral without needless zeros. */
  predicate Canonical(s: seq<CChar>) {
    s != [] && AllDigits(s) && (|s| > 1 ==> s[0] != ZERO)
  }

  lemma {:induction false} ValueAtLeast(s: seq<CChar>)
    requires AllDigits(s)
    ensures Value(s) >= 0 && (Canonical(s) && s[0] != ZERO ==> Value(s) >= 1)
  {
    if s != [] { ValueAtLeast(s[..|s| - 1]); }
  }

  /** Printing what was read: canonical numerals are exactly the printed ones. */
  lemma {:induction false} PrintValue(s: seq<CChar>)
    requires Canonical(s)
    ensures Value(s) >= 0 && Digits(Value(s)) == s
  {
    ValueAtLeast(s);
    var p := s[..|s| - 1];
    if |s| > 1 {
      PrintValue(p);
      ValueAtLeast(p);
      assert s == p + [s[|s| - 1]];
    } else {
      assert Value(p) == 0;
      assert s == [s[0]];
    }
  }

  lemma {:induction false} DigitsCanonical(n: nat)
    ensures Canonical(Digits(n)) && (n > 0 ==> Digits(n)[0] != ZERO)
  {
    ReadDigits(n);
    if n >= 10 { DigitsCanonical(n / 10); }
  }

  function Pow10(k: nat): nat {
    if k == 0 then 1 else 10 * Pow10(k - 1)
  }

  lemma {:induction false} DigitsLength(n: nat, k: nat)
    requires k >= 1
    ensures |Digits(n)| <= k <==> n < Pow10(k)
  {
    if k == 1 {
      assert Pow10(1) == 10;
    } else if n >= 10 {
      DigitsLength(n / 10, k - 1);
    } else {
      PowGrows(k);
    }
  }

  lemma {:induction false} PowGrows(k: nat)
    requires k >= 1
    ensures Pow10(k) >= 10
  {
    if k > 1 { PowGrows(k - 1); }
  }

  /** Every int prints in at most eleven characters. */
  lemma TextFits(v: int)
    requires INT_MIN <= v <= INT_MAX
    ensures |Text(v)| <= 11
  {
    DigitsLength(if v < 0 then -v else v, 10);
    assert Pow10(10) == 10000000000 by { Pow10Ten(); }
  }

  lemma Pow10Ten()
    ensures Pow10(10) == 10000000000
  {
    assert Pow10(5) == 100000;
  }

  // ---------------------------------------------------------------------------------------
  // The round trip
  // ---------------------------------------------------------------------------------------

  lemma {:induction false} ValueAppend(s: seq<CChar>, t: seq<CChar>)
    ensures Value(s + t) == Value(s) * Pow10(|t|) + Value(t)
  {
    if t == [] {
      assert s + t == s;
    } else {
      var u, c := t[..|t| - 1], t[|t| - 1];
      ValueAppend(s, u);
      assert s + t == s + u + [c];
      ValueSnoc(s + u, c);
      Distribute(Value(s), Pow10(|u|), Value(u));
    }
  }

  lemma Distribute(a: int, b: int, c: int)
    ensures (a * b + c) * 10 == a * (10 * b) + c * 10
  {
  }

  /** Printed text is all digits, and its base-ten reading is the number printed, exactly from 0 up. */
  lemma RoundTrip(v: int)
    ensures AllDigits(Text(v)) <==> v >= 0
    ensures Value(Text(v)) == v <==> v >= 0
  {
    hide Value, Digits;
    if v >= 0 {
      ReadDigits(v);
    } else {
      assert Text(v)[0] == MINUS;
      NegativeText(v);
    }
  }

  /** A negative number reads back as its absolute value less three times a larger power of ten. */
  lemma NegativeText(v: int)
    requires v < 0
    ensures var p := Pow10(|Digits(-v)|); Value(Text(v)) == -3 * p - v && -v < p
  {
    hide Value, Digits, Pow10;
    ReadDigits(-v);
    DigitValue(MINUS);
    ValueAppend([MINUS], Digits(-v));
    DigitsLength(-v, |Digits(-v)|);
  }

  /**
   * The text of v is the numeral of v and nothing else: no needless zero, and a minus sign exactly
   * for a negative number.
   */
  lemma TextExactly(s: seq<CChar>, v: int)
    ensures s == Text(v) <==>
            || (v >= 0 && Canonical(s) && Value(s) == v)
            || (v < 0 && s != [] && s[0] == 45 && Canonical(s[1..]) && Value(s[1..]) == -v)
  {
    hide Value, Digits, Canonical;
    var n := if v < 0 then -v else v;
    DigitsCanonical(n);
    ReadDigits(n);
    if v >= 0 && Canonical(s) && Value(s) == v { PrintValue(s); }
    if v < 0 && s != [] && s[0] == 45 && Canonical(s[1..]) && Value(s[1..]) == -v {
      PrintValue(s[1..]);
      assert s == [s[0]] + s[1..];
    }
    assert ([MINUS] + Digits(n))[1..] == Digits(n);
  }

  /** Different numbers print differently. */
  lemma TextInjective(v: int, w: int)
    requires Text(v) == Text(w)
    ensures v == w
  {
    hide Value, Digits;
    RoundTrip(v);
    RoundTrip(w);
    if v < 0 {
      assert Digits(-v) == Text(v)[1..] == Text(w)[1..] == Digits(-w);
      ReadDigits(-v);
      ReadDigits(-w);
    }
  }

  // ---------------------------------------------------------------------------------------
  // C strings
  // ---------------------------------------------------------------------------------------

  /** The string that starts a buffer: what stands before the first terminator. */
  function CString(b: seq<CChar>): seq<CChar> {
    if b == [] || b[0] == 0 then [] else [b[0]] + CString(b[1..])
  }

  lemma {:induction false} CStringIs(b: seq<CChar>, k: nat)
    requires k < |b| && b[k] == 0 && forall i | 0 <= i < k :: b[i] != 0
    ensures CString(b) == b[..k]
  {
    if k > 0 {
      CStringIs(b[1..], k - 1);
      assert b[..k] == [b[0]] + b[1..][..k - 1];
    }
  }

  /** is_valid_number: nothing but digits before the terminator; the empty string passes. */
  method IsValidNumber(str: array<CChar>) returns (r: bool)
    requires 0 in str[..]
    ensures r <==> AllDigits(CString(str[..]))
  {
    var i := 0;
    ghost var end :| 0 <= end < str.Length && str[..][end] == 0;
    while str[i] != 0
      invariant 0 <= i <= end
      invariant forall j | 0 <= j < i :: str[j] != 0 && IsDigit(str[j])
      decreases end - i
    {
      if str[i] < ZERO || str[i] > 57 {
        NotDigits(str[..], i);
        return false;
      }
      i := i + 1;
    }
    CStringIs(str[..], i);
    return true;
  }

  lemma {:induction false} NotDigits(b: seq<CChar>, i: nat)
    requires i < |b| && !IsDigit(b[i]) && b[i] != 0 && forall j | 0 <= j < i :: b[j] != 0
    ensures !AllDigits(CString(b))
  {
    CStringPrefix(b, i);
    assert CString(b)[i] == b[i];
  }

  lemma {:induction false} CStringPrefix(b: seq<CChar>, i: nat)
    requires i < |b| && forall j | 0 <= j <= i :: b[j] != 0
    ensures i < |CString(b)| && CString(b)[i] == b[i]
  {
    if i > 0 { CStringPrefix(b[1..], i - 1); }
  }

  predicate IsInt(x: int) {
    INT_MIN <= x <= INT_MAX
  }

  /** No step of reading s leaves the range of int, where C gives signed arithmetic no meaning. */
  predicate NoOverflow(s: seq<CChar>) {
    s == [] || (NoOverflow(s[..|s| - 1]) && IsInt(Value(s[..|s| - 1]) * 10) && IsInt(Value(s)))
  }

  /** The product and the sum the loop computes at character i are ints. */
  predicate StepFits(s: seq<CChar>, i: nat)
    requires i < |s|
  {
    IsInt(Value(s[..i]) * 10) && IsInt(Value(s[..i + 1]))
  }

  /** No overflow means that every step of the loop fits. */
  lemma {:induction false} NoOverflowMeans(s: seq<CChar>)
    ensures NoOverflow(s) <==> forall i | 0 <= i < |s| :: StepFits(s, i)
  {
    hide Value, IsInt;
    if s != [] {
      var n := |s| - 1;
      var p := s[..n];
      NoOverflowMeans(p);
      assert s[..n + 1] == s;
      forall i | 0 <= i < n ensures StepFits(p, i) <==> StepFits(s, i) {
        assert p[..i] == s[..i] && p[..i + 1] == s[..i + 1];
      }
      assert StepFits(s, n) <==> IsInt(Value(p) * 10) && IsInt(Value(s));
    }
  }

  /** Over digits no step overflows exactly when the number itself is an int. */
  lemma {:induction false} DigitsOverflow(s: seq<CChar>)
    requires AllDigits(s)
    ensures NoOverflow(s) <==> Value(s) <= INT_MAX
  {
    ValueAtLeast(s);
    if s != [] {
      ValueAtLeast(s[..|s| - 1]);
      DigitsOverflow(s[..|s| - 1]);
    }
  }

  /** The C int a 32-bit machine makes of x. */
  function Wrap(x: int): int {
    (x - INT_MIN) % 0x1_0000_0000 + INT_MIN
  }

  lemma WrapInt(x: int)
    ensures IsInt(Wrap(x)) && (IsInt(x) ==> Wrap(x) == x)
  {
  }

  lemma WrapSame(x: int, k: int)
    ensures Wrap(x + 0x1_0000_0000 * k) == Wrap(x)
  {
    var y := x - INT_MIN;
    assert (y + 0x1_0000_0000 * k) % 0x1_0000_0000 == y % 0x1_0000_0000;
  }

  lemma WrapOff(x: int) returns (k: int)
    ensures x == Wrap(x) + 0x1_0000_0000 * k
  {
    k := (x - INT_MIN) / 0x1_0000_0000;
  }

  /** Wrapping at every step is wrapping the whole reading. */
  lemma WrapStep(x: int, d: int)
    ensures Wrap(Wrap(Wrap(x) * 10) + d) == Wrap(x * 10 + d)
  {
    hide Wrap;
    var k := WrapOff(x);
    var j := WrapOff(Wrap(x) * 10);
    WrapSame(Wrap(Wrap(x) * 10) + d, j + 10 * k);
  }

  /** The one negative number whose misread text wraps round to the number again. */
  const LUCKY: int := -2115098112

  lemma Pow10Nine()
    ensures Pow10(9) == 1000000000
  {
    assert Pow10(5) == 100000;
  }

  lemma {:induction false} PowMonotone(j: nat, k: nat)
    requires j <= k
    ensures Pow10(j) <= Pow10(k)
  {
    if j < k { PowMonotone(j, k - 1); }
  }

  /** The machine's reading of a negative number's text: only one of them comes back. */
  lemma NegativeReading(v: int)
    requires INT_MIN <= v < 0
    ensures Wrap(Value(Text(v))) == v <==> v == LUCKY
  {
    hide Value, Digits, Pow10, Text, Wrap;
    var k, p := |Digits(-v)|, Pow10(|Digits(-v)|);
    NegativeText(v);
    TextFits(v);
    LongText(v);
    if k <= 9 {
      PowMonotone(k, 9);
      Pow10Nine();
      WrapShort(v, p);
    } else {
      Pow10Ten();
      WrapLong(v);
    }
  }

  lemma LongText(v: int)
    requires v < 0
    ensures |Text(v)| == |Digits(-v)| + 1 && (|Digits(-v)| <= 9 ==> v != LUCKY)
  {
    hide Digits, Pow10;
    DigitsLength(-v, 9);
    Pow10Nine();
  }

  lemma WrapShort(v: int, p: nat)
    requires INT_MIN <= v < 0 && -v < p <= 1000000000
    ensures Wrap(-3 * p - v) != v
  {
  }

  lemma WrapLong(v: int)
    requires INT_MIN <= v < 0
    ensures Wrap(-30000000000 - v) == v <==> v == LUCKY
  {
  }

  /**
   * The text of a number is read back with no overflow on the way, and gives the number, exactly
   * from 0 up: the parser takes the minus sign for a digit worth -3. Where the overflow that C
   * leaves undefined wraps, one negative number comes back as well.
   */
  lemma RoundTripOnMachine(v: int)
    requires INT_MIN <= v <= INT_MAX
    ensures NoOverflow(Text(v)) && Value(Text(v)) == v <==> v >= 0
    ensures Wrap(Value(Text(v))) == v <==> v >= 0 || v == LUCKY
  {
    hide Value, Text, NoOverflow, Wrap;
    RoundTrip(v);
    if v >= 0 {
      DigitsOverflow(Text(v));
      WrapInt(v);
    } else {
      NegativeReading(v);
    }
  }

  /** string_to_int in wrapping arithmetic; `fits` says whether C gives every step a meaning. */
  method StringToInt(input: array<CChar>) returns (result: int, fits: bool)
    requires 0 in input[..]
    ensures result == Wrap(Value(CString(input[..])))
    ensures fits <==> NoOverflow(CString(input[..]))
    ensures fits ==> result == Value(CString(input[..]))
  {
    hide Wrap, Value;
    ghost var end :| 0 <= end < input.Length && input[..][end] == 0;
    var i := 0;
    result, fits := 0, true;
    EmptyReading();
    while input[i] != 0
      invariant 0 <= i <= end && forall j | 0 <= j < i :: input[j] != 0
      invariant result == Wrap(Value(input[..i])) && (fits <==> NoOverflow(input[..i]))
      invariant fits ==> IsInt(Value(input[..i]))
      decreases end - i
    {
      ghost var s := input[..i];
      var digit := input[i] as int - 48;
      WrapInt(Value(s));
      fits := fits && IsInt(result * 10) && IsInt(result * 10 + digit);
      WrapStep(Value(s), digit);
      result := Wrap(Wrap(result * 10) + digit);
      i := i + 1;
      assert input[..i] == s + [input[i - 1]];
      ValueSnoc(s, input[i - 1]);
      assert input[..i][..i - 1] == s;
    }
    WrapInt(Value(input[..i]));
    CStringIs(input[..], i);
    assert input[..][..i] == input[..i];
  }

  lemma EmptyReading()
    ensures Value([]) == 0 && Wrap(0) == 0
  {
  }

  // ---------------------------------------------------------------------------------------
  // int_to_string
  // ---------------------------------------------------------------------------------------

  /** The digits in the order the emit loop writes them. */
  function Low(n: nat): seq<CChar> {
    if n == 0 then [] else [n % 10 + 48] + Low(n / 10)
  }

  lemma LowStep(n: nat)
    ensures n > 0 ==> Low(n) == [n % 10 + 48] + Low(n / 10)
    ensures n == 0 ==> Low(n) == []
  {
  }

  lemma {:induction false} LowLength(n: nat)
    requires n > 0
    ensures |Low(n)| == |Digits(n)|
  {
    if n >= 10 { LowLength(n / 10); } else { assert Low(n / 10) == []; }
  }

  lemma {:induction false} LowReversed(n: nat, k: nat)
    requires n > 0 && k < |Low(n)| == |Digits(n)|
    ensures Low(n)[k] == Digits(n)[|Low(n)| - 1 - k]
  {
    if n >= 10 && k > 0 {
      LowLength(n / 10);
      LowReversed(n / 10, k - 1);
    } else if n < 10 {
      assert Low(n / 10) == [];
    }
  }

  /** The emit loop: digits of v from position i on, lowest first, then the terminator. */
  method Emit(buf: array<CChar>, start: nat, v: nat) returns (i: nat)
    requires v > 0 && start + |Low(v)| < buf.Length
    modifies buf
    ensures i == start + |Low(v)| && buf[..start] == old(buf[..start])
    ensures buf[start..i] == Low(v) && buf[i] == 0
  {
    hide Low;
    i := start;
    var value := v;
    while value > 0
      invariant start <= i <= buf.Length && buf[..start] == old(buf[..start])
      invariant buf[start..i] + Low(value) == Low(v)
    {
      LowStep(value);
      ghost var done := buf[start..i];
      buf[i] := value % 10 + 48;
      i := i + 1;
      assert buf[start..i] == done + [value % 10 + 48];
      value := value / 10;
    }
    LowStep(value);
    buf[i] := 0;
  }

  /** The swap loop: buf[start..end] back to front, nothing else touched. */
  method Reverse(buf: array<CChar>, start: nat, end: nat)
    requires start < end <= buf.Length
    modifies buf
    ensures forall k | start <= k < end :: buf[k] == old(buf[start + end - 1 - k])
    ensures forall k | 0 <= k < buf.Length && !(start <= k < end) :: buf[k] == old(buf[k])
  {
    var low, high := start, end - 1;
    while low < high
      invariant start <= low <= high + 1 && low + high == start + end - 1
      invariant forall k | start <= k < low || high < k < end :: buf[k] == old(buf[start + end - 1 - k])
      invariant forall k | low <= k <= high || 0 <= k < start || end <= k < buf.Length :: buf[k] == old(buf[k])
    {
      buf[low], buf[high] := buf[high], buf[low];
      low, high := low + 1, high - 1;
    }
  }

  /** The numeral of 2147483648, which has no positive int. */
  lemma MinText()
    ensures Text(INT_MIN) == [45, 50, 49, 52, 55, 52, 56, 51, 54, 52, 56]
  {
    hide Digits;
    assert Digits(2) == [50] by { OneDigit(2); }
    DigitsStep(2, 1);
    DigitsStep(21, 4);
    DigitsStep(214, 7);
    DigitsStep(2147, 4);
    DigitsStep(21474, 8);
    DigitsStep(214748, 3);
    DigitsStep(2147483, 6);
    DigitsStep(21474836, 4);
    DigitsStep(214748364, 8);
  }

  lemma OneDigit(n: nat)
    requires n < 10
    ensures Digits(n) == [n + 48]
  {
  }

  method WriteMin(buf: array<CChar>)
    requires buf.Length == 12
    modifies buf
    ensures buf[..] == Text(INT_MIN) + [0]
  {
    hide Text;
    buf[0], buf[1], buf[2], buf[3] := MINUS, 50, 49, 52;
    buf[4], buf[5], buf[6], buf[7] := 55, 52, 56, 51;
    buf[8], buf[9], buf[10], buf[11] := 54, 52, 56, 0;
    MinText();
  }

  /** The digits of v at position start, and the terminator. */
  method WriteDigits(buf: array<CChar>, start: nat, v: nat)
    requires start + |Digits(v)| < buf.Length
    modifies buf
    ensures buf[..start] == old(buf[..start])
    ensures buf[start..start + |Digits(v)|] == Digits(v) && buf[start + |Digits(v)|] == 0
  {
    hide Low;
    if v == 0 {
      buf[start] := ZERO;
      buf[start + 1] := 0;
      return;
    }
    LowLength(v);
    var i := Emit(buf, start, v);
    ghost var low := buf[start..i];
    Reverse(buf, start, i);
    forall k | 0 <= k < |low| ensures buf[start..i][k] == Digits(v)[k] {
      LowReversed(v, |low| - 1 - k);
      assert buf[start + k] == low[|low| - 1 - k];
    }
  }

  /** The text and its terminator make the buffer a C string. */
  lemma Printed(b: seq<CChar>, v: int)
    requires |Text(v)| < |b| && b[..|Text(v)|] == Text(v) && b[|Text(v)|] == 0
    ensures 0 in b && CString(b) == Text(v)
  {
    var k := |Text(v)|;
    ReadDigits(if v < 0 then -v else v);
    assert b[k] in b;
    forall i | 0 <= i < k ensures b[i] != 0 {
      assert b[i] == Text(v)[i];
    }
    CStringIs(b, k);
  }

  /** int_to_string: the twelve-byte buffer holds the text and its terminator, for every int. */
  method IntToString(buf: array<CChar>, v: int)
    requires buf.Length == 12 && INT_MIN <= v <= INT_MAX
    modifies buf
    ensures |Text(v)| < 12 && buf[..|Text(v)|] == Text(v) && buf[|Text(v)|] == 0
    ensures 0 in buf[..] && CString(buf[..]) == Text(v)
  {
    hide CString, Digits;
    TextFits(v);
    var i, value := 0, v;
    if value < 0 {
      if value == INT_MIN {
        WriteMin(buf);
        Printed(buf[..], v);
        return;
      }
      value := -value;
      buf[i] := MINUS;
      i := i + 1;
    }
    WriteDigits(buf, i, value);
    assert buf[..|Text(v)|] == buf[..i] + buf[i..i + |Digits(value)|];
    Printed(buf[..], v);
  }

  /** Print a number, check the text and read it back. */
  method PrintAndRead(v: int) returns (valid: bool, result: int, fits: bool)
    requires INT_MIN <= v <= INT_MAX
    ensures valid <==> v >= 0
    ensures fits && result == v <==> v >= 0
    ensures result == v <==> v >= 0 || v == LUCKY
  {
    hide Value, Text, NoOverflow, Wrap, CString;
    var buf := new CChar[12];
    IntToString(buf, v);
    valid := IsValidNumber(buf);
    result, fits := StringToInt(buf);
    RoundTrip(v);
    RoundTripOnMachine(v);
  }
}
