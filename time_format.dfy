/**
 * Rendering of a duration in milliseconds as `HH:MM:SS`, hours unbounded
 * (main.js `formatTime`). Durations are whole, non-negative milliseconds.
 */
module TimeFormat {

  predicate IsDigit(c: char) {
    '0' <= c <= '9'
  }

  predicate AllDigits(s: string) {
    forall k :: 0 <= k < |s| ==> IsDigit(s[k])
  }

  function DigitValue(c: char): int {
    c as int - '0' as int
  }

  function DigitChar(d: nat): (c: char)
    requires d < 10
    ensures IsDigit(c) && DigitValue(c) == d
  {
    (d + '0' as int) as char
  }

  /** The number a string of decimal digits denotes, most significant digit first. */
  function DigitsValue(s: string): int {
    if s == [] then 0 else DigitsValue(s[..|s| - 1]) * 10 + DigitValue(s[|s| - 1])
  }

  /**
   * Decimal notation of n with no leading zero, as a JavaScript integer's
   * `toString()` writes it. Reading the digits back gives n.
   */
  function DecimalString(n: nat): (r: string)
    ensures |r| >= 1 && AllDigits(r)
    ensures DigitsValue(r) == n
    ensures |r| == 1 <==> n < 10
    ensures |r| == 2 <==> 10 <= n < 100
    ensures r[0] == '0' ==> n == 0
  {
    if n < 10 then [DigitChar(n)]
    else
      var r := DecimalString(n / 10) + [DigitChar(n % 10)];
      assert r[..|r| - 1] == DecimalString(n / 10);
      r
  }

  /** `s.padStart(width, '0')`: left-fill with zeros up to the width. */
  function PadStart(s: string, width: nat): string {
    if |s| >= width then s else seq(width - |s|, _ => '0') + s
  }

  /** One clock field: the decimal notation of n, padded to at least two digits. */
  function Field(n: nat): (r: string)
    ensures |r| >= 2 && AllDigits(r)
    ensures DigitsValue(r) == n
    ensures n < 100 ==> |r| == 2
    ensures |r| == 2 || r[0] != '0'
  {
    var d := DecimalString(n);
    if |d| >= 2 then d
    else
      assert PadStart(d, 2) == ['0'] + d;
      assert (['0'] + d)[..1] == ['0'];
      PadStart(d, 2)
  }

  /**
   * The clock fields main.js computes from whole seconds agree with the
   * fields read directly off the milliseconds.
   */
  lemma ClockArithmetic(ms: nat)
    ensures ms / 1000 / 3600 == ms / 3600000
    ensures (ms / 1000 % 3600) / 60 == (ms % 3600000) / 60000
    ensures ms / 1000 == 3600 * (ms / 3600000) + 60 * ((ms % 3600000) / 60000) + ms / 1000 % 60
  {
    var t, r0 := ms / 1000, ms % 1000;
    var h, r1 := t / 3600, t % 3600;
    var m, s := r1 / 60, r1 % 60;
    assert ms == 3600000 * h + (1000 * r1 + r0);
    DivModUnique(ms, 3600000, h, 1000 * r1 + r0);
    assert 1000 * r1 + r0 == 60000 * m + (1000 * s + r0);
    DivModUnique(1000 * r1 + r0, 60000, m, 1000 * s + r0);
    assert t == 60 * (60 * h + m) + s;
    DivModUnique(t, 60, 60 * h + m, s);
  }

  /** Quotient and remainder are the only pair that rebuilds a. */
  lemma DivModUnique(a: int, b: int, q: int, r: int)
    requires b > 0 && a == b * q + r && 0 <= r < b
    ensures a / b == q && a % b == r
  {
    if q > a / b {
      MulGap(b, q, a / b);
    } else if q < a / b {
      MulGap(b, a / b, q);
    }
  }

  /** Multiples of b that differ do so by at least b. */
  lemma MulGap(b: int, x: int, y: int)
    requires b > 0 && x > y
    ensures b * x >= b * y + b
  {
    assert b * x == b * y + b * (x - y - 1) + b;
  }

  /**
   * r is the text `H:MM:SS` of the given field values: two colons, digit
   * fields that read back to the values, minutes and seconds exactly two
   * digits, hours at least two and with no redundant leading zero.
   */
  predicate ShowsClock(r: string, hours: int, minutes: int, seconds: int) {
    && |r| >= 8 && r[|r| - 6] == ':' && r[|r| - 3] == ':'
    && AllDigits(r[..|r| - 6]) && AllDigits(r[|r| - 5..|r| - 3]) && AllDigits(r[|r| - 2..])
    && DigitsValue(r[..|r| - 6]) == hours
    && DigitsValue(r[|r| - 5..|r| - 3]) == minutes
    && DigitsValue(r[|r| - 2..]) == seconds
    && (|r| == 8 || r[0] != '0')
  }

  /**
   * `formatTime(ms)`: the hours field holds ms / 3600000, unbounded and not
   * wrapped at 24; minutes and seconds are below 60.
   */
  function FormatTime(ms: nat): (r: string)
    ensures ShowsClock(r, ms / 3600000, (ms % 3600000) / 60000, ms / 1000 % 60)
    ensures (ms % 3600000) / 60000 < 60 && ms / 1000 % 60 < 60
  {
    var totalSeconds := ms / 1000;
    var hours := totalSeconds / 3600;
    var minutes := (totalSeconds % 3600) / 60;
    var seconds := totalSeconds % 60;
    ClockArithmetic(ms);
    var h, m, s := Field(hours), Field(minutes), Field(seconds);
    JoinFields(h, m, s);
    h + ":" + m + ":" + s
  }

  /** Where the three fields sit in `h:m:s` when minutes and seconds have two characters. */
  lemma JoinFields(h: string, m: string, s: string)
    requires |m| == 2 && |s| == 2
    ensures var r := h + ":" + m + ":" + s;
      |r| == |h| + 6 && r[..|r| - 6] == h && r[|r| - 6] == ':' && r[|r| - 5..|r| - 3] == m
      && r[|r| - 3] == ':' && r[|r| - 2..] == s
  {
    var r := h + ":" + m + ":" + s;
    assert r[..|r| - 6] == h;
    assert r[|r| - 5..|r| - 3] == m;
    assert r[|r| - 2..] == s;
  }

  /** Reads `H:MM:SS` back as a number of whole seconds. */
  function ParseTime(r: string): int
    requires |r| >= 8
  {
    3600 * DigitsValue(r[..|r| - 6]) + 60 * DigitsValue(r[|r| - 5..|r| - 3]) + DigitsValue(r[|r| - 2..])
  }

  /** Reading the text back gives the whole seconds of the duration. */
  lemma FormatTimeRoundTrip(ms: nat)
    ensures ParseTime(FormatTime(ms)) == ms / 1000
  {
    var h, m, s := ms / 3600000, (ms % 3600000) / 60000, ms / 1000 % 60;
    ParseClock(FormatTime(ms), h, m, s);
    SecondsFromFields(ms, h, m, s);
  }

  lemma ParseClock(r: string, h: int, m: int, s: int)
    requires ShowsClock(r, h, m, s)
    ensures ParseTime(r) == 3600 * h + 60 * m + s
  {
  }

  lemma SecondsFromFields(ms: nat, h: int, m: int, s: int)
    requires h == ms / 3600000 && m == (ms % 3600000) / 60000 && s == ms / 1000 % 60
    ensures ms / 1000 == 3600 * h + 60 * m + s
  {
    ClockArithmetic(ms);
  }

  /**
   * Two durations print alike exactly when they have the same number of
   * whole seconds: the text loses the sub-second part and nothing else.
   */
  lemma FormatTimeSeconds(a: nat, b: nat)
    ensures FormatTime(a) == FormatTime(b) <==> a / 1000 == b / 1000
  {
    if FormatTime(a) == FormatTime(b) {
      FormatTimeRoundTrip(a);
      FormatTimeRoundTrip(b);
    }
  }
}
