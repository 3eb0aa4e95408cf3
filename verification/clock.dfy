/**
 The `hh:mm:ss` rendering of an elapsed time in milliseconds, with JavaScript's
 semantics for every integer input, and a reader that recovers the fields.

 Each field is `Math.floor((ms / unit) % 60)` (hours without the `% 60`),
 written in decimal and left-padded with '0' to two characters. JavaScript's
 `%` takes the sign of the dividend, so for a whole number of units `u`
 and the real quotient `x = ms / unit`, `Math.floor(x % 60)` equals
 `Math.floor(x) - 60 * Math.trunc(x / 60)`.
 */
module Clock {
  import opened Arith
  import opened Options

  /** The numeric fields of a rendered time. */
  datatype Fields = Fields(hours: int, minutes: int, seconds: int)

  /**
   `Math.floor((ms / 1000) % 60)`: the seconds within the minute, in 0..59 for
   a non-negative duration and in -60..0 for a negative one.
   */
  function SecondsField(ms: int): (s: int)
    ensures ms >= 0 ==> 0 <= s < 60 && s == (ms / 1000) % 60
    ensures ms < 0 ==> -60 <= s <= 0
  {
    if ms >= 0 then DivDiv(ms, 1000, 60); ms / 1000 - 60 * TruncDiv(ms, 60000)
    else ms / 1000 - 60 * TruncDiv(ms, 60000)
  }

  /**
   `Math.floor((ms / 60000) % 60)`: the minutes within the hour, in 0..59 for
   a non-negative duration and in -60..0 for a negative one.
   */
  function MinutesField(ms: int): (m: int)
    ensures ms >= 0 ==> 0 <= m < 60 && m == (ms / 60000) % 60
    ensures ms < 0 ==> -60 <= m <= 0
  {
    if ms >= 0 then DivDiv(ms, 60000, 60); ms / 60000 - 60 * TruncDiv(ms, 3600000)
    else ms / 60000 - 60 * TruncDiv(ms, 3600000)
  }

  /** `Math.floor(ms / 3600000)`: the whole hours, rounded down. */
  function HoursField(ms: int): (h: int)
    ensures h * 3600000 <= ms < (h + 1) * 3600000
  {
    ms / 3600000
  }

  /**
   For a non-negative duration the fields are a proper clock reading: seconds
   and minutes in 0..59, and together exactly the whole seconds elapsed.
   */
  lemma FieldsOfNonNegative(ms: int)
    requires ms >= 0
    ensures 0 <= SecondsField(ms) < 60
    ensures 0 <= MinutesField(ms) < 60
    ensures HoursField(ms) >= 0
    ensures HoursField(ms) * 3600 + MinutesField(ms) * 60 + SecondsField(ms) == ms / 1000
  {
    var q := ms / 1000;
    DivDiv(ms, 1000, 60);
    DivDiv(ms, 1000, 3600);
    DivDiv(ms, 60000, 60);
    DivDiv(q, 60, 60);
    assert SecondsField(ms) == q % 60;
    assert MinutesField(ms) == (q / 60) % 60;
    assert HoursField(ms) == (q / 60) / 60;
  }

  /** The decimal digit character of `d`. */
  function DigitChar(d: int): (c: char)
    requires 0 <= d < 10
  {
    "0123456789"[d]
  }

  predicate IsDigit(c: char)
  {
    '0' <= c <= '9'
  }

  predicate AllDigits(t: string)
  {
    forall i :: 0 <= i < |t| ==> IsDigit(t[i])
  }

  /** The decimal digits of `n`, without leading zeros: `n.toString()`. */
  function Digits(n: nat): (t: string)
    ensures |t| >= 1 && AllDigits(t)
    ensures n < 10 ==> |t| == 1
    ensures 10 <= n < 100 ==> |t| == 2
    ensures n >= 10 ==> t[0] != '0'
    decreases n
  {
    if n < 10 then [DigitChar(n)] else Digits(n / 10) + [DigitChar(n % 10)]
  }

  /**
   `n.toString()` for any integer: the digits of `n`, after a minus sign when
   `n` is negative, reading back as `n`.
   */
  function ToDecimal(n: int): (t: string)
    ensures n >= 0 ==> |t| >= 1 && AllDigits(t) && DigitsValue(t) == n
    ensures n >= 0 ==> |t| == 1 || t[0] != '0'
    ensures 0 <= n < 100 ==> |t| <= 2
    ensures n < 0 ==> |t| >= 2 && t[0] == '-' && AllDigits(t[1..]) && DigitsValue(t[1..]) == -n
  {
    if n < 0 then
      DigitsRoundTrip(-n);
      assert ("-" + Digits(-n))[1..] == Digits(-n);
      "-" + Digits(-n)
    else
      DigitsRoundTrip(n);
      Digits(n)
  }

  /** `t.padStart(2, '0')`: `t` itself, after enough '0's to reach two characters. */
  function PadStart2(t: string): (p: string)
    ensures |p| == if |t| >= 2 then |t| else 2
    ensures p[|p| - |t|..] == t
    ensures forall i :: 0 <= i < |p| - |t| ==> p[i] == '0'
  {
    if |t| >= 2 then t else if |t| == 1 then "0" + t else "00"
  }

  /**
   A field as `formatTime` writes it: `n.toString().padStart(2, '0')`. A
   non-negative field takes exactly two characters below 100, and a longer one
   starts with a non-zero digit.
   */
  function PaddedField(n: int): (p: string)
    ensures n >= 0 ==> |p| >= 2
    ensures 0 <= n < 100 ==> |p| == 2
    ensures n >= 0 && |p| > 2 ==> p[0] != '0'
  {
    var t := ToDecimal(n);
    assert |t| >= 2 ==> PadStart2(t) == PadStart2(t)[|PadStart2(t)| - |t|..];
    PadStart2(t)
  }

  /**
   The text `formatTime(ms)` returns. For a non-negative duration it has the
   `hh:mm:ss` shape: at least eight characters, with ':' three and six places
   from the end.
   */
  function FormatTime(ms: int): (t: string)
    ensures ms >= 0 ==> |t| >= 8 && t[|t| - 3] == ':' && t[|t| - 6] == ':'
    ensures 0 <= ms < 360000000 ==> |t| == 8
    ensures ms >= 0 && |t| > 8 ==> t[0] != '0'
  {
    PaddedField(HoursField(ms)) + ":" + PaddedField(MinutesField(ms)) + ":" + PaddedField(SecondsField(ms))
  }

  /** The number a string of decimal digits denotes, read most significant digit first. */
  function DigitsValue(t: string): (v: nat)
    requires AllDigits(t)
    decreases |t|
  {
    if |t| == 0 then 0
    else DigitsValue(t[..|t| - 1]) * 10 + ((t[|t| - 1] as int) - ('0' as int))
  }

  /**
   Reads `h:mm:ss` back: two-digit minutes and seconds, at least one hour digit,
   everything else decimal digits.
   */
  function ParseClock(t: string): (f: Option<Fields>)
  {
    if |t| < 7 || t[|t| - 3] != ':' || t[|t| - 6] != ':' then None
    else
      var h := t[..|t| - 6];
      var m := t[|t| - 5..|t| - 3];
      var s := t[|t| - 2..];
      if AllDigits(h) && AllDigits(m) && AllDigits(s)
      then Some(Fields(DigitsValue(h), DigitsValue(m), DigitsValue(s)))
      else None
  }

  /** Reading the digits of `n` gives `n` back. */
  lemma {:induction false} DigitsRoundTrip(n: nat)
    ensures DigitsValue(Digits(n)) == n
    decreases n
  {
    if n >= 10 {
      var t := Digits(n);
      assert t[..|t| - 1] == Digits(n / 10);
      DigitsRoundTrip(n / 10);
    }
  }

  /** Leading zeros do not change the value of a digit string. */
  lemma {:induction false} LeadingZeroValue(t: string)
    requires AllDigits(t)
    ensures AllDigits("0" + t) && DigitsValue("0" + t) == DigitsValue(t)
    decreases |t|
  {
    if |t| > 0 {
      var z := "0" + t;
      assert z[..|z| - 1] == "0" + t[..|t| - 1];
      LeadingZeroValue(t[..|t| - 1]);
    }
  }

  /** A padded field of a non-negative number reads back as that number. */
  lemma PaddedRoundTrip(n: nat)
    ensures AllDigits(PaddedField(n))
    ensures DigitsValue(PaddedField(n)) == n
  {
    DigitsRoundTrip(n);
    if |Digits(n)| == 1 {
      LeadingZeroValue(Digits(n));
    }
  }

  /** Joining digit fields with colons and reading them back gives the fields. */
  lemma ParseJoined(h: string, m: string, s: string)
    requires |h| >= 1 && |m| == 2 && |s| == 2
    requires AllDigits(h) && AllDigits(m) && AllDigits(s)
    ensures ParseClock(h + ":" + m + ":" + s)
              == Some(Fields(DigitsValue(h), DigitsValue(m), DigitsValue(s)))
  {
    var t := h + ":" + m + ":" + s;
    assert |t| == |h| + 6;
    assert t[|t| - 6] == ':' && t[|t| - 3] == ':';
    assert t[..|t| - 6] == h;
    assert t[|t| - 5..|t| - 3] == m;
    assert t[|t| - 2..] == s;
  }

  /**
   For a non-negative duration the rendered text reads back as its fields, and
   those fields count exactly the whole seconds elapsed.
   */
  lemma FormatTimeRoundTrip(ms: int)
    requires ms >= 0
    ensures ParseClock(FormatTime(ms)) == Some(Fields(HoursField(ms), MinutesField(ms), SecondsField(ms)))
    ensures var f := ParseClock(FormatTime(ms)).value;
            f.hours * 3600 + f.minutes * 60 + f.seconds == ms / 1000
  {
    FieldsOfNonNegative(ms);
    PaddedRoundTrip(HoursField(ms));
    PaddedRoundTrip(MinutesField(ms));
    PaddedRoundTrip(SecondsField(ms));
    ParseJoined(PaddedField(HoursField(ms)), PaddedField(MinutesField(ms)), PaddedField(SecondsField(ms)));
  }
}
