/**
 The countdown text shown on the timer's LCD.

 The window renders the seconds left as `MM:SS`: `divmod(seconds, 60)` gives
 minutes and seconds, and each is formatted with Python's `{:02d}`, which pads
 to two characters with leading zeros and puts the sign of a negative number
 in front of its digits. `ParseClock` reads such a text back; it is the
 independent reading against which `Format` is proved.
 */
module Clock {

  datatype Option<T> = None | Some(value: T)

  predicate IsDigit(c: char) {
    '0' <= c <= '9'
  }

  function DigitVal(c: char): nat
    requires IsDigit(c)
  {
    c as int - '0' as int
  }

  function DigitChar(d: nat): (c: char)
    requires d < 10
    ensures IsDigit(c) && DigitVal(c) == d
  {
    ('0' as int + d) as char
  }

  predicate AllDigits(t: string) {
    forall i :: 0 <= i < |t| ==> IsDigit(t[i])
  }

  /** The number a string of decimal digits denotes (leading zeros allowed). */
  function DecimalValue(t: string): nat
    requires AllDigits(t)
  {
    if |t| == 0 then 0 else DecimalValue(t[..|t| - 1]) * 10 + DigitVal(t[|t| - 1])
  }

  /** The shortest decimal spelling of `n`, as Python's `str(n)` gives it. */
  function Digits(n: nat): (t: string)
    ensures 1 <= |t|
    ensures AllDigits(t)
    ensures DecimalValue(t) == n
    ensures n < 10 <==> |t| == 1
    ensures 10 <= n < 100 ==> |t| == 2
    ensures t[0] == '0' ==> n == 0
  {
    if n < 10 then [DigitChar(n)]
    else
      var t := Digits(n / 10) + [DigitChar(n % 10)];
      assert t[..|t| - 1] == Digits(n / 10);
      t
  }

  /** Python's `f"{n:02d}"`: at least two characters, zero-padded, and a
      negative number written as a minus sign followed by its digits. */
  function Pad2(n: int): (t: string)
    ensures n >= 0 ==> 2 <= |t| && AllDigits(t) && DecimalValue(t) == n
    ensures 0 <= n < 100 ==> |t| == 2
    ensures n >= 100 ==> |t| >= 3
    ensures n < 0 ==> 2 <= |t| && t[0] == '-' && AllDigits(t[1..]) && DecimalValue(t[1..]) == -n
    ensures n >= 10 ==> t[0] != '0'
    ensures n < 0 ==> t[1] != '0'
  {
    if n < 0 then
      var t := "-" + Digits(-n);
      assert t[1..] == Digits(-n);
      t
    else if n < 10 then
      var t := "0" + Digits(n);
      assert t[..|t| - 1] == "0";
      t
    else Digits(n)
  }

  /** `updateTimeDisplay`'s rendering: minutes and seconds by floor division
      by 60 (Dafny's `/` and `%` agree with Python's `divmod` for a positive
      divisor), each through `{:02d}`, joined by a colon. */
  function Format(seconds: int): (t: string)
    ensures 5 <= |t| && t[|t| - 3] == ':'
  {
    Pad2(seconds / 60) + ":" + Pad2(seconds % 60)
  }

  /** Reads `M…M:SS` (one or more minute digits, exactly two second digits,
      seconds below 60) back into a number of seconds; anything else, a
      leading minus sign included, is not a clock reading. */
  function ParseClock(t: string): (r: Option<int>)
    ensures r.Some? ==> 0 <= r.value
    ensures r.Some? ==> 4 <= |t| && t[|t| - 3] == ':' && IsDigit(t[0])
  {
    if 4 <= |t| && t[|t| - 3] == ':' && AllDigits(t[..|t| - 3]) && AllDigits(t[|t| - 2..])
       && DecimalValue(t[|t| - 2..]) < 60
    then Some(DecimalValue(t[..|t| - 3]) * 60 + DecimalValue(t[|t| - 2..]))
    else None
  }

  /** Every non-negative count of seconds is displayed so that it reads back
      as itself. */
  lemma FormatRoundTrip(seconds: int)
    requires 0 <= seconds
    ensures ParseClock(Format(seconds)) == Some(seconds)
  {
    var mm, ss := Pad2(seconds / 60), Pad2(seconds % 60);
    var t := Format(seconds);
    assert t == mm + ":" + ss;
    assert |ss| == 2;
    assert t[..|t| - 3] == mm;
    assert t[|t| - 2..] == ss;
  }

  /** Two different non-negative counts never show the same text. */
  lemma FormatInjective(a: int, b: int)
    requires 0 <= a && 0 <= b
    requires Format(a) == Format(b)
    ensures a == b
  {
    FormatRoundTrip(a);
    FormatRoundTrip(b);
  }

  /** Below 100 minutes the text is exactly `MM:SS`: five characters, two
      zero-padded minute digits, a colon, two second digits below 60, and
      MM * 60 + SS is the count shown. */
  lemma FormatShape(seconds: int)
    requires 0 <= seconds < 6000
    ensures var t := Format(seconds);
      && |t| == 5
      && IsDigit(t[0]) && IsDigit(t[1]) && t[2] == ':' && IsDigit(t[3]) && IsDigit(t[4])
      && (DigitVal(t[0]) * 10 + DigitVal(t[1])) * 60 + DigitVal(t[3]) * 10 + DigitVal(t[4]) == seconds
      && DigitVal(t[3]) * 10 + DigitVal(t[4]) < 60
  {
  }

  /** A negative count is shown with a leading minus sign and is not a
      clock reading at all. */
  lemma FormatNegative(seconds: int)
    requires seconds < 0
    ensures Format(seconds)[0] == '-'
    ensures ParseClock(Format(seconds)) == None
  {
  }

  /** The `f"{m:02d}:00"` written when a phase of `m` whole minutes begins is
      the same text the countdown shows for `m * 60` seconds. */
  lemma MinutesDisplay(m: nat)
    ensures Pad2(m) + ":00" == Format(m * 60)
    ensures Pad2(m) + ":" + Pad2(0) == Format(m * 60)
  {
    assert (m * 60) / 60 == m && (m * 60) % 60 == 0;
    assert Pad2(0) == "00";
  }
}
