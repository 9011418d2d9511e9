/** The arithmetic and text of the elapsed-time display "MM:SS". */
module Timer {

  /** Whole seconds between the start and now, both in milliseconds, rounded down. */
  function ElapsedSeconds(startMs: int, nowMs: int): (e: nat)
    requires startMs <= nowMs
    ensures e * 1000 <= nowMs - startMs < (e + 1) * 1000
  {
    (nowMs - startMs) / 1000
  }

  /** Whole seconds split into minutes and the seconds left over. */
  function Split(e: nat): (ms: (nat, nat))
    ensures ms.0 * 60 + ms.1 == e
    ensures ms.1 < 60
  {
    (e / 60, e % 60)
  }

  /** Every character of `s` is a decimal digit. */
  predicate IsDigits(s: string) {
    forall i :: 0 <= i < |s| ==> '0' <= s[i] <= '9'
  }

  /** The character of one decimal digit. */
  function DigitChar(d: nat): (ch: char)
    requires d < 10
    ensures '0' <= ch <= '9' && (ch as int) - ('0' as int) == d
  {
    (('0' as int) + d) as char
  }

  /** The decimal numeral of `n`, with no leading zeros. */
  function Decimal(n: nat): (s: string)
    ensures |s| >= 1
    ensures IsDigits(s)
    ensures s[0] == '0' ==> n == 0
    ensures n < 10 <==> |s| == 1
  {
    if n < 10 then [DigitChar(n)] else Decimal(n / 10) + [DigitChar(n % 10)]
  }

  /** The number a string of decimal digits denotes. */
  function DigitsValue(s: string): nat
    requires IsDigits(s)
  {
    if s == [] then 0
    else DigitsValue(s[..|s| - 1]) * 10 + ((s[|s| - 1] as int) - ('0' as int))
  }

  /** `s` preceded by as many `fill` characters as it takes to reach `width`;
      unchanged when it is already that long. */
  function PadStart(s: string, width: nat, fill: char): (t: string)
    ensures |t| == if |s| >= width then |s| else width
    ensures t[|t| - |s|..] == s
    ensures forall i :: 0 <= i < |t| - |s| ==> t[i] == fill
  {
    if |s| >= width then s else [fill] + PadStart(s, width - 1, fill)
  }

  /** The display text for `e` elapsed seconds: minutes and seconds, each
      padded with zeros to at least two digits, separated by a colon. */
  function TimerText(e: nat): string {
    var (minutes, seconds) := Split(e);
    PadStart(Decimal(minutes), 2, '0') + ":" + PadStart(Decimal(seconds), 2, '0')
  }

  /** Reading a numeral back gives the number it was written from. */
  lemma {:induction false} DecimalRoundTrip(n: nat)
    ensures DigitsValue(Decimal(n)) == n
  {
    if n >= 10 {
      DecimalRoundTrip(n / 10);
      var s := Decimal(n);
      assert s[..|s| - 1] == Decimal(n / 10);
    }
  }

  /** Leading zeros do not change the value of a numeral. */
  lemma {:induction false} LeadingZerosValue(z: string, s: string)
    requires forall i :: 0 <= i < |z| ==> z[i] == '0'
    requires IsDigits(s)
    ensures DigitsValue(z + s) == DigitsValue(s)
    decreases |s|
  {
    if s == [] {
      assert z + s == z;
      ZerosValue(z);
    } else {
      var zs := z + s;
      assert zs[..|zs| - 1] == z + s[..|s| - 1];
      LeadingZerosValue(z, s[..|s| - 1]);
    }
  }

  /** A string of zeros denotes 0. */
  lemma {:induction false} ZerosValue(z: string)
    requires forall i :: 0 <= i < |z| ==> z[i] == '0'
    ensures DigitsValue(z) == 0
    decreases |z|
  {
    if z != [] {
      ZerosValue(z[..|z| - 1]);
    }
  }

  /** A padded string is its fill characters followed by the string itself. */
  lemma PadStartSplits(s: string, width: nat, fill: char)
    ensures var t := PadStart(s, width, fill);
            t == t[..|t| - |s|] + s
  {
    var t := PadStart(s, width, fill);
    assert t == t[..|t| - |s|] + t[|t| - |s|..];
  }

  /** A numeral padded with zeros is still a numeral of the same number. */
  lemma PaddedValue(n: nat)
    ensures var t := PadStart(Decimal(n), 2, '0');
            |t| >= 2 && IsDigits(t) && DigitsValue(t) == n
  {
    var s := Decimal(n);
    var t := PadStart(s, 2, '0');
    var z := t[..|t| - |s|];
    PadStartSplits(s, 2, '0');
    LeadingZerosValue(z, s);
    DecimalRoundTrip(n);
  }

  /** The value shown as "MM:SS" read back as minutes * 60 + seconds. */
  function ReadTimer(t: string): nat
    requires |t| >= 3
    requires IsDigits(t[..|t| - 3]) && IsDigits(t[|t| - 2..])
  {
    DigitsValue(t[..|t| - 3]) * 60 + DigitsValue(t[|t| - 2..])
  }

  /** A numeral of a number below 100 has at most two digits. */
  lemma AtMostTwoDigits(n: nat)
    requires n < 100
    ensures |Decimal(n)| <= 2
  {
    if n >= 10 {
      assert Decimal(n) == Decimal(n / 10) + [DigitChar(n % 10)];
    }
  }

  /** Reading "M:SS" back splits at the colon before the last two characters. */
  lemma ReadJoined(m: string, s: string)
    requires IsDigits(m) && IsDigits(s) && |s| == 2
    ensures var t := m + ":" + s;
            |t| >= 3 && t[|t| - 3] == ':' && t[..|t| - 3] == m && t[|t| - 2..] == s
  {
    var t := m + ":" + s;
    assert t[..|t| - 3] == m;
    assert t[|t| - 2..] == s;
  }

  /** The display always ends in a colon and exactly two second digits, has at
      least two minute digits, and shows the whole minutes before the colon and
      the leftover seconds after it. */
  lemma TimerTextFields(e: nat)
    ensures var t := TimerText(e);
            |t| >= 5 && t[|t| - 3] == ':' &&
            IsDigits(t[..|t| - 3]) && IsDigits(t[|t| - 2..]) &&
            DigitsValue(t[..|t| - 3]) == e / 60 && DigitsValue(t[|t| - 2..]) == e % 60
  {
    var minutes, seconds := e / 60, e % 60;
    var m := PadStart(Decimal(minutes), 2, '0');
    var s := PadStart(Decimal(seconds), 2, '0');
    PaddedValue(minutes);
    PaddedValue(seconds);
    AtMostTwoDigits(seconds);
    assert TimerText(e) == m + ":" + s;
    ReadJoined(m, s);
    var t := m + ":" + s;
    assert t[..|t| - 3] == m && t[|t| - 2..] == s;
    assert DigitsValue(m) == e / 60 && DigitsValue(s) == e % 60;
  }

  /** The display read back as minutes * 60 + seconds is the elapsed seconds. */
  lemma TimerTextRoundTrip(e: nat)
    ensures var t := TimerText(e);
            |t| >= 3 && IsDigits(t[..|t| - 3]) && IsDigits(t[|t| - 2..]) &&
            ReadTimer(t) == e
  {
    TimerTextFields(e);
  }

  /** Below 100 minutes the display is exactly five characters "MM:SS". */
  lemma TimerTextWidth(e: nat)
    requires e < 6000
    ensures |TimerText(e)| == 5
  {
    AtMostTwoDigits(e / 60);
    AtMostTwoDigits(e % 60);
  }
}
