/**
 * The display logic of components/TimerCard.js: the `MM:SS` rendering of a
 * whole number of seconds (`formatTime`, `pad`) and the status line and
 * button label chosen from a timer's status and remaining time.
 */
module TimerCard {
  import opened Common
  import opened TimerReducer

  // ---------------------------------------------------------------------------
  // Number to text, as JavaScript's template literal `${n}` prints an integer
  // ---------------------------------------------------------------------------

  function DigitChar(d: int): (c: char)
    requires 0 <= d < 10
    ensures IsDigit(c) && DigitValue(c) == d
  {
    ('0' as int + d) as char
  }

  predicate IsDigit(c: char) {
    '0' <= c <= '9'
  }

  function DigitValue(c: char): int {
    c as int - '0' as int
  }

  /** The decimal digits of `n`, most significant first, no leading zero. */
  function DecimalString(n: nat): (r: string)
    ensures |r| >= 1
    ensures forall k :: 0 <= k < |r| ==> IsDigit(r[k])
    ensures n < 10 <==> |r| == 1
    ensures r[0] == '0' <==> n == 0
  {
    if n < 10 then [DigitChar(n)] else DecimalString(n / 10) + [DigitChar(n % 10)]
  }

  /** `${n}` for an integer `n`: a minus sign before the digits of a negative number. */
  function IntToString(n: int): string {
    if n < 0 then "-" + DecimalString(-n) else DecimalString(n)
  }

  /** `pad(n)`: a `0` before any number below 10, negative numbers included. */
  function Pad(n: int): string {
    if n < 10 then "0" + IntToString(n) else IntToString(n)
  }

  /** The quotient of `a / b` truncated toward zero (Dafny's `/` rounds down for `b > 0`). */
  function TruncatedQuotient(a: int, b: int): int
    requires b > 0
  {
    if a >= 0 then a / b else -((-a) / b)
  }

  /**
   * JavaScript's `%`: what is left of `a` after the truncated quotient's
   * multiple of `b`, so it takes the sign of the dividend.
   */
  function JsRemainder(a: int, b: int): (r: int)
    requires b > 0
    ensures a == b * TruncatedQuotient(a, b) + r
    ensures a >= 0 ==> 0 <= r < b
    ensures a < 0 ==> -b < r <= 0
  {
    if a >= 0 then a % b else -((-a) % b)
  }

  /**
   * `formatTime(totalSeconds)`. `Math.floor(totalSeconds / 60)` is Dafny's
   * division, which rounds down for a positive divisor.
   */
  function FormatTime(totalSeconds: int): string {
    Pad(totalSeconds / 60) + ":" + Pad(JsRemainder(totalSeconds, 60))
  }

  // ---------------------------------------------------------------------------
  // The inverse: reading `MM:SS` back
  // ---------------------------------------------------------------------------

  /** The value of a non-empty string of decimal digits. */
  function ParseDigits(s: string): (r: Option<nat>)
    ensures r.Some? <==> s != [] && forall k :: 0 <= k < |s| ==> IsDigit(s[k])
  {
    if s == [] || !IsDigit(s[|s| - 1]) then None
    else if |s| == 1 then Some(DigitValue(s[0]))
    else match ParseDigits(s[..|s| - 1])
      case Some(v) => Some(v * 10 + DigitValue(s[|s| - 1]))
      case None => None
  }

  /** Reads `<minutes>:<two-digit seconds below 60>` back into a number of seconds. */
  function ParseTime(text: string): Option<nat> {
    if |text| < 4 || text[|text| - 3] != ':' then None
    else match (ParseDigits(text[..|text| - 3]), ParseDigits(text[|text| - 2..]))
      case (Some(minutes), Some(seconds)) => if seconds < 60 then Some(minutes * 60 + seconds) else None
      case _ => None
  }

  lemma {:induction false} DecimalRoundTrip(n: nat)
    ensures ParseDigits(DecimalString(n)) == Some(n)
    decreases n
  {
    if n >= 10 {
      var s, prefix := DecimalString(n), DecimalString(n / 10);
      assert s == prefix + [DigitChar(n % 10)];
      assert s[..|s| - 1] == prefix;
      DecimalRoundTrip(n / 10);
      assert ParseDigits(s) == Some((n / 10) * 10 + n % 10);
    }
  }

  /** Below 10, `pad` gives a `0` and the single digit. */
  lemma PadSmall(n: int)
    requires 0 <= n < 10
    ensures Pad(n) == ['0', DigitChar(n)]
    ensures |Pad(n)| == 2 && ParseDigits(Pad(n)) == Some(n)
  {
    assert Pad(n)[..1] == ['0'];
  }

  /** From 10 up, `pad` gives the plain decimal string, of at least two digits. */
  lemma PadLarge(n: int)
    requires n >= 10
    ensures Pad(n) == DecimalString(n) && |Pad(n)| >= 2
    ensures n < 100 ==> |Pad(n)| == 2
    ensures ParseDigits(Pad(n)) == Some(n)
  {
    DecimalRoundTrip(n);
    if n < 100 {
      assert DecimalString(n / 10) == [DigitChar(n / 10)];
    }
  }

  /** `pad` of a non-negative number is at least two digits and reads back as the number. */
  lemma PadRoundTrip(n: nat)
    ensures |Pad(n)| >= 2 && forall k :: 0 <= k < |Pad(n)| ==> IsDigit(Pad(n)[k])
    ensures ParseDigits(Pad(n)) == Some(n)
  {
    if n < 10 { PadSmall(n); } else { PadLarge(n); }
  }

  /**
   * For a non-negative input the text is `pad(minutes) + ":" + pad(seconds)`
   * with the seconds field in [0, 59], always two characters.
   */
  lemma FormatTimeFields(totalSeconds: int)
    requires totalSeconds >= 0
    ensures var minutes, seconds := totalSeconds / 60, totalSeconds % 60;
      && 0 <= seconds <= 59
      && minutes * 60 + seconds == totalSeconds
      && FormatTime(totalSeconds) == Pad(minutes) + ":" + Pad(seconds)
      && |Pad(seconds)| == 2
      && |FormatTime(totalSeconds)| == |Pad(minutes)| + 3
  {
    var seconds := totalSeconds % 60;
    if seconds < 10 { PadSmall(seconds); } else { PadLarge(seconds); }
  }

  /** Reading back the text of any non-negative number of seconds gives that number. */
  lemma FormatTimeRoundTrip(totalSeconds: nat)
    ensures ParseTime(FormatTime(totalSeconds)) == Some(totalSeconds)
  {
    var minutes, seconds := totalSeconds / 60, totalSeconds % 60;
    FormatTimeFields(totalSeconds);
    PadRoundTrip(minutes);
    PadRoundTrip(seconds);
    var text, mm, ss := FormatTime(totalSeconds), Pad(minutes), Pad(seconds);
    assert text == mm + ":" + ss;
    assert text[|text| - 3] == ':';
    assert text[..|text| - 3] == mm;
    assert text[|text| - 2..] == ss;
  }

  /** Distinct non-negative numbers of seconds are shown as distinct texts. */
  lemma FormatTimeInjective(a: nat, b: nat)
    requires FormatTime(a) == FormatTime(b)
    ensures a == b
  {
    FormatTimeRoundTrip(a);
    FormatTimeRoundTrip(b);
  }

  /**
   * Below 100 minutes the text is exactly five characters `MM:SS`, and the
   * digits give the number back as `MM * 60 + SS`.
   */
  lemma FormatTimeFiveChars(totalSeconds: int)
    requires 0 <= totalSeconds < 6000
    ensures var text := FormatTime(totalSeconds);
      && |text| == 5 && text[2] == ':'
      && IsDigit(text[0]) && IsDigit(text[1]) && IsDigit(text[3]) && IsDigit(text[4])
      && (DigitValue(text[0]) * 10 + DigitValue(text[1])) * 60
           + DigitValue(text[3]) * 10 + DigitValue(text[4]) == totalSeconds
  {
    var minutes, seconds := totalSeconds / 60, totalSeconds % 60;
    FormatTimeFields(totalSeconds);
    TwoDigitValue(minutes);
    TwoDigitValue(seconds);
    var text := FormatTime(totalSeconds);
    assert text[..2] == Pad(minutes);
    assert text[3..] == Pad(seconds);
  }

  /** `pad` of a number below 100 is two digits whose value is the number. */
  lemma TwoDigitValue(n: int)
    requires 0 <= n < 100
    ensures |Pad(n)| == 2 && IsDigit(Pad(n)[0]) && IsDigit(Pad(n)[1])
    ensures DigitValue(Pad(n)[0]) * 10 + DigitValue(Pad(n)[1]) == n
  {
    if n < 10 {
      PadSmall(n);
    } else {
      PadLarge(n);
      assert DecimalString(n / 10) == [DigitChar(n / 10)];
    }
  }

  /**
   * A negative remaining (possible only in loaded data) is printed with the
   * `0` of `pad` in front of the minus sign: -5 seconds shows as `0-1:0-5`.
   */
  lemma FormatTimeNegative()
    ensures FormatTime(-5) == "0-1:0-5"
  {
    assert -5 / 60 == -1;
    assert JsRemainder(-5, 60) == -5;
    assert Pad(-1) == "0-1";
    assert Pad(-5) == "0-5";
  }

  // ---------------------------------------------------------------------------
  // Status line and button label
  // ---------------------------------------------------------------------------

  const CompletedText: string := "\U{2705} Completed"
  const RunningText: string := "\U{23F1} Running"
  const PausedText: string := "\U{23F8}\U{FE0F} Paused"
  const IdleText: string := "\U{23F9}\U{FE0F} Idle"

  predicate IsRunning(t: Timer) { t.status == Running }
  predicate IsPaused(t: Timer) { t.status == Paused }
  predicate IsCompleted(t: Timer) { t.remaining == 0 }

  /** `statusText`: completion (remaining at 0) wins over the status. */
  function StatusText(t: Timer): string {
    if IsCompleted(t) then CompletedText
    else if IsRunning(t) then RunningText
    else if IsPaused(t) then PausedText
    else IdleText
  }

  /** The start/pause button's label. */
  function ButtonLabel(t: Timer): string {
    if IsRunning(t) then "Pause" else "Start"
  }

  /**
   * The status line reads "Completed" exactly when remaining is 0, whatever
   * the status; otherwise "Running", "Paused" or "Idle" exactly by status.
   */
  lemma StatusTextCases(t: Timer)
    ensures StatusText(t) == CompletedText <==> t.remaining == 0
    ensures StatusText(t) == RunningText <==> t.remaining != 0 && t.status == Running
    ensures StatusText(t) == PausedText <==> t.remaining != 0 && t.status == Paused
    ensures StatusText(t) == IdleText <==> t.remaining != 0 && t.status == Other
  {
    assert CompletedText[2] != RunningText[2] && CompletedText[2] != PausedText[2];
    assert CompletedText[2] != IdleText[2] && RunningText[2] != PausedText[2];
    assert RunningText[2] != IdleText[2] && PausedText[1] != IdleText[0];
    assert PausedText[0] != IdleText[0];
  }

  /** The button reads "Pause" exactly when the timer is running. */
  lemma ButtonLabelCases(t: Timer)
    ensures ButtonLabel(t) == "Pause" <==> t.status == Running
    ensures ButtonLabel(t) == "Start" <==> t.status != Running
  {
  }

  /**
   * A running timer at 1 second shows "Completed" after one tick while its
   * button still reads "Pause"; the tick after that pauses it, and the
   * button reads "Start" under the same "Completed" line.
   */
  lemma LastTicksOfACountdown(t: Timer)
    requires t.status == Running && t.remaining == 1
    ensures StatusText(TickTimes(t, 1)) == CompletedText && ButtonLabel(TickTimes(t, 1)) == "Pause"
    ensures StatusText(TickTimes(t, 2)) == CompletedText && ButtonLabel(TickTimes(t, 2)) == "Start"
  {
    Countdown(t, 1, 0);
  }

  /** After a reset, a timer with a positive duration shows "Paused" and offers "Start". */
  lemma ResetShowsPaused(t: Timer)
    requires t.duration > 0
    ensures StatusText(Apply(Reset, t)) == PausedText && ButtonLabel(Apply(Reset, t)) == "Start"
  {
  }
}
