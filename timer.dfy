/**
 * The exam timer display of components/exam/timer-display.tsx: the
 * H:MM:SS rendering of the remaining seconds, the low-time warning, and the
 * one-second interval that either reports the decremented time or reports
 * expiry and stops itself.
 *
 * Times are whole seconds. JavaScript's `%` truncates toward zero, so it is
 * written out as `JsRem`; `Math.floor` of a quotient by a positive divisor is
 * Dafny's `/`.
 */
module TimerDisplay {
  import opened Wrappers

  const LowTimeSeconds: int := 300

  /** JavaScript's `a % b` for b > 0: the sign follows `a`. */
  function JsRem(a: int, b: int): (r: int)
    requires b > 0
    ensures a >= 0 ==> 0 <= r < b
    ensures a < 0 ==> -b < r <= 0
    ensures (if a < 0 then -r else r) == (if a < 0 then -a else a) % b
  {
    if a >= 0 then a % b else -((-a) % b)
  }

  // ---------- Decimal digits ----------

  function DigitChar(d: int): char
    requires 0 <= d < 10
  {
    ['0', '1', '2', '3', '4', '5', '6', '7', '8', '9'][d]
  }

  predicate IsDigit(c: char) {
    '0' <= c <= '9'
  }

  function DigitValue(c: char): int
    requires IsDigit(c)
  {
    c as int - '0' as int
  }

  /** Decimal rendering of a natural number, most significant digit first, no leading zeros. */
  function NatToString(n: nat): (s: string)
    ensures |s| >= 1
    ensures forall i :: 0 <= i < |s| ==> IsDigit(s[i])
    ensures n < 10 <==> |s| == 1
    decreases n
  {
    if n < 10 then [DigitChar(n)] else NatToString(n / 10) + [DigitChar(n % 10)]
  }

  /** `Number.prototype.toString` on a whole number. */
  function IntToString(i: int): string {
    if i < 0 then "-" + NatToString(-i) else NatToString(i)
  }

  /** `String.prototype.padStart(2, "0")`. */
  function PadStart2(s: string): (r: string)
    ensures |r| == if |s| >= 2 then |s| else 2
    ensures r[|r| - |s|..] == s
    ensures forall i :: 0 <= i < |r| - |s| ==> r[i] == '0'
  {
    if |s| >= 2 then s else if |s| == 1 then "0" + s else "00"
  }

  /** The value of a string of decimal digits. */
  function DigitsValue(s: string): nat
    requires forall i :: 0 <= i < |s| ==> IsDigit(s[i])
  {
    if |s| == 0 then 0 else DigitsValue(s[..|s| - 1]) * 10 + DigitValue(s[|s| - 1])
  }

  function ParseNat(s: string): Option<nat> {
    if |s| > 0 && forall i :: 0 <= i < |s| ==> IsDigit(s[i]) then Some(DigitsValue(s)) else None
  }

  // ---------- formatTime and isLowTime ----------

  function Hours(seconds: int): int { seconds / 3600 }
  function Minutes(seconds: int): int { JsRem(seconds, 3600) / 60 }
  function Secs(seconds: int): int { JsRem(seconds, 60) }

  /** The `${h}:${mm}:${ss}` template: hours unpadded, minutes and seconds padded to two characters. */
  function Clock(h: int, m: int, s: int): string {
    IntToString(h) + ":" + PadStart2(IntToString(m)) + ":" + PadStart2(IntToString(s))
  }

  /** `formatTime`. */
  function FormatTime(seconds: int): string {
    Clock(Hours(seconds), Minutes(seconds), Secs(seconds))
  }

  predicate IsLowTime(timeRemaining: int) {
    timeRemaining < LowTimeSeconds
  }

  /**
   * Reads an `H:MM:SS` string back: digits, a colon, two digits below 60, a
   * colon, two digits below 60.
   */
  function ParseClock(t: string): Option<int> {
    var n := |t|;
    if n < 7 || t[n - 3] != ':' || t[n - 6] != ':' then None
    else
      match (ParseNat(t[..n - 6]), ParseNat(t[n - 5..n - 3]), ParseNat(t[n - 2..]))
      case (Some(h), Some(m), Some(s)) =>
        if m < 60 && s < 60 then Some(h * 3600 + m * 60 + s) else None
      case _ => None
  }

  // ---------- The interval ----------

  /** What one firing of the interval reports to the parent. */
  datatype Callback = TimeExpired | TimeUpdate(time: int)

  /** The interval body: the decremented time, or expiry once it would reach zero. */
  function TickCallback(timeRemaining: int): (c: Callback)
    ensures c.TimeExpired? <==> timeRemaining <= 1
    ensures c.TimeUpdate? ==> 0 < c.time < timeRemaining && c.time == timeRemaining - 1
  {
    var newTime := timeRemaining - 1;
    if newTime <= 0 then TimeExpired else TimeUpdate(newTime)
  }

  /** The setInterval registered by the effect for one value of `timeRemaining`. */
  class TimerInterval {
    const timeRemaining: int
    var active: bool

    /** The effect body: a new interval for the current prop. */
    constructor (timeRemaining: int)
      ensures this.timeRemaining == timeRemaining && active
    {
      this.timeRemaining := timeRemaining;
      active := true;
    }

    /** One firing after a second: a cleared interval fires nothing; expiry clears it. */
    method Fire() returns (c: Option<Callback>)
      modifies this
      ensures old(active) ==> c == Some(TickCallback(timeRemaining))
      ensures !old(active) ==> c.None?
      ensures active <==> old(active) && c.Some? && c.value.TimeUpdate?
    {
      if !active {
        return None;
      }
      var newTime := timeRemaining - 1;
      if newTime <= 0 {
        c := Some(TimeExpired);
        active := false;
      } else {
        c := Some(TimeUpdate(newTime));
      }
    }

    /** The effect cleanup. */
    method Clear()
      modifies this
      ensures !active
    {
      active := false;
    }
  }

  /**
   * The callbacks seen when the parent feeds every update back as the new
   * `timeRemaining` (each change reruns the effect with a fresh interval).
   */
  function Countdown(timeRemaining: int): seq<Callback>
    decreases timeRemaining
  {
    match TickCallback(timeRemaining)
    case TimeExpired => [TimeExpired]
    case TimeUpdate(t) => [TimeUpdate(t)] + Countdown(t)
  }

  // ---------- Properties ----------

  lemma {:induction false} NatToStringRoundTrip(n: nat)
    ensures DigitsValue(NatToString(n)) == n
    decreases n
  {
    var s := NatToString(n);
    if n >= 10 {
      NatToStringRoundTrip(n / 10);
      assert s[..|s| - 1] == NatToString(n / 10);
    }
  }

  /** A two-character digit field reads back with ParseNat as its two digits. */
  lemma ParseTwoDigits(f: string)
    requires |f| == 2 && IsDigit(f[0]) && IsDigit(f[1])
    ensures ParseNat(f) == Some(DigitValue(f[0]) * 10 + DigitValue(f[1]))
  {
    assert f[..1][..0] == [];
    assert DigitsValue(f[..1]) == DigitValue(f[0]);
  }

  /** A value below 60 is shown as exactly two digits that read back as the value. */
  lemma TwoDigitField(m: int)
    requires 0 <= m < 60
    ensures |PadStart2(IntToString(m))| == 2
    ensures ParseNat(PadStart2(IntToString(m))) == Some(m)
  {
    var f := PadStart2(IntToString(m));
    NatToStringRoundTrip(m);
    if m >= 10 {
      NatToStringRoundTrip(m / 10);
    }
    assert IsDigit(f[0]) && IsDigit(f[1]) && DigitValue(f[0]) * 10 + DigitValue(f[1]) == m;
    ParseTwoDigits(f);
  }

  lemma ParseNatToString(n: nat)
    ensures ParseNat(NatToString(n)) == Some(n)
  {
    NatToStringRoundTrip(n);
  }

  /** The remainder by 60 is determined by any decomposition with a remainder below 60. */
  lemma ModSixty(a: int, q: int, r: int)
    requires a == q * 60 + r && 0 <= r < 60
    ensures a % 60 == r
  {
  }

  /** For non-negative times the three fields are the hours, minutes and seconds of `seconds`. */
  lemma FieldsDecompose(seconds: int)
    requires seconds >= 0
    ensures Hours(seconds) >= 0 && 0 <= Minutes(seconds) < 60 && 0 <= Secs(seconds) < 60
    ensures Hours(seconds) * 3600 + Minutes(seconds) * 60 + Secs(seconds) == seconds
  {
    var h, r := seconds / 3600, seconds % 3600;
    assert seconds == h * 3600 + r && 0 <= r < 3600;
    assert Minutes(seconds) == r / 60;
    var mi, se := r / 60, r % 60;
    assert r == mi * 60 + se && 0 <= se < 60;
    ModSixty(seconds, h * 60 + mi, se);
    assert Secs(seconds) == se;
  }

  /** ParseClock takes apart exactly the layout that FormatTime puts together. */
  lemma ParseClockOfFields(h: string, m: string, s: string, hv: nat, mv: nat, sv: nat)
    requires |h| >= 1 && |m| == 2 && |s| == 2
    requires ParseNat(h) == Some(hv) && ParseNat(m) == Some(mv) && ParseNat(s) == Some(sv)
    requires mv < 60 && sv < 60
    ensures ParseClock(h + ":" + m + ":" + s) == Some(hv * 3600 + mv * 60 + sv)
  {
    var t := h + ":" + m + ":" + s;
    var n := |t|;
    assert t[n - 3] == ':' && t[n - 6] == ':';
    assert t[..n - 6] == h;
    assert t[n - 5..n - 3] == m;
    assert t[n - 2..] == s;
  }

  /** An H:MM:SS rendering of in-range fields reads back as their value in seconds. */
  lemma ClockFieldsRoundTrip(h: nat, mins: int, secs: int, total: int)
    requires 0 <= mins < 60 && 0 <= secs < 60 && h * 3600 + mins * 60 + secs == total
    ensures ParseClock(Clock(h, mins, secs)) == Some(total)
  {
    var m := PadStart2(IntToString(mins));
    var s := PadStart2(IntToString(secs));
    TwoDigitField(mins);
    TwoDigitField(secs);
    ParseNatToString(h);
    ParseClockOfFields(IntToString(h), m, s, h, mins, secs);
    assert Clock(h, mins, secs) == IntToString(h) + ":" + m + ":" + s;
  }

  /** Reading the rendered clock back gives the number of seconds rendered. */
  lemma FormatTimeRoundTrip(seconds: int)
    requires seconds >= 0
    ensures ParseClock(FormatTime(seconds)) == Some(seconds)
  {
    FieldsDecompose(seconds);
    ClockFieldsRoundTrip(Hours(seconds), Minutes(seconds), Secs(seconds), seconds);
  }

  /** The warning style shows exactly when the clock reads 0:0M:SS with M below 5. */
  lemma LowTimeIffUnderFiveMinutes(seconds: int)
    requires seconds >= 0
    ensures IsLowTime(seconds) <==> Hours(seconds) == 0 && Minutes(seconds) < 5
  {
    FieldsDecompose(seconds);
  }

  /** Fed back, the interval counts down one second per firing and expires exactly once, last. */
  lemma {:induction false} CountdownShape(timeRemaining: int)
    ensures |Countdown(timeRemaining)| == if timeRemaining <= 1 then 1 else timeRemaining
    ensures Countdown(timeRemaining)[|Countdown(timeRemaining)| - 1] == TimeExpired
    ensures forall i :: 0 <= i < |Countdown(timeRemaining)| - 1 ==>
      Countdown(timeRemaining)[i] == TimeUpdate(timeRemaining - 1 - i)
    decreases timeRemaining
  {
    if timeRemaining > 1 {
      CountdownShape(timeRemaining - 1);
      assert Countdown(timeRemaining) == [TimeUpdate(timeRemaining - 1)] + Countdown(timeRemaining - 1);
    }
  }
}
