/** The elevator-pitch countdown of
    src/components/shared/ElevatorPitchTimer.tsx: three pieces of component
    state driven by the one-second tick and the control buttons, and the
    `m:ss` display. */
module PitchTimer {
  import opened FormCore

  /** The durations the duration buttons offer, in seconds. */
  const Durations: seq<int> := [30, 60, 90]

  /** The state update the interval callback applies to `timeLeft`. */
  function TickValue(prev: int): int
  {
    if prev <= 1 then 0 else prev - 1
  }

  /** `timeLeft` after `k` ticks. */
  function Ticks(t: int, k: nat): int
    decreases k
  {
    if k == 0 then t else Ticks(TickValue(t), k - 1)
  }

  /** A tick never takes a non-negative time below zero, and counts down by
      exactly one second while time is left. */
  lemma TickFacts(prev: int)
    requires prev >= 0
    ensures TickValue(prev) >= 0
    ensures prev > 0 ==> TickValue(prev) == prev - 1
    ensures TickValue(prev) == 0 <==> prev <= 1
  {
  }

  /** From `t` seconds the countdown reaches zero after exactly `t` ticks,
      one second per tick, and then stays there. */
  lemma {:induction false} TicksCountDown(t: nat, k: nat)
    ensures Ticks(t, k) == if k >= t then 0 else t - k
  {
    if k > 0 {
      TicksCountDown(TickValue(t), k - 1);
    }
  }

  class Timer {
    var timeLeft: int
    var isRunning: bool
    var initialTime: int

    /** The time left is never negative and never more than the chosen
        duration, and a running timer has time left. */
    ghost predicate Valid()
      reads this
    {
      && 0 <= timeLeft <= initialTime
      && (isRunning ==> timeLeft > 0)
    }

    /** The initial state: thirty seconds, stopped. */
    constructor ()
      ensures Valid()
      ensures timeLeft == 30 && !isRunning && initialTime == 30
    {
      timeLeft := 30;
      isRunning := false;
      initialTime := 30;
    }

    /** One interval callback. The effect only keeps an interval while the
        timer runs with time left; the last second stops the timer. */
    method Tick()
      requires Valid() && isRunning && timeLeft > 0
      modifies this
      ensures Valid()
      ensures timeLeft == TickValue(old(timeLeft)) == old(timeLeft) - 1
      ensures isRunning <==> timeLeft > 0
      ensures initialTime == old(initialTime)
    {
      var prev := timeLeft;
      if prev <= 1 {
        isRunning := false;
        timeLeft := 0;
      } else {
        timeLeft := prev - 1;
      }
    }

    /** `handleStart`; its button is disabled once the time is up. */
    method Start()
      requires Valid() && timeLeft != 0
      modifies this
      ensures Valid()
      ensures isRunning
      ensures timeLeft == old(timeLeft) && initialTime == old(initialTime)
    {
      isRunning := true;
    }

    /** `handlePause` */
    method Pause()
      requires Valid()
      modifies this
      ensures Valid()
      ensures !isRunning
      ensures timeLeft == old(timeLeft) && initialTime == old(initialTime)
    {
      isRunning := false;
    }

    /** The start/pause button: pauses a running timer, starts a stopped one,
        and does nothing while disabled at zero. */
    method PressStartPause()
      requires Valid()
      modifies this
      ensures Valid()
      ensures old(timeLeft) == 0 ==> isRunning == old(isRunning)
      ensures old(timeLeft) != 0 ==> isRunning == !old(isRunning)
      ensures timeLeft == old(timeLeft) && initialTime == old(initialTime)
    {
      if timeLeft == 0 {
        return;
      }
      if isRunning {
        Pause();
      } else {
        Start();
      }
    }

    /** `handleReset`: stop and wind back to the chosen duration. */
    method Reset()
      requires Valid()
      modifies this
      ensures Valid()
      ensures !isRunning && timeLeft == initialTime == old(initialTime)
    {
      isRunning := false;
      timeLeft := initialTime;
    }

    /** `handleTimeChange(n)`, called by the duration buttons. */
    method ChangeTime(n: int)
      requires Valid() && n in Durations
      modifies this
      ensures Valid()
      ensures initialTime == n && timeLeft == n && !isRunning
    {
      initialTime := n;
      timeLeft := n;
      isRunning := false;
    }
  }

  // ---------------------------------------------------------------------------
  // formatTime
  // ---------------------------------------------------------------------------

  function DigitChar(d: nat): char
    requires d < 10
  {
    ('0' as int + d) as char
  }

  /** `n.toString()` */
  function NatToString(n: nat): string
    decreases n
  {
    if n < 10 then [DigitChar(n)] else NatToString(n / 10) + [DigitChar(n % 10)]
  }

  /** `toString` writes a non-empty decimal numeral of the number. */
  lemma {:induction false} NatToStringValue(n: nat)
    ensures NatToString(n) != [] && AllDigits(NatToString(n))
    ensures DigitsValue(NatToString(n)) == n
    decreases n
  {
    var s := NatToString(n);
    if n >= 10 {
      NatToStringValue(n / 10);
      assert s[..|s| - 1] == NatToString(n / 10);
    }
  }

  /** `s.padStart(2, '0')` on a numeral. */
  function PadStart2(s: string): string
  {
    if |s| < 2 then seq(2 - |s|, _ => '0') + s else s
  }

  /** `formatTime(seconds)`: whole minutes, a colon, and the seconds padded to
      two digits. */
  function FormatTime(seconds: nat): string
  {
    NatToString(seconds / 60) + ":" + PadStart2(NatToString(seconds % 60))
  }

  /** The display reads back as the time it shows: minutes before the colon,
      exactly two digits of seconds after it, worth less than a minute. */
  lemma FormatTimeDecodes(seconds: nat)
    ensures var r := FormatTime(seconds);
      && |r| >= 4 && r[|r| - 3] == ':'
      && AllDigits(r[..|r| - 3]) && AllDigits(r[|r| - 2..])
      && DigitsValue(r[|r| - 2..]) < 60
      && 60 * DigitsValue(r[..|r| - 3]) + DigitsValue(r[|r| - 2..]) == seconds
  {
    var m, s := seconds / 60, seconds % 60;
    NatToStringValue(m);
    NatToStringValue(s);
    var ms, ss := NatToString(m), NatToString(s);
    var pad := PadStart2(ss);
    assert |ss| <= 2 by {
      if s >= 10 {
        assert NatToString(s) == NatToString(s / 10) + [DigitChar(s % 10)];
      }
    }
    assert |pad| == 2 && AllDigits(pad) && DigitsValue(pad) == s by {
      if |ss| < 2 {
        assert pad == ['0'] + ss;
        assert pad[..1] == ['0'] && pad[..1][..0] == [];
      }
    }
    var r := FormatTime(seconds);
    assert r == ms + ":" + pad;
    assert r[..|r| - 3] == ms;
    assert r[|r| - 2..] == pad;
  }
}
