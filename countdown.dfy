/**
 * The announcement countdown (`AnnouncementTimer`, custom_sitewide.js, lines 493-519): the remaining
 * seconds shown as hh:mm:ss, and the once-a-second tick that renders and then counts down.
 */
module Countdown {
  import opened Wrappers
  import opened Decimal

  /** Line 512: the hours, minutes and seconds of `t` seconds. */
  function Hours(t: nat): nat { t / 3600 }
  function Minutes(t: nat): nat { (t % 3600) / 60 }
  function Seconds(t: nat): nat { t % 60 }

  /** The three parts split `t` exactly: minutes and seconds stay below 60 and recombine to `t`. */
  lemma PartsRecombine(t: nat)
    ensures Minutes(t) < 60 && Seconds(t) < 60
    ensures Hours(t) * 3600 + Minutes(t) * 60 + Seconds(t) == t
  {
    var r := t % 3600;
    assert t == Hours(t) * 3600 + r;
    assert r == Minutes(t) * 60 + r % 60;
    assert r % 60 == t % 60 by {
      assert t == (Hours(t) * 60 + Minutes(t)) * 60 + r % 60;
    }
  }

  /** Lines 512-513: each part as decimal text padded to two characters, joined by ':'. */
  function Format(t: nat): string {
    PadStart2(ShowNat(Hours(t))) + ":" + PadStart2(ShowNat(Minutes(t))) + ":" + PadStart2(ShowNat(Seconds(t)))
  }

  /** Reading hh:mm:ss back: the last two characters are the seconds, the two before the last colon the minutes,
      and everything before the first colon the hours. None when the text does not have that shape. */
  function ParseClock(s: string): Option<nat> {
    if |s| < 8 then None
    else
      var n := |s|;
      var hh, mm, ss := s[..n - 6], s[n - 5..n - 3], s[n - 2..];
      if s[n - 6] == ':' && s[n - 3] == ':' && AllDigits(hh) && AllDigits(mm) && AllDigits(ss)
      then Some(ClockValue(hh, mm, ss))
      else None
  }

  /** The seconds that hour, minute and second digit groups stand for. */
  function ClockValue(hh: string, mm: string, ss: string): nat
    requires AllDigits(hh) && AllDigits(mm) && AllDigits(ss)
  {
    DigitsValue(hh) * 3600 + DigitsValue(mm) * 60 + DigitsValue(ss)
  }

  /** Every part is at least two digits wide, so the text is hh:mm:ss with exactly two digits of minutes and seconds
      and at least two of hours; below 100 hours it has exactly eight characters. */
  lemma FormatShape(t: nat)
    ensures |Format(t)| >= 8
    ensures Hours(t) < 100 ==> |Format(t)| == 8
  {
    PartsRecombine(t);
    assert |ShowNat(Minutes(t))| <= 2 by {
      if Minutes(t) >= 10 {
        assert Minutes(t) / 10 < 10;
      }
    }
    assert |ShowNat(Seconds(t))| <= 2 by {
      if Seconds(t) >= 10 {
        assert Seconds(t) / 10 < 10;
      }
    }
    if 10 <= Hours(t) < 100 {
      assert Hours(t) / 10 < 10;
    }
  }

  /** Three digit groups joined by colons, with two-digit minutes and seconds, read back as their clock value. */
  lemma ParseJoined(hh: string, mm: string, ss: string)
    requires AllDigits(hh) && AllDigits(mm) && AllDigits(ss)
    requires |hh| >= 2 && |mm| == 2 && |ss| == 2
    ensures ParseClock(hh + ":" + mm + ":" + ss) == Some(ClockValue(hh, mm, ss))
  {
    var s := hh + ":" + mm + ":" + ss;
    var n := |s|;
    assert n == |hh| + 6;
    assert s[..n - 6] == hh;
    assert s[n - 5..n - 3] == mm;
    assert s[n - 2..] == ss;
    assert s[n - 6] == ':' && s[n - 3] == ':';
  }

  /** One part below 100 as the timer shows it: two digits that read back as the part. */
  lemma PartText(n: nat)
    requires n < 100
    ensures AllDigits(PadStart2(ShowNat(n))) && |PadStart2(ShowNat(n))| == 2
    ensures DigitsValue(PadStart2(ShowNat(n))) == n
  {
    if n >= 10 {
      assert n / 10 < 10;
    }
    PadStart2Value(ShowNat(n));
    ShowNatValue(n);
  }

  /** The hours as the timer shows them: at least two digits that read back as the hours. */
  lemma HoursText(h: nat)
    ensures AllDigits(PadStart2(ShowNat(h))) && |PadStart2(ShowNat(h))| >= 2
    ensures DigitsValue(PadStart2(ShowNat(h))) == h
  {
    PadStart2Value(ShowNat(h));
    ShowNatValue(h);
  }

  /** The display is faithful: the text reads back as exactly the seconds remaining. */
  lemma FormatRoundTrip(t: nat)
    ensures ParseClock(Format(t)) == Some(t)
  {
    var h, m, sec := Hours(t), Minutes(t), Seconds(t);
    PartsRecombine(t);
    var hh, mm, ss := PadStart2(ShowNat(h)), PadStart2(ShowNat(m)), PadStart2(ShowNat(sec));
    HoursText(h);
    PartText(m);
    PartText(sec);
    ParseJoined(hh, mm, ss);
    assert ClockValue(hh, mm, ss) == h * 3600 + m * 60 + sec;
    assert Format(t) == hh + ":" + mm + ":" + ss;
  }

  /** What the timer widget holds: the seconds left `time`, whether the bar is hidden, and the count last rendered
      into the timer text (None while it still shows the markup's text). */
  datatype TimerState = TimerState(time: int, hidden: bool, rendered: Option<nat>)

  /** Line 508, before the interval starts: a start value of 0 or less hides the bar and renders nothing;
      otherwise the first `update()` renders `start` and counts down once. */
  function Start(start: int): TimerState {
    if start <= 0 then TimerState(start, true, None)
    else TimerState(start - 1, false, Some(start))
  }

  /** One `update()` (lines 510-515): a negative count hides the bar; otherwise render, then count down. */
  function Tick(s: TimerState): TimerState {
    if s.time < 0 then s.(hidden := true)
    else TimerState(s.time - 1, s.hidden, Some(s.time))
  }

  /** The state after `k` ticks of the interval. */
  function TickN(s: TimerState, k: nat): TimerState {
    if k == 0 then s else Tick(TickN(s, k - 1))
  }

  /** A positive start shows every second from `start` down to 0 in order, one per tick: the first render is
      `start` and tick `k` renders `start - k`. The tick after the one that renders 00:00:00 hides the bar,
      and the bar stays hidden showing 00:00:00. */
  lemma {:induction false} CountsDown(start: int, k: nat)
    requires start > 0
    ensures k <= start ==> TickN(Start(start), k) == TimerState(start - 1 - k, false, Some(start - k))
    ensures k > start ==> TickN(Start(start), k) == TimerState(-1, true, Some(0))
  {
    if k > 0 {
      CountsDown(start, k - 1);
    }
  }

  /** The widget (lines 493-519): its state, the markup's initial timer text, and whether the interval runs. */
  class AnnouncementTimer {
    const markupText: string
    var time: int
    var hidden: bool
    var rendered: Option<nat>
    var running: bool

    function State(): TimerState
      reads this
    {
      TimerState(time, hidden, rendered)
    }

    /** The timer text on the page. */
    function Text(): string
      reads this
    {
      if rendered.Some? then Format(rendered.value) else markupText
    }

    /** `AnnouncementTimer()` with the parsed start value `start`. */
    constructor (start: int, markupText: string)
      ensures State() == Start(start) && this.markupText == markupText
      ensures running <==> start > 0
    {
      this.markupText := markupText;
      time := start;
      hidden := false;
      rendered := None;
      running := false;
      new;
      if time <= 0 {
        hidden := true;
        return;
      }
      Update();
      running := true;
    }

    /** `update()`, called once at start and then by the interval every second; the text it writes is
        `Format` of the count. */
    method Update()
      modifies this
      ensures State() == Tick(old(State()))
      ensures old(time) >= 0 ==> Text() == Format(old(time))
      ensures running == old(running)
    {
      if time < 0 {
        hidden := true;
        return;
      }
      rendered := Some(time);
      time := time - 1;
    }
  }
}
