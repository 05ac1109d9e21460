/** The GPIO input pin with click detection (src/shelly_input_pin.cpp): an
    interrupt on every level change and a one-shot timer drive a small state
    machine that reports single, double and long presses, and quick toggling
    right after boot reports a reset. */
module InputPin {
  import opened Input

  /** The click detector's states. */
  datatype State = Idle | WaitOffSingle | WaitOnDouble | WaitOffDouble | WaitOffLong

  /** The one-shot press timer: stopped, or armed for a number of ms. */
  datatype Timer = Stopped | Armed(ms: int)

  const DefaultShortPressMs := 500
  const DefaultLongPressMs := 1000

  /** How long after boot toggling counts towards a reset, and the longest
      gap between two counted changes, in seconds. */
  const ResetUptimeLimit: real := 30.0
  const ResetGap: real := 5.0

  datatype Config = Config(onValue: int, enableReset: bool, shortPressMs: int, longPressMs: int)

  /** The pin's mutable state, as one value. */
  datatype Pin = Pin(
    state: State, timerCount: int, changeCount: int, lastState: bool,
    lastChangeTs: real, invert: bool, timer: Timer)

  /** Emitted events with the input state passed along. */
  type Events = seq<(Event, bool)>

  /** GetState: the pin reads active when its level equals `onValue`,
      flipped when the input is inverted. */
  function ActiveState(cfg: Config, invert: bool, level: bool): bool {
    ((if level then 1 else 0) == cfg.onValue) != invert
  }

  /** DetectReset: within the first 30 s of uptime, a change more than 5 s
      after the previous one restarts the count and the tenth counted change
      emits a reset. */
  function ResetStep(cfg: Config, p: Pin, now: real, cur: bool): (Pin, Events) {
    if cfg.enableReset && now < ResetUptimeLimit then
      var (c, fired) := CountChange(p.changeCount, now - p.lastChangeTs, ResetGap);
      (p.(changeCount := c), if fired then [(Reset, cur)] else [])
    else (p, [])
  }

  /** The click state machine's reaction to a level change to `cur`. */
  function ClickStep(cfg: Config, p: Pin, cur: bool): (Pin, Events) {
    match p.state
    case Idle =>
      if cur then (p.(timer := Armed(cfg.shortPressMs), state := WaitOffSingle, timerCount := 0), [])
      else (p, [])
    case WaitOffSingle =>
      if !cur then (p.(state := WaitOnDouble), []) else (p, [])
    case WaitOnDouble =>
      if cur then (p.(timer := Armed(cfg.shortPressMs), state := WaitOffDouble, timerCount := 0), [])
      else (p, [])
    case WaitOffDouble =>
      if !cur then (p.(timer := Stopped, state := Idle), [(Double, cur)]) else (p, [])
    case WaitOffLong =>
      if !cur then
        (p.(timer := Stopped, state := Idle), if p.timerCount == 1 then [(Single, cur)] else [])
      else (p, [])
  }

  /** HandleGPIOInt with the pin reading `level` at uptime `now`. */
  function Interrupt(cfg: Config, p: Pin, level: bool, now: real): (Pin, Events) {
    var cur := ActiveState(cfg, p.invert, level);
    if cur == p.lastState then (p, [])
    else
      var (p1, resetEvents) := ResetStep(cfg, p.(lastState := cur), now, cur);
      var (p2, clickEvents) := ClickStep(cfg, p1, cur);
      (p2.(lastChangeTs := now), [(Change, cur)] + resetEvents + clickEvents)
  }

  /** HandleTimer with the pin reading `level`: the one-shot timer has run
      out, so it is stopped unless re-armed here. */
  function TimerFired(cfg: Config, p: Pin, level: bool): (Pin, Events) {
    var cur := ActiveState(cfg, p.invert, level);
    var q := p.(timerCount := p.timerCount + 1, lastState := cur, timer := Stopped);
    match p.state
    case Idle => (q, [])
    case WaitOffSingle => (q.(timer := Armed(cfg.longPressMs - cfg.shortPressMs), state := WaitOffLong), [])
    case WaitOffDouble => (q.(timer := Armed(cfg.longPressMs - cfg.shortPressMs), state := WaitOffLong), [])
    case WaitOnDouble => (q.(state := Idle), [(Single, cur)])
    case WaitOffLong => (q, if q.timerCount == 2 then [(Long, cur)] else [])
  }

  /** The state every pin keeps: the reset count stays below ten and the
      timer count is never negative. */
  predicate PinValid(p: Pin) {
    0 <= p.changeCount < ResetChanges && p.timerCount >= 0
  }

  /** Both handlers keep the pin valid. */
  lemma {:induction false} HandlersKeepValid(cfg: Config, p: Pin, level: bool, now: real)
    requires PinValid(p)
    ensures PinValid(Interrupt(cfg, p, level, now).0)
    ensures PinValid(TimerFired(cfg, p, level).0)
  {
    CountChangeSpec(p.changeCount, now - p.lastChangeTs, ResetGap);
  }

  /** An interrupt that finds the input unchanged is noise: nothing
      changes and nothing is emitted. */
  lemma {:induction false} NoiseIgnored(cfg: Config, p: Pin, level: bool, now: real)
    requires ActiveState(cfg, p.invert, level) == p.lastState
    ensures Interrupt(cfg, p, level, now) == (p, [])
  {
  }

  /** A real change is reported to the handlers first, as a Change event
      with the new state, and its time is recorded. */
  lemma {:induction false} ChangeReportedFirst(cfg: Config, p: Pin, level: bool, now: real)
    requires ActiveState(cfg, p.invert, level) != p.lastState
    ensures var (q, events) := Interrupt(cfg, p, level, now);
      && |events| >= 1 && events[0] == (Change, !p.lastState)
      && q.lastState == !p.lastState && q.lastChangeTs == now
  {
  }

  /** Press, release, press, release without the timer running out: a
      double click, and the detector is idle again. */
  lemma {:induction false} DoubleClick(
    cfg: Config, p: Pin, hi: bool, lo: bool, t1: real, t2: real, t3: real, t4: real)
    requires p.state == Idle && !p.lastState
    requires ActiveState(cfg, p.invert, hi) && !ActiveState(cfg, p.invert, lo)
    ensures var (p1, _) := Interrupt(cfg, p, hi, t1);
      var (p2, _) := Interrupt(cfg, p1, lo, t2);
      var (p3, _) := Interrupt(cfg, p2, hi, t3);
      var (p4, e4) := Interrupt(cfg, p3, lo, t4);
      && p1.state == WaitOffSingle && p2.state == WaitOnDouble && p3.state == WaitOffDouble
      && p4.state == Idle && p4.timer == Stopped
      && e4[|e4| - 1] == (Double, false)
  {
  }

  /** The timer running out while waiting for a second press reports a
      single click and returns to idle. */
  lemma {:induction false} SingleOnTimeout(cfg: Config, p: Pin, level: bool)
    requires p.state == WaitOnDouble
    ensures TimerFired(cfg, p, level).0.state == Idle
    ensures TimerFired(cfg, p, level).1 == [(Single, ActiveState(cfg, p.invert, level))]
  {
  }

  /** Holding a press past the short duration moves to the long wait and
      re-arms the timer for the rest of the long duration; when it runs out
      again (the second expiry of this press) a long press is reported. */
  lemma {:induction false} LongPress(cfg: Config, p: Pin, hi: bool, lo: bool, t: real)
    requires p.state == Idle && !p.lastState
    requires ActiveState(cfg, p.invert, hi) && !ActiveState(cfg, p.invert, lo)
    ensures var (p1, _) := Interrupt(cfg, p, hi, t);
      var (p2, e2) := TimerFired(cfg, p1, hi);
      var (p3, e3) := TimerFired(cfg, p2, hi);
      var (p4, e4) := Interrupt(cfg, p3, lo, t);
      && p1.timer == Armed(cfg.shortPressMs)
      && p2.state == WaitOffLong && p2.timer == Armed(cfg.longPressMs - cfg.shortPressMs) && e2 == []
      && p3.state == WaitOffLong && e3 == [(Long, true)]
      && p4.state == Idle && (Single, false) !in e4 && (Long, false) !in e4
  {
    var (p1, _) := Interrupt(cfg, p, hi, t);
    var (p3, _) := TimerFired(cfg, TimerFired(cfg, p1, hi).0, hi);
    var (_, e4) := Interrupt(cfg, p3, lo, t);
    var (_, r4) := ResetStep(cfg, p3.(lastState := false), t, false);
    assert e4 == [(Change, false)] + r4;
  }

  /** Releasing after the short duration but before the long one reports a
      single click; after a long press the release reports nothing more. */
  lemma {:induction false} ReleaseFromLongWait(cfg: Config, p: Pin, level: bool, now: real)
    requires p.state == WaitOffLong && p.lastState && !ActiveState(cfg, p.invert, level)
    ensures var (q, events) := Interrupt(cfg, p, level, now);
      var clicks := ClickStep(cfg, ResetStep(cfg, p.(lastState := false), now, false).0, false).1;
      && q.state == Idle && q.timer == Stopped
      && clicks == (if p.timerCount == 1 then [(Single, false)] else [])
      && events == [(Change, false)] + ResetStep(cfg, p.(lastState := false), now, false).1 + clicks
  {
  }

  /** The reset gesture: in the first 30 s of uptime, with reset enabled,
      a change after nine quick ones (gaps of at most 5 s) emits a reset and
      zeroes the count; a gap over 5 s restarts the count at one; outside
      that window nothing is counted. */
  lemma {:induction false} ResetGesture(cfg: Config, p: Pin, now: real, cur: bool)
    requires PinValid(p)
    ensures var (q, events) := ResetStep(cfg, p, now, cur);
      && (!(cfg.enableReset && now < ResetUptimeLimit) ==> q == p && events == [])
      && (cfg.enableReset && now < ResetUptimeLimit ==>
            && (events == [(Reset, cur)] <==> now - p.lastChangeTs <= ResetGap && p.changeCount == ResetChanges - 1)
            && (events == [(Reset, cur)] ==> q.changeCount == 0)
            && (now - p.lastChangeTs > ResetGap ==> q.changeCount == 1))
  {
    CountChangeSpec(p.changeCount, now - p.lastChangeTs, ResetGap);
  }

  /** An input pin with click detection. Events go to the handlers of
      `input`. */
  class InputPin {
    const cfg: Config
    const input: Input
    var invert: bool
    var lastState: bool
    var changeCount: int
    var lastChangeTs: real
    var state: State
    var timerCount: int
    var timer: Timer

    /** The fields as one value. */
    function Snap(): Pin
      reads this
    {
      Pin(state, timerCount, changeCount, lastState, lastChangeTs, invert, timer)
    }

    ghost predicate Valid()
      reads this
    {
      PinValid(Snap())
    }

    constructor (input: Input, cfg: Config)
      ensures this.input == input && this.cfg == cfg
      ensures Snap() == Pin(Idle, 0, 0, false, 0.0, false, Stopped)
      ensures Valid()
    {
      this.input := input;
      this.cfg := cfg;
      invert := false;
      lastState := false;
      changeCount := 0;
      lastChangeTs := 0.0;
      state := Idle;
      timerCount := 0;
      timer := Stopped;
    }

    /** GetState: reads the pin, caches the result as the last state. */
    method GetState(level: bool) returns (s: bool)
      modifies this
      ensures s == ActiveState(cfg, invert, level)
      ensures Snap() == old(Snap()).(lastState := s)
    {
      s := ((if level then 1 else 0) == cfg.onValue) != invert;
      lastState := s;
    }

    /** SetInvert: stores the flag and re-reads the pin. */
    method SetInvert(inv: bool, level: bool)
      modifies this
      ensures Snap() == old(Snap()).(invert := inv, lastState := ActiveState(cfg, inv, level))
    {
      invert := inv;
      var _ := GetState(level);
    }

    /** Emits one event to the handlers. */
    method Emit(ev: Event, cur: bool, ghost base: seq<Invocation>, ghost sent: Events)
      requires input.calls == base + DispatchAll(input.handlers, sent)
      modifies input
      ensures input.handlers == old(input.handlers)
      ensures input.calls == base + DispatchAll(input.handlers, sent + [(ev, cur)])
    {
      input.CallHandlers(ev, cur);
      DispatchAllSnoc(input.handlers, sent, (ev, cur));
    }

    /** DetectReset. */
    method DetectReset(now: real, cur: bool)
      requires Valid()
      modifies this, input
      ensures Valid()
      ensures Snap() == ResetStep(cfg, old(Snap()), now, cur).0
      ensures input.handlers == old(input.handlers)
      ensures input.calls == old(input.calls)
        + DispatchAll(input.handlers, ResetStep(cfg, old(Snap()), now, cur).1)
    {
      CountChangeSpec(changeCount, now - lastChangeTs, ResetGap);
      if cfg.enableReset && now < ResetUptimeLimit {
        if now - lastChangeTs > ResetGap {
          changeCount := 0;
        }
        changeCount := changeCount + 1;
        if changeCount >= ResetChanges {
          changeCount := 0;
          input.CallHandlers(Reset, cur);
          assert DispatchAll(input.handlers, [(Reset, cur)]) == Dispatch(input.handlers, Reset, cur) by {
            assert [(Reset, cur)][1..] == [];
          }
        }
      }
    }

    /** HandleGPIOInt with the pin reading `level` at uptime `now`. */
    method HandleGPIOInt(level: bool, now: real)
      requires Valid()
      modifies this, input
      ensures Valid()
      ensures Snap() == Interrupt(cfg, old(Snap()), level, now).0
      ensures input.handlers == old(input.handlers)
      ensures input.calls == old(input.calls)
        + DispatchAll(input.handlers, Interrupt(cfg, old(Snap()), level, now).1)
    {
      var last := lastState;
      var cur := GetState(level);
      if cur == last {
        return;
      }
      ghost var p1 := Snap();
      input.CallHandlers(Change, cur);
      assert DispatchAll(input.handlers, [(Change, cur)]) == Dispatch(input.handlers, Change, cur) by {
        assert [(Change, cur)][1..] == [];
      }
      DetectReset(now, cur);
      ghost var resetEvents := ResetStep(cfg, p1, now, cur).1;
      DispatchAllAppend(input.handlers, [(Change, cur)], resetEvents);
      ClickOnChange(cur, old(input.calls), [(Change, cur)] + resetEvents);
      lastChangeTs := now;
    }

    /** The click state machine's switch in HandleGPIOInt, after the change
        events `sent` went to the handlers. */
    method ClickOnChange(cur: bool, ghost base: seq<Invocation>, ghost sent: Events)
      requires Valid()
      requires input.calls == base + DispatchAll(input.handlers, sent)
      modifies this, input
      ensures Valid()
      ensures Snap() == ClickStep(cfg, old(Snap()), cur).0
      ensures input.handlers == old(input.handlers)
      ensures input.calls == base + DispatchAll(input.handlers, sent + ClickStep(cfg, old(Snap()), cur).1)
    {
      assert sent + [] == sent;
      match state {
        case Idle =>
          if cur {
            timer := Armed(cfg.shortPressMs);
            state := WaitOffSingle;
            timerCount := 0;
          }
        case WaitOffSingle =>
          if !cur {
            state := WaitOnDouble;
          }
        case WaitOnDouble =>
          if cur {
            timer := Armed(cfg.shortPressMs);
            state := WaitOffDouble;
            timerCount := 0;
          }
        case WaitOffDouble =>
          if !cur {
            timer := Stopped;
            Emit(Double, cur, base, sent);
            state := Idle;
          }
        case WaitOffLong =>
          if !cur {
            timer := Stopped;
            if timerCount == 1 {
              Emit(Single, cur, base, sent);
            }
            state := Idle;
          }
      }
    }

    /** HandleTimer with the pin reading `level`. */
    method HandleTimer(level: bool)
      requires Valid()
      modifies this, input
      ensures Valid()
      ensures Snap() == TimerFired(cfg, old(Snap()), level).0
      ensures input.handlers == old(input.handlers)
      ensures input.calls == old(input.calls)
        + DispatchAll(input.handlers, TimerFired(cfg, old(Snap()), level).1)
    {
      timer := Stopped;
      timerCount := timerCount + 1;
      var cur := GetState(level);
      assert input.calls == old(input.calls) + DispatchAll(input.handlers, []);
      match state {
        case Idle =>
        case WaitOffSingle =>
          timer := Armed(cfg.longPressMs - cfg.shortPressMs);
          state := WaitOffLong;
        case WaitOffDouble =>
          timer := Armed(cfg.longPressMs - cfg.shortPressMs);
          state := WaitOffLong;
        case WaitOnDouble =>
          Emit(Single, cur, old(input.calls), []);
          state := Idle;
        case WaitOffLong =>
          if timerCount == 2 {
            Emit(Long, cur, old(input.calls), []);
          }
      }
    }
  }
}
