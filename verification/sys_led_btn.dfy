/** The system LED and button (src/shelly_sys_led_btn.cpp): the LED shows
    the most urgent device state as a blink pattern, and a single press of
    the button steps the switch outputs through all on/off combinations. */
module SysLedBtn {
  import Input

  /** What CheckSysLED looks at besides its own state. */
  datatype LedEnv = LedEnv(
    btnHeld: bool, staConnecting: bool, otaInProgress: bool, apRunning: bool,
    staEnabled: bool, serviceRunning: bool, paired: bool)

  /** The conditions in priority order: 0 identify, 1 button held, 2 Wi-Fi
      connecting, 3 OTA, 4 AP provisioning, 5 HAP server not running,
      6 unpaired, 7 nothing to show. */
  function Level(identifying: bool, e: LedEnv): (r: int)
    ensures 0 <= r <= 7
  {
    if identifying then 0
    else if e.btnHeld then 1
    else if e.staConnecting then 2
    else if e.otaInProgress then 3
    else if e.apRunning && !e.staEnabled then 4
    else if !e.serviceRunning then 5
    else if !e.paired then 6
    else 7
  }

  /** The pattern for each level, (on ms, off ms): 1 ms on means steady
      on, 0 means off. */
  function PatternOf(level: int): (int, int) {
    match level
    case 0 => (100, 100)
    case 1 => (1, 0)
    case 2 => (200, 200)
    case 3 => (250, 250)
    case 4 => (875, 25)
    case 5 => (25, 875)
    case 6 => (500, 500)
    case _ => (0, 0)
  }

  function LedPattern(identifying: bool, e: LedEnv): (int, int) {
    PatternOf(Level(identifying, e))
  }

  /** Every state has its own pattern, so the LED tells them apart; only
      "nothing to show" leaves the LED off, and only the held button is
      steady on. */
  lemma {:induction false} PatternsDistinct(i1: bool, e1: LedEnv, i2: bool, e2: LedEnv)
    ensures Level(i1, e1) != Level(i2, e2) ==> LedPattern(i1, e1) != LedPattern(i2, e2)
    ensures LedPattern(i1, e1).0 == 0 <==> Level(i1, e1) == 7
    ensures LedPattern(i1, e1).0 == 1 <==> !i1 && e1.btnHeld
  {
  }

  /** A condition decides the pattern whatever the less urgent ones are. */
  lemma {:induction false} PriorityOrder(identifying: bool, e: LedEnv, f: LedEnv)
    ensures identifying ==> LedPattern(identifying, e) == LedPattern(identifying, f) == (100, 100)
    ensures !identifying && e.btnHeld && f.btnHeld ==> LedPattern(identifying, e) == LedPattern(identifying, f)
    ensures (!identifying && !e.btnHeld && !f.btnHeld && e.staConnecting && f.staConnecting) ==>
      LedPattern(identifying, e) == LedPattern(identifying, f)
    ensures (!identifying && !e.btnHeld && !e.staConnecting && e.otaInProgress
      && !f.btnHeld && !f.staConnecting && f.otaInProgress) ==> LedPattern(identifying, e) == LedPattern(identifying, f)
  {
  }

  datatype PinMode = ModeInput | ModeOutput

  /** The blink programming for a pattern: (0, 0) stops blinking; an
      active-low LED swaps the on and off times. */
  function Polar(activeHigh: bool, on: int, off: int): (int, int) {
    if on == 0 && off == 0 then (0, 0) else if activeHigh then (on, off) else (off, on)
  }

  /** The button's input configuration. */
  datatype BtnConfig = BtnConfig(pin: int, onValue: bool, pullDown: bool, longPressMs: int)

  /** The n switch states as an n-bit number, switch i being bit i. */
  function Bits(s: seq<bool>): nat
    decreases |s|
  {
    if |s| == 0 then 0 else (if s[0] then 1 else 0) + 2 * Bits(s[1..])
  }

  /** The low n bits of v as n switch states. */
  function FromBits(v: nat, n: nat): (r: seq<bool>)
    ensures |r| == n
  {
    if n == 0 then [] else [v % 2 == 1] + FromBits(v / 2, n - 1)
  }

  predicate AllOn(s: seq<bool>) {
    forall i :: 0 <= i < |s| ==> s[i]
  }

  predicate AllOff(s: seq<bool>) {
    forall i :: 0 <= i < |s| ==> !s[i]
  }

  /** One step of the cycle, bit by bit: the lowest off switch turns on
      and every switch below it turns off. */
  function Inc(s: seq<bool>): (r: seq<bool>)
    ensures |r| == |s|
    decreases |s|
  {
    if |s| == 0 then [] else if s[0] then [false] + Inc(s[1..]) else [true] + s[1..]
  }

  /** A single press adds one to the number the switches show: all on
      wraps to all off, anything else goes up by exactly one. */
  lemma {:induction false} IncSpec(s: seq<bool>)
    ensures AllOn(s) ==> AllOff(Inc(s))
    ensures !AllOn(s) ==> Bits(Inc(s)) == Bits(s) + 1
    decreases |s|
  {
    if |s| > 0 {
      IncSpec(s[1..]);
      if s[0] {
        assert AllOn(s) ==> AllOn(s[1..]);
        assert !AllOn(s) ==> !AllOn(s[1..]);
        assert Inc(s)[1..] == Inc(s[1..]);
        if AllOn(s) {
          forall i | 0 <= i < |s|
            ensures !Inc(s)[i]
          {
            if i > 0 {
              assert Inc(s)[i] == Inc(s[1..])[i - 1];
            }
          }
        }
      } else {
        assert Inc(s)[1..] == s[1..];
      }
    }
  }

  /** Reading the states as a number and writing it back changes nothing. */
  lemma {:induction false} FromBitsBits(t: seq<bool>)
    ensures FromBits(Bits(t), |t|) == t
    decreases |t|
  {
    if |t| > 0 {
      FromBitsBits(t[1..]);
      assert Bits(t) / 2 == Bits(t[1..]);
      assert t == [t[0]] + t[1..];
    }
  }

  /** Adding one to the number and writing its low bits back is the
      bit-level step. */
  lemma {:induction false} FromBitsInc(s: seq<bool>)
    ensures FromBits(Bits(s) + 1, |s|) == Inc(s)
    decreases |s|
  {
    if |s| > 0 {
      var v := Bits(s) + 1;
      if s[0] {
        assert v / 2 == Bits(s[1..]) + 1 && v % 2 == 0;
        FromBitsInc(s[1..]);
      } else {
        assert v / 2 == Bits(s[1..]) && v % 2 == 1;
        FromBitsBits(s[1..]);
      }
    }
  }

  lemma {:induction false} BitsSnoc(s: seq<bool>, b: bool, p: nat)
    requires p == Pow2(|s|)
    ensures Bits(s + [b]) == Bits(s) + (if b then p else 0)
    decreases |s|
  {
    if |s| > 0 {
      assert (s + [b])[1..] == s[1..] + [b];
      BitsSnoc(s[1..], b, Pow2(|s| - 1));
    } else {
      assert (s + [b])[1..] == [];
    }
  }

  function Pow2(n: nat): nat {
    if n == 0 then 1 else 2 * Pow2(n - 1)
  }

  /** The module's state: the LED and button set up at boot and the
      pattern last programmed. */
  class SysLed {
    var ledGpio: int
    var ledEnable: bool
    var activeHigh: bool
    var identifyCount: nat
    /** The cached pattern (s_on_ms, s_off_ms). */
    var cachedOn: int
    var cachedOff: int
    /** The LED pin: its mode, its level when steady and its blink
        programming. */
    var mode: PinMode
    var level: bool
    var blink: (int, int)
    /** How many times the blinking was programmed. */
    var blinkCalls: nat
    var btn: BtnConfig
    var hasBtn: bool
    var identifyRegistered: bool

    /** The blink programming matches the cached pattern. */
    predicate Valid()
      reads this
    {
      blink == Polar(activeHigh, cachedOn, cachedOff)
    }

    constructor ()
      ensures ledGpio == -1 && !ledEnable && !activeHigh && identifyCount == 0
      ensures cachedOn == 0 && cachedOff == 0 && mode == ModeInput && blink == (0, 0)
      ensures blinkCalls == 0 && !hasBtn && !identifyRegistered && Valid()
    {
      ledGpio, ledEnable, activeHigh, identifyCount := -1, false, false, 0;
      cachedOn, cachedOff := 0, 0;
      mode, level, blink := ModeInput, false, (0, 0);
      blinkCalls := 0;
      btn, hasBtn := BtnConfig(-1, false, false, 0), false;
      identifyRegistered := false;
    }

    method InitSysLED(gpio: int, high: bool)
      requires Valid() && cachedOn == 0 && cachedOff == 0
      modifies this
      ensures ledGpio == gpio && activeHigh == high && ledEnable && identifyRegistered && Valid()
      ensures identifyCount == old(identifyCount) && mode == old(mode) && blink == old(blink)
      ensures cachedOn == 0 && cachedOff == 0 && blinkCalls == old(blinkCalls)
      ensures btn == old(btn) && hasBtn == old(hasBtn)
    {
      ledGpio := gpio;
      activeHigh := high;
      ledEnable := true;
      identifyRegistered := true;
    }

    /** InitSysBtn: the button is an input with a 10 s long press, pulled
        towards its off level. */
    method InitSysBtn(pin: int, onValue: bool)
      modifies this
      ensures pin < 0 ==> hasBtn == old(hasBtn) && btn == old(btn)
      ensures pin >= 0 ==> hasBtn && btn == BtnConfig(pin, onValue, onValue, 10000)
      ensures ledGpio == old(ledGpio) && ledEnable == old(ledEnable) && activeHigh == old(activeHigh)
      ensures identifyCount == old(identifyCount) && cachedOn == old(cachedOn) && cachedOff == old(cachedOff)
      ensures mode == old(mode) && level == old(level) && blink == old(blink) && blinkCalls == old(blinkCalls)
      ensures identifyRegistered == old(identifyRegistered)
    {
      if pin < 0 {
        return;
      }
      btn := BtnConfig(pin, onValue, onValue, 10000);
      hasBtn := true;
    }

    /** What one CheckSysLED step does to the LED, against the state before
        it. */
    twostate predicate LedRefreshed(e: LedEnv)
      reads this
    {
      && (ledGpio < 0 || !ledEnable ==>
        identifyCount == old(identifyCount) && mode == old(mode) && blink == old(blink) && blinkCalls == old(blinkCalls))
      && (ledGpio >= 0 && ledEnable ==>
        var (on, off) := LedPattern(old(identifyCount) > 0, e);
        && identifyCount == (if old(identifyCount) > 0 then old(identifyCount) - 1 else 0)
        && (on > 1 ==> (mode == ModeOutput && blink == Polar(activeHigh, on, off)
              && blinkCalls == old(blinkCalls) + (if (on, off) != (old(cachedOn), old(cachedOff)) then 1 else 0)))
        && (on == 1 ==> mode == ModeOutput && level == activeHigh && blink == (0, 0) && blinkCalls == old(blinkCalls) + 1)
        && (on == 0 ==> mode == ModeInput && blink == old(blink) && blinkCalls == old(blinkCalls)))
    }

    /** The pin set-up, the button and the identify registration are left
        as they were. */
    twostate predicate SetupUnchanged()
      reads this
    {
      && ledGpio == old(ledGpio) && ledEnable == old(ledEnable) && activeHigh == old(activeHigh)
      && btn == old(btn) && hasBtn == old(hasBtn) && identifyRegistered == old(identifyRegistered)
    }

    /** CheckSysLED: shows the pattern of the most urgent condition; a
        blinking pattern is reprogrammed only when it differs from the
        cached one, steady on clears the cache, and no pattern releases the
        pin. Each call counts one step of an identify sequence down. */
    method CheckSysLED(e: LedEnv)
      requires Valid()
      modifies this
      ensures Valid()
      ensures LedRefreshed(e)
      ensures SetupUnchanged()
    {
      if ledGpio < 0 || !ledEnable {
        return;
      }
      var (on, off) := LedPattern(identifyCount > 0, e);
      if identifyCount > 0 {
        identifyCount := identifyCount - 1;
      }
      if on > 0 {
        if on > 1 {
          mode := ModeOutput;
          if on != cachedOn || off != cachedOff {
            blink := if activeHigh then (on, off) else (off, on);
            blinkCalls := blinkCalls + 1;
            cachedOn, cachedOff := on, off;
          }
        } else {
          cachedOn, cachedOff := 0, 0;
          blink := (0, 0);
          blinkCalls := blinkCalls + 1;
          mode, level := ModeOutput, activeHigh;
        }
      } else {
        mode := ModeInput;
      }
    }

    /** The identify callback: three identify blinks. */
    method Identify(e: LedEnv)
      requires Valid()
      modifies this
      ensures Valid()
      ensures ledGpio >= 0 && ledEnable ==> identifyCount == 2 && blink == Polar(activeHigh, 100, 100)
      ensures !(ledGpio >= 0 && ledEnable) ==> identifyCount == 3
      ensures ledGpio == old(ledGpio) && ledEnable == old(ledEnable) && activeHigh == old(activeHigh)
    {
      identifyCount := 3;
      CheckSysLED(e);
    }

    /** ButtonHandler: a change refreshes the LED, a single press cycles
        the switches (given as their output states in component order) and
        a long press starts the reset sequence. Returns the switches' new
        states and whether the reset sequence was started. */
    method ButtonHandler(ev: Input.Event, e: LedEnv, switches: seq<bool>) returns (newStates: seq<bool>, resetSequence: bool)
      requires Valid() && |switches| <= 32
      modifies this
      ensures Valid()
      ensures newStates == (if ev.Single? then Inc(switches) else switches)
      ensures resetSequence <==> ev.Long?
      ensures ev.Change? ==> LedRefreshed(e)
      ensures !ev.Change? ==>
        && identifyCount == old(identifyCount) && cachedOn == old(cachedOn) && cachedOff == old(cachedOff)
        && mode == old(mode) && level == old(level) && blink == old(blink) && blinkCalls == old(blinkCalls)
      ensures SetupUnchanged()
    {
      newStates, resetSequence := switches, false;
      match ev {
        case Change => CheckSysLED(e);
        case Single => newStates := CycleSwitches(switches);
        case Long => resetSequence := true;
        case _ =>
      }
    }
  }

  /** The single-press loops: the switches' states are read into a number
      (switch i as bit i), one is added, and the low n bits are written back,
      lowest first. The source's counter is 32 bits wide and takes bit i
      with a mask; with at most 32 switches the carry out of the counter
      only reaches a bit that is not written back, so the model keeps the
      sum unbounded and takes the bits by halving. */
  method CycleSwitches(switches: seq<bool>) returns (newStates: seq<bool>)
    requires |switches| <= 32
    ensures newStates == Inc(switches)
  {
    if |switches| == 0 {
      return switches;
    }
    var state := ReadSwitches(switches);
    FromBitsInc(switches);
    newStates := WriteSwitches(state + 1, |switches|);
  }

  /** The first loop: switch i that is on adds 2^i. */
  method ReadSwitches(switches: seq<bool>) returns (state: nat)
    ensures state == Bits(switches)
  {
    var n := 0;
    var bit: nat := 1;
    state := 0;
    while n < |switches|
      invariant 0 <= n <= |switches|
      invariant state == Bits(switches[..n]) && bit == Pow2(n)
    {
      assert switches[..n + 1] == switches[..n] + [switches[n]];
      BitsSnoc(switches[..n], switches[n], bit);
      if switches[n] {
        state := state + bit;
      }
      bit := 2 * bit;
      n := n + 1;
    }
    assert switches[..n] == switches;
  }

  /** The second loop: switch i gets bit i of v. */
  method WriteSwitches(v: nat, n: nat) returns (newStates: seq<bool>)
    ensures newStates == FromBits(v, n)
  {
    var i := 0;
    var rest := v;
    newStates := [];
    while i < n
      invariant 0 <= i <= n
      invariant newStates + FromBits(rest, n - i) == FromBits(v, n)
    {
      ghost var tail := FromBits(rest / 2, n - i - 1);
      assert FromBits(rest, n - i) == [rest % 2 == 1] + tail;
      assert newStates + FromBits(rest, n - i) == (newStates + [rest % 2 == 1]) + tail;
      newStates := newStates + [rest % 2 == 1];
      rest := rest / 2;
      i := i + 1;
    }
    assert FromBits(rest, 0) == [];
    assert newStates + [] == newStates;
  }
}
