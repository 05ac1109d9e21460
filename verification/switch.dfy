/** A relay switch driven by HomeKit, RPC and a physical input
    (src/shelly_switch.cpp): configuration validation, the output setter
    with its auto-off timer, and the input modes. */
module Switch {
  import opened Wrappers
  import opened Common
  import Input

  /** The stored configuration. `state` is the remembered output state. */
  datatype SwConfig = SwConfig(
    name: string, svcType: int, valveType: int, inMode: int, inInverted: bool,
    initialState: int, autoOff: bool, autoOffDelay: real, stateLedEn: int,
    state: bool)

  /** A SetConfig request. A missing field keeps the stored value, except
      `inMode`, where -2 means absent, and `inInverted`, where -1 means
      absent (otherwise 0 or 1). */
  datatype SwConfigRequest = SwConfigRequest(
    name: Option<string>, svcType: Option<int>, valveType: Option<int>,
    inMode: int, inInverted: int, initialState: Option<int>,
    autoOff: Option<int>, autoOffDelay: Option<real>, stateLedEn: Option<int>)

  function OrElse(o: Option<int>, d: int): int {
    if o.Some? then o.value else d
  }

  /** The validation of SetConfig, in the order of the source's checks. */
  function ValidateSwConfig(cur: SwConfig, req: SwConfigRequest): Status {
    var svc := OrElse(req.svcType, cur.svcType);
    var valve := OrElse(req.valveType, cur.valveType);
    var init := OrElse(req.initialState, cur.initialState);
    var led := OrElse(req.stateLedEn, cur.stateLedEn);
    if !NameOk(req.name) then StatusError(InvalidArgument, "invalid name (too long, max 64)")
    else if svc < -1 || svc > 3 then StatusError(InvalidArgument, "invalid svc_type")
    else if (svc != 3 && valve != -1) || (svc == 3 && valve < 0) || (svc == 3 && valve > 3) then
      StatusError(InvalidArgument, "invalid valve_type")
    else if req.inMode != -2 && (req.inMode < 0 || req.inMode >= InModeMax) then
      StatusError(InvalidArgument, "invalid in_mode")
    else if init < 0 || init >= InitialStateMax || (cur.inMode == InModeAbsent && init == InitialInput) then
      StatusError(InvalidArgument, "invalid initial_state")
    else if (cur.stateLedEn == -1 && led != -1) || (cur.stateLedEn != -1 && led != 0 && led != 1) then
      StatusError(InvalidArgument, "invalid state_led_en")
    else StatusOk
  }

  /** The configuration after an accepted SetConfig (with the name update
      as intended) and whether a restart is required. */
  function ApplySwConfig(cur: SwConfig, req: SwConfigRequest): (SwConfig, bool) {
    var svc := OrElse(req.svcType, cur.svcType);
    var valve := OrElse(req.valveType, cur.valveType);
    var led := OrElse(req.stateLedEn, cur.stateLedEn);
    var inChanged := req.inMode != -2 && req.inMode != cur.inMode;
    var invChanged := req.inInverted != -1 && (req.inInverted != 0) != cur.inInverted;
    var c := SwConfig(
      NewName(cur.name, req.name), svc, valve,
      if inChanged then req.inMode else cur.inMode,
      if invChanged then req.inInverted != 0 else cur.inInverted,
      OrElse(req.initialState, cur.initialState),
      OrElse(req.autoOff, if cur.autoOff then 1 else 0) != 0,
      if req.autoOffDelay.Some? then req.autoOffDelay.value else cur.autoOffDelay,
      led, cur.state);
    var restart :=
      NameChange(cur.name, req.name) || svc != cur.svcType || valve != cur.valveType
      || (inChanged && (cur.inMode == InModeDetached || req.inMode == InModeDetached))
      || invChanged || led != cur.stateLedEn;
    (c, restart)
  }

  /** SetConfig accepts exactly: a name of at most 64 characters, svc_type
      in [-1, 3], a valve_type of -1 unless the service is a valve (then
      0..3), an absent or known in_mode, a known initial_state that is not
      "follow the input" for a switch without one, and a state_led_en that
      stays -1 where there is no LED and is 0 or 1 where there is. */
  lemma {:induction false} SwValidateSpec(cur: SwConfig, req: SwConfigRequest)
    ensures var svc := OrElse(req.svcType, cur.svcType);
      var valve := OrElse(req.valveType, cur.valveType);
      var init := OrElse(req.initialState, cur.initialState);
      var led := OrElse(req.stateLedEn, cur.stateLedEn);
      ValidateSwConfig(cur, req).IsOk() <==>
        && NameOk(req.name)
        && -1 <= svc <= 3
        && (if svc == 3 then 0 <= valve <= 3 else valve == -1)
        && (req.inMode == -2 || 0 <= req.inMode < InModeMax)
        && 0 <= init < InitialStateMax && !(cur.inMode == InModeAbsent && init == InitialInput)
        && (if cur.stateLedEn == -1 then led == -1 else led == 0 || led == 1)
  {
  }

  /** A restart is required exactly when the name, service type, valve
      type, input inversion or LED setting change, or when the input mode
      enters or leaves detached mode; other changes apply live. */
  lemma {:induction false} SwRestartSpec(cur: SwConfig, req: SwConfigRequest)
    ensures var (c, restart) := ApplySwConfig(cur, req);
      && (restart <==>
          c.name != cur.name || c.svcType != cur.svcType || c.valveType != cur.valveType
          || c.inInverted != cur.inInverted || c.stateLedEn != cur.stateLedEn
          || (c.inMode != cur.inMode && (cur.inMode == InModeDetached || c.inMode == InModeDetached)))
      && c.state == cur.state
      && (req.inMode == -2 ==> c.inMode == cur.inMode)
  {
  }

  /** The switch's output-related state. */
  datatype Sw = Sw(cfg: SwConfig, out: bool, led: bool, dirty: bool, timer: AutoOffTimer)

  /** SetOutputState: drives the output (and the state LED, if there is
      one), remembers the state, re-arms or clears auto-off and notifies
      the new state if the output changed. */
  function SetOutput(s: Sw, hasLed: bool, v: bool): (Sw, seq<bool>) {
    var changed := s.cfg.state != v;
    var s1 := s.(
      out := v,
      led := if hasLed then s.cfg.stateLedEn == 1 && v else s.led,
      cfg := s.cfg.(state := v),
      dirty := s.dirty || changed,
      timer := if v && s.cfg.autoOff then Armed(s.cfg.autoOffDelay) else Cleared);
    (s1, if v == s.out then [] else [v])
  }

  /** The output follows the request; the configuration is marked dirty
      only when the remembered state changes; auto-off is armed exactly
      when switching on with auto-off enabled; only an actual output change
      is notified. Setting the same state again changes nothing further. */
  lemma {:induction false} SetOutputSpec(s: Sw, hasLed: bool, v: bool)
    ensures var (s1, n) := SetOutput(s, hasLed, v);
      && s1.out == v && s1.cfg.state == v
      && (s1.dirty <==> s.dirty || s.cfg.state != v)
      && (s1.timer.Armed? <==> v && s.cfg.autoOff)
      && (n == [] <==> v == s.out) && (n != [] ==> n == [v])
      && SetOutput(s1, hasLed, v) == (s1, [])
  {
  }

  /** InputEventHandler with the input at `level`. */
  function OnInput(s: Sw, hasLed: bool, ev: Input.Event, level: bool): (Sw, seq<bool>) {
    var m := s.cfg.inMode;
    if m == InModeDetached then (s, [])
    else
      match ev
      case Change =>
        if m == InModeMomentary then (if level then SetOutput(s, hasLed, !s.out) else (s, []))
        else if m == InModeToggle then SetOutput(s, hasLed, level)
        else if m == InModeEdge then SetOutput(s, hasLed, !s.out)
        else if m == InModeActivation then
          if level then SetOutput(s, hasLed, true)
          else if s.out && s.cfg.autoOff then (s.(timer := Armed(s.cfg.autoOffDelay)), [])
          else (s, [])
        else (s, [])
      case Long => (if m == InModeMomentary then s.(timer := Cleared) else s, [])
      case _ => (s, [])
  }

  /** The input modes: momentary toggles on a rising edge, toggle follows
      the input, edge toggles on every change, activation switches on at a
      rising edge, detached ignores everything; a long press in momentary
      mode cancels auto-off. */
  lemma {:induction false} InputModes(s: Sw, hasLed: bool, ev: Input.Event, level: bool)
    ensures var (s1, _) := OnInput(s, hasLed, ev, level);
      && (s.cfg.inMode == InModeDetached ==> s1 == s)
      && (ev.Change? && s.cfg.inMode == InModeMomentary ==> s1.out == (if level then !s.out else s.out))
      && (ev.Change? && s.cfg.inMode == InModeToggle ==> s1.out == level)
      && (ev.Change? && s.cfg.inMode == InModeEdge ==> s1.out == !s.out)
      && (ev.Change? && s.cfg.inMode == InModeActivation ==> s1.out == (level || s.out))
      && (ev.Long? && s.cfg.inMode == InModeMomentary ==> s1 == s.(timer := Cleared))
      && (!ev.Change? ==> s1.out == s.out && s1.cfg == s.cfg)
  {
  }

  /** AutoOffTimerCB with the input reading `inLevel` (None when there is
      no input). The one-shot timer has fired, so it is no longer pending
      whichever way the callback goes. */
  function AutoOffFired(s: Sw, hasLed: bool, inLevel: Option<bool>): (Sw, seq<bool>) {
    var fired := s.(timer := Cleared);
    if !s.cfg.autoOff then (fired, [])
    else if s.cfg.inMode == InModeActivation && inLevel == Some(true) && s.out then
      (fired.(timer := Armed(s.cfg.autoOffDelay)), [])
    else SetOutput(fired, hasLed, false)
  }

  /** Auto-off switches the output off, unless auto-off was disabled in the
      meantime or an active input in activation mode holds it on. */
  lemma {:induction false} AutoOffSpec(s: Sw, hasLed: bool, inLevel: Option<bool>)
    ensures var (s1, _) := AutoOffFired(s, hasLed, inLevel);
      && (!s.cfg.autoOff ==> s1 == s.(timer := Cleared))
      && (s.cfg.autoOff && s.cfg.inMode == InModeActivation && inLevel == Some(true) && s.out ==>
            s1.out && s1.timer == Armed(s.cfg.autoOffDelay))
      && (s.cfg.autoOff && !(s.cfg.inMode == InModeActivation && inLevel == Some(true) && s.out) ==>
            !s1.out && s1.timer == Cleared)
  {
  }

  class ShellySwitch {
    const hasLed: bool
    var cfg: SwConfig
    var out: bool
    var led: bool
    var dirty: bool
    var timer: AutoOffTimer
    /** The output states notified to HomeKit, in order. */
    var notified: seq<bool>

    function Snap(): Sw
      reads this
    {
      Sw(cfg, out, led, dirty, timer)
    }

    constructor (cfg: SwConfig, hasLed: bool)
      ensures Snap() == Sw(cfg, false, false, false, Cleared) && this.hasLed == hasLed
      ensures notified == []
    {
      this.cfg := cfg;
      this.hasLed := hasLed;
      out, led, dirty, timer := false, false, false, Cleared;
      notified := [];
    }

    method SetOutputState(v: bool)
      modifies this
      ensures Snap() == SetOutput(old(Snap()), hasLed, v).0
      ensures notified == old(notified) + SetOutput(old(Snap()), hasLed, v).1
    {
      var cur := out;
      out := v;
      if hasLed {
        led := cfg.stateLedEn == 1 && v;
      }
      if cfg.state != v {
        cfg := cfg.(state := v);
        dirty := true;
      }
      if v && cfg.autoOff {
        timer := Armed(cfg.autoOffDelay);
      } else {
        timer := Cleared;
      }
      if v == cur {
        assert notified == notified + [];
        return;
      }
      notified := notified + [v];
    }

    /** SetConfig: returns the status and whether a restart is required. */
    method SetConfig(req: SwConfigRequest) returns (st: Status, restart: bool)
      modifies this
      ensures st == ValidateSwConfig(old(cfg), req)
      ensures st.IsOk() ==> (cfg, restart) == ApplySwConfig(old(cfg), req)
      ensures !st.IsOk() ==> cfg == old(cfg) && !restart
      ensures out == old(out) && dirty == old(dirty) && timer == old(timer) && notified == old(notified)
    {
      st := ValidateSwConfig(cfg, req);
      restart := false;
      if !st.IsOk() {
        return;
      }
      var name, svc, valve := cfg.name, OrElse(req.svcType, cfg.svcType), OrElse(req.valveType, cfg.valveType);
      var inMode, inv, led := cfg.inMode, cfg.inInverted, OrElse(req.stateLedEn, cfg.stateLedEn);
      if NameChange(name, req.name) {
        name := req.name.value;
        restart := true;
      }
      if cfg.svcType != svc {
        restart := true;
      }
      if cfg.valveType != valve {
        restart := true;
      }
      if req.inMode != -2 && inMode != req.inMode {
        if inMode == InModeDetached || req.inMode == InModeDetached {
          restart := true;
        }
        inMode := req.inMode;
      }
      if req.inInverted != -1 && inv != (req.inInverted != 0) {
        inv := req.inInverted != 0;
        restart := true;
      }
      if cfg.stateLedEn != led {
        restart := true;
      }
      cfg := SwConfig(name, svc, valve, inMode, inv,
        OrElse(req.initialState, cfg.initialState),
        OrElse(req.autoOff, if cfg.autoOff then 1 else 0) != 0,
        if req.autoOffDelay.Some? then req.autoOffDelay.value else cfg.autoOffDelay,
        led, cfg.state);
    }

    /** SetState: `state` is required. */
    method SetState(state: Option<bool>) returns (st: Status)
      modifies this
      ensures state.None? ==>
        (st == StatusError(InvalidArgument, "state is required")
         && Snap() == old(Snap()) && notified == old(notified))
      ensures state.Some? ==>
        (st == StatusOk
         && Snap() == SetOutput(old(Snap()), hasLed, state.value).0
         && notified == old(notified) + SetOutput(old(Snap()), hasLed, state.value).1)
    {
      if state.None? {
        return StatusError(InvalidArgument, "state is required");
      }
      SetOutputState(state.value);
      return StatusOk;
    }

    /** IsIdle: no auto-off is pending. */
    method IsIdle() returns (idle: bool)
      ensures idle <==> timer == Cleared
    {
      return timer.Cleared?;
    }

    method AutoOffTimerCB(inLevel: Option<bool>)
      modifies this
      ensures Snap() == AutoOffFired(old(Snap()), hasLed, inLevel).0
      ensures notified == old(notified) + AutoOffFired(old(Snap()), hasLed, inLevel).1
    {
      timer := Cleared;
      if !cfg.autoOff {
        assert notified == notified + [];
        return;
      }
      if cfg.inMode == InModeActivation && inLevel == Some(true) && out {
        timer := Armed(cfg.autoOffDelay);
        assert notified == notified + [];
        return;
      }
      SetOutputState(false);
    }

    method InputEventHandler(ev: Input.Event, level: bool)
      modifies this
      ensures Snap() == OnInput(old(Snap()), hasLed, ev, level).0
      ensures notified == old(notified) + OnInput(old(Snap()), hasLed, ev, level).1
    {
      var m := cfg.inMode;
      if m == InModeDetached {
        assert notified == notified + [];
        return;
      }
      match ev {
        case Change =>
          if m == InModeMomentary {
            if level {
              SetOutputState(!out);
            } else {
              assert notified == notified + [];
            }
          } else if m == InModeToggle {
            SetOutputState(level);
          } else if m == InModeEdge {
            SetOutputState(!out);
          } else if m == InModeActivation {
            if level {
              SetOutputState(true);
            } else if out && cfg.autoOff {
              timer := Armed(cfg.autoOffDelay);
              assert notified == notified + [];
            } else {
              assert notified == notified + [];
            }
          } else {
            assert notified == notified + [];
          }
        case Long =>
          if m == InModeMomentary {
            timer := Cleared;
          }
          assert notified == notified + [];
        case _ =>
          assert notified == notified + [];
      }
    }
  }
}
