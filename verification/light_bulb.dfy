/** A HomeKit light bulb (src/shelly_hap_light_bulb.cpp): range-checked
    RPC state, no-op setters, auto-off and the input modes. The output
    itself (colour maths, transitions) belongs to the controller and is
    recorded here only as an output update. */
module LightBulb {
  import opened Wrappers
  import opened Common
  import Input

  /** Bulb kinds: which colour characteristics exist. */
  datatype BulbType = White | Cct | Rgbw

  /** The bulb's settings. */
  datatype LbConfig = LbConfig(
    name: string, svcHidden: bool, inMode: int, inInverted: bool,
    initialState: int, autoOff: bool, autoOffDelay: real, transitionTime: int)

  /** The persisted output values (kept in the same configuration record
      by the source). */
  datatype LbOutput = LbOutput(state: bool, brightness: int, hue: int, saturation: int, colorTemperature: int)

  /** What the bulb tells the outside world, in order. */
  datatype LbNotice = OnNotice | HueNotice | SaturationNotice | BrightnessNotice | ColorTempNotice | OutputUpdate

  /** The bulb's state. */
  datatype Lb = Lb(cfg: LbConfig, out: LbOutput, dirty: bool, timer: AutoOffTimer)

  /** A SetState request; -1 means absent in every field, and `state` is
      otherwise 0 or 1. */
  datatype LbStateRequest = LbStateRequest(state: int, brightness: int, hue: int, saturation: int, colorTemperature: int)

  /** SetState's range checks, all made before anything changes. */
  function ValidateLbState(req: LbStateRequest): Status {
    if req.hue != -1 && (req.hue < 0 || req.hue > 360) then StatusError(InvalidArgument, "invalid hue (only 0-360)")
    else if req.saturation != -1 && (req.saturation < 0 || req.saturation > 100) then
      StatusError(InvalidArgument, "invalid saturation (only 0-100)")
    else if req.brightness != -1 && (req.brightness < 0 || req.brightness > 100) then
      StatusError(InvalidArgument, "invalid brightness (only 0-100)")
    else if req.colorTemperature != -1 && (req.colorTemperature < 50 || req.colorTemperature > 400) then
      StatusError(InvalidArgument, "invalid color_temperature (only 50-400)")
    else StatusOk
  }

  /** UpdateOnOff: unless forced, an unchanged state does nothing;
      otherwise the state is stored, notified, auto-off re-armed while on
      (whether or not auto-off is enabled: the timer callback checks that)
      and cleared while off, and the output updated. */
  function UpdateOnOffF(s: Lb, on: bool, force: bool): (Lb, seq<LbNotice>) {
    if !force && s.out.state == on then (s, [])
    else
      var s1 := s.(out := s.out.(state := on), dirty := true,
                   timer := if on then Armed(s.cfg.autoOffDelay) else Cleared);
      (s1, [OnNotice, OutputUpdate])
  }

  /** SetHue as written raises the hue notification without checking that
      the characteristic exists, and it exists only on colour bulbs: on a
      white or CCT bulb a changed hue dereferences a null pointer, which is
      undefined (None). Otherwise it agrees with SetHueF. */
  function SetHueAsWritten(s: Lb, bt: BulbType, v: int): (r: Option<(Lb, seq<LbNotice>)>)
    ensures r.None? <==> bt != Rgbw && s.out.hue != v
  {
    if s.out.hue == v then Some((s, []))
    else if bt != Rgbw then None
    else Some((s.(out := s.out.(hue := v), dirty := true), [HueNotice, OutputUpdate]))
  }

  /** SetHue as intended: like the other setters, the notification is
      raised only where the characteristic exists. */
  function SetHueF(s: Lb, bt: BulbType, v: int): (Lb, seq<LbNotice>) {
    if s.out.hue == v then (s, [])
    else (s.(out := s.out.(hue := v), dirty := true),
          (if bt == Rgbw then [HueNotice] else []) + [OutputUpdate])
  }

  /** A hue sent over RPC to a white bulb drives the as-written setter into
      undefined behaviour; on a colour bulb, or with an unchanged hue, the
      two agree. */
  lemma {:induction false} HueOnWhiteUndefined(s: Lb, bt: BulbType, v: int)
    ensures bt != Rgbw && s.out.hue != v ==> SetHueAsWritten(s, bt, v).None? && SetHueF(s, bt, v).1 == [OutputUpdate]
    ensures bt == Rgbw || s.out.hue == v ==> SetHueAsWritten(s, bt, v) == Some(SetHueF(s, bt, v))
  {
    assert [HueNotice] + [OutputUpdate] == [HueNotice, OutputUpdate];
    assert [] + [OutputUpdate] == [OutputUpdate];
  }

  /** The concrete case: a white bulb whose hue is 0 asked for hue 10. */
  lemma HueOnWhiteExample(s: Lb)
    requires s.out.hue == 0
    ensures SetHueAsWritten(s, White, 10).None?
    ensures SetHueF(s, White, 10) == (s.(out := s.out.(hue := 10), dirty := true), [OutputUpdate])
  {
    assert [] + [OutputUpdate] == [OutputUpdate];
  }

  /** SetSaturation: the characteristic exists only on colour bulbs. */
  function SetSaturationF(s: Lb, bt: BulbType, v: int): (Lb, seq<LbNotice>) {
    if s.out.saturation == v then (s, [])
    else (s.(out := s.out.(saturation := v), dirty := true),
          (if bt == Rgbw then [SaturationNotice] else []) + [OutputUpdate])
  }

  /** SetBrightness. */
  function SetBrightnessF(s: Lb, v: int): (Lb, seq<LbNotice>) {
    if s.out.brightness == v then (s, [])
    else (s.(out := s.out.(brightness := v), dirty := true), [BrightnessNotice, OutputUpdate])
  }

  /** SetColorTemperature: the characteristic exists only on CCT bulbs. */
  function SetColorTemperatureF(s: Lb, bt: BulbType, v: int): (Lb, seq<LbNotice>) {
    if s.out.colorTemperature == v then (s, [])
    else (s.(out := s.out.(colorTemperature := v), dirty := true),
          (if bt == Cct then [ColorTempNotice] else []) + [OutputUpdate])
  }

  /** Each setter stores its value and marks the configuration dirty, and
      does nothing at all when the value is unchanged; UpdateOnOff does
      nothing for an unchanged state unless forced. */
  lemma {:induction false} SettersSpec(s: Lb, bt: BulbType, v: int, on: bool, force: bool)
    ensures SetHueF(s, bt, v).0.out.hue == v && (s.out.hue == v <==> SetHueF(s, bt, v) == (s, []))
    ensures HueNotice in SetHueF(s, bt, v).1 <==> bt == Rgbw && s.out.hue != v
    ensures SaturationNotice in SetSaturationF(s, bt, v).1 <==> bt == Rgbw && s.out.saturation != v
    ensures ColorTempNotice in SetColorTemperatureF(s, bt, v).1 <==> bt == Cct && s.out.colorTemperature != v
    ensures SetSaturationF(s, bt, v).0.out.saturation == v && (s.out.saturation == v <==> SetSaturationF(s, bt, v) == (s, []))
    ensures SetBrightnessF(s, v).0.out.brightness == v && (s.out.brightness == v <==> SetBrightnessF(s, v) == (s, []))
    ensures SetColorTemperatureF(s, bt, v).0.out.colorTemperature == v
      && (s.out.colorTemperature == v <==> SetColorTemperatureF(s, bt, v) == (s, []))
    ensures UpdateOnOffF(s, on, force).0.out.state == on
    ensures UpdateOnOffF(s, on, force) == (s, []) <==> !force && s.out.state == on
    ensures UpdateOnOffF(s, on, force).1 != [] ==> UpdateOnOffF(s, on, force).0.dirty
  {
  }

  /** The state after an accepted SetState: on/off, hue, saturation,
      brightness and colour temperature are applied in that order. */
  function ApplyLbState(s: Lb, bt: BulbType, req: LbStateRequest): (Lb, seq<LbNotice>) {
    var a := OnOffStage(s, req);
    var b := HueStage(a.0, bt, req);
    var c := SaturationStage(b.0, bt, req);
    var d := BrightnessStage(c.0, req);
    var e := ColorTempStage(d.0, bt, req);
    (e.0, a.1 + b.1 + c.1 + d.1 + e.1)
  }

  function OnOffStage(s: Lb, req: LbStateRequest): (Lb, seq<LbNotice>) {
    if req.state != -1 then UpdateOnOffF(s, req.state != 0, false) else (s, [])
  }

  function HueStage(s: Lb, bt: BulbType, req: LbStateRequest): (Lb, seq<LbNotice>) {
    if req.hue != -1 then SetHueF(s, bt, req.hue) else (s, [])
  }

  function SaturationStage(s: Lb, bt: BulbType, req: LbStateRequest): (Lb, seq<LbNotice>) {
    if req.saturation != -1 then SetSaturationF(s, bt, req.saturation) else (s, [])
  }

  function BrightnessStage(s: Lb, req: LbStateRequest): (Lb, seq<LbNotice>) {
    if req.brightness != -1 then SetBrightnessF(s, req.brightness) else (s, [])
  }

  function ColorTempStage(s: Lb, bt: BulbType, req: LbStateRequest): (Lb, seq<LbNotice>) {
    if req.colorTemperature != -1 then SetColorTemperatureF(s, bt, req.colorTemperature) else (s, [])
  }

  /** An accepted SetState leaves every colour value in its HomeKit range
      when it was in range before. */
  predicate InRange(c: LbOutput) {
    0 <= c.hue <= 360 && 0 <= c.saturation <= 100 && 0 <= c.brightness <= 100
    && 50 <= c.colorTemperature <= 400
  }

  /** Appending a stage's notices to an accumulated log. */
  lemma {:induction false} SnocStage(n0: seq<LbNotice>, acc: seq<LbNotice>, x: seq<LbNotice>)
    ensures n0 + acc + x == n0 + (acc + x)
  {
  }

  /** Each stage of an accepted SetState keeps the output values in range. */
  lemma {:induction false} StagesKeepRange(s: Lb, bt: BulbType, req: LbStateRequest)
    requires InRange(s.out) && ValidateLbState(req).IsOk()
    ensures InRange(OnOffStage(s, req).0.out) && InRange(HueStage(s, bt, req).0.out)
    ensures InRange(SaturationStage(s, bt, req).0.out) && InRange(BrightnessStage(s, req).0.out)
    ensures InRange(ColorTempStage(s, bt, req).0.out)
    ensures req.hue != -1 ==> HueStage(s, bt, req).0.out.hue == req.hue
    ensures SaturationStage(s, bt, req).0.out.hue == s.out.hue && BrightnessStage(s, req).0.out.hue == s.out.hue
    ensures ColorTempStage(s, bt, req).0.out.hue == s.out.hue
    ensures req.brightness == -1 ==>
      && OnOffStage(s, req).0.out.brightness == s.out.brightness && HueStage(s, bt, req).0.out.brightness == s.out.brightness
      && SaturationStage(s, bt, req).0.out.brightness == s.out.brightness
      && BrightnessStage(s, req).0.out.brightness == s.out.brightness
      && ColorTempStage(s, bt, req).0.out.brightness == s.out.brightness
  {
  }

  lemma {:induction false} SetStateKeepsRange(s: Lb, bt: BulbType, req: LbStateRequest)
    requires InRange(s.out) && ValidateLbState(req).IsOk()
    ensures InRange(ApplyLbState(s, bt, req).0.out)
    ensures req.hue != -1 ==> ApplyLbState(s, bt, req).0.out.hue == req.hue
    ensures req.brightness == -1 ==> ApplyLbState(s, bt, req).0.out.brightness == s.out.brightness
    ensures HueNotice in ApplyLbState(s, bt, req).1 <==> bt == Rgbw && req.hue != -1 && req.hue != s.out.hue
  {
    var a := OnOffStage(s, req);
    assert HueNotice !in a.1 && a.0.out.hue == s.out.hue;
    StagesKeepRange(s, bt, req);
    var b := HueStage(a.0, bt, req);
    StagesKeepRange(a.0, bt, req);
    var c := SaturationStage(b.0, bt, req);
    StagesKeepRange(b.0, bt, req);
    var d := BrightnessStage(c.0, req);
    StagesKeepRange(c.0, bt, req);
    StagesKeepRange(d.0, bt, req);
    var e := ColorTempStage(d.0, bt, req);
    assert ApplyLbState(s, bt, req).0 == e.0;
    assert HueNotice !in c.1 && HueNotice !in d.1 && HueNotice !in e.1;
    assert HueNotice in b.1 <==> bt == Rgbw && req.hue != -1 && req.hue != s.out.hue;
    assert ApplyLbState(s, bt, req).1 == a.1 + b.1 + c.1 + d.1 + e.1;
  }

  /** A SetConfig request: -2 means absent for `inMode`, -1 for
      `inInverted`; other missing fields keep the stored value. */
  datatype LbConfigRequest = LbConfigRequest(
    name: Option<string>, svcHidden: Option<bool>, inMode: int, inInverted: int,
    initialState: Option<int>, autoOff: Option<int>, autoOffDelay: Option<real>,
    transitionTime: Option<int>)

  function OrElse(o: Option<int>, d: int): int {
    if o.Some? then o.value else d
  }

  /** SetConfig's validation, in the order of the source's checks. */
  function ValidateLbConfig(cur: LbConfig, isOptional: bool, req: LbConfigRequest): Status {
    var hidden := if req.svcHidden.Some? then req.svcHidden.value else cur.svcHidden;
    var init := OrElse(req.initialState, cur.initialState);
    if hidden && !isOptional then StatusError(InvalidArgument, "invalid svc_hidden")
    else if !NameOk(req.name) then StatusError(InvalidArgument, "invalid name (too long, max 64)")
    else if req.inMode != -2 && (req.inMode < 0 || req.inMode >= InModeMax) then
      StatusError(InvalidArgument, "invalid in_mode")
    else if init < 0 || init >= InitialStateMax || (cur.inMode == InModeAbsent && init == InitialInput) then
      StatusError(InvalidArgument, "invalid initial_state")
    else StatusOk
  }

  /** The configuration after an accepted SetConfig (name update as
      intended) and whether a restart is required. */
  function ApplyLbConfig(cur: LbConfig, req: LbConfigRequest): (LbConfig, bool) {
    var hidden := if req.svcHidden.Some? then req.svcHidden.value else cur.svcHidden;
    var inChanged := req.inMode != -2 && req.inMode != cur.inMode;
    var invChanged := req.inInverted != -1 && (req.inInverted != 0) != cur.inInverted;
    var c := cur.(
      name := NewName(cur.name, req.name),
      svcHidden := hidden,
      inMode := if inChanged then req.inMode else cur.inMode,
      inInverted := if invChanged then req.inInverted != 0 else cur.inInverted,
      initialState := OrElse(req.initialState, cur.initialState),
      autoOff := OrElse(req.autoOff, if cur.autoOff then 1 else 0) != 0,
      autoOffDelay := if req.autoOffDelay.Some? then req.autoOffDelay.value else cur.autoOffDelay,
      transitionTime := OrElse(req.transitionTime, cur.transitionTime));
    var restart :=
      NameChange(cur.name, req.name) || hidden != cur.svcHidden
      || (inChanged && (cur.inMode == InModeDetached || req.inMode == InModeDetached))
      || invChanged;
    (c, restart)
  }

  /** SetConfig refuses hiding a service that is not optional, a bad
      in_mode or initial state, and "follow the input" without an input;
      a restart is needed exactly when the name, the hidden flag or the
      inversion change or the input mode enters or leaves detached mode. */
  lemma {:induction false} LbConfigSpec(cur: LbConfig, isOptional: bool, req: LbConfigRequest)
    ensures var init := OrElse(req.initialState, cur.initialState);
      ValidateLbConfig(cur, isOptional, req).IsOk() <==>
        && !((if req.svcHidden.Some? then req.svcHidden.value else cur.svcHidden) && !isOptional)
        && NameOk(req.name)
        && (req.inMode == -2 || 0 <= req.inMode < InModeMax)
        && 0 <= init < InitialStateMax && !(cur.inMode == InModeAbsent && init == InitialInput)
    ensures var (c, restart) := ApplyLbConfig(cur, req);
      && (restart <==>
          c.name != cur.name || c.svcHidden != cur.svcHidden || c.inInverted != cur.inInverted
          || (c.inMode != cur.inMode && (cur.inMode == InModeDetached || c.inMode == InModeDetached)))
  {
  }

  /** InputEventHandler with the input at `level`. */
  function OnLbInput(s: Lb, ev: Input.Event, level: bool): (Lb, seq<LbNotice>) {
    var m := s.cfg.inMode;
    if m == InModeDetached then (s, [])
    else
      match ev
      case Change =>
        if m == InModeMomentary then (if level then UpdateOnOffF(s, !s.out.state, false) else (s, []))
        else if m == InModeToggle then UpdateOnOffF(s, level, false)
        else if m == InModeEdge then UpdateOnOffF(s, !s.out.state, false)
        else if m == InModeActivation then
          if level then UpdateOnOffF(s, true, false)
          else if s.out.state && s.cfg.autoOff then (s.(timer := Armed(s.cfg.autoOffDelay)), [])
          else (s, [])
        else (s, [])
      case Long => (if m == InModeMomentary then s.(timer := Cleared) else s, [])
      case _ => (s, [])
  }

  /** The light bulb follows the same input modes as the switch. */
  lemma {:induction false} LbInputModes(s: Lb, ev: Input.Event, level: bool)
    ensures var (s1, _) := OnLbInput(s, ev, level);
      && (s.cfg.inMode == InModeDetached ==> s1 == s)
      && (ev.Change? && s.cfg.inMode == InModeMomentary ==> s1.out.state == (if level then !s.out.state else s.out.state))
      && (ev.Change? && s.cfg.inMode == InModeToggle ==> s1.out.state == level)
      && (ev.Change? && s.cfg.inMode == InModeEdge ==> s1.out.state == !s.out.state)
      && (ev.Change? && s.cfg.inMode == InModeActivation ==> s1.out.state == (level || s.out.state))
      && (ev.Long? && s.cfg.inMode == InModeMomentary ==> s1 == s.(timer := Cleared))
      && (!ev.Change? ==> s1.cfg == s.cfg)
  {
  }

  /** AutoOffTimerCB with the input reading `inLevel`. The one-shot timer
      has fired, so it is no longer pending unless the callback re-arms it. */
  function LbAutoOff(s: Lb, inLevel: Option<bool>): (Lb, seq<LbNotice>) {
    var fired := s.(timer := Cleared);
    if !s.cfg.autoOff then (fired, [])
    else if s.cfg.inMode == InModeActivation && inLevel == Some(true) && s.out.state then
      (fired.(timer := Armed(s.cfg.autoOffDelay)), [])
    else UpdateOnOffF(fired, false, false)
  }

  lemma {:induction false} LbAutoOffSpec(s: Lb, inLevel: Option<bool>)
    ensures !s.cfg.autoOff ==> LbAutoOff(s, inLevel) == (s.(timer := Cleared), [])
    ensures s.cfg.autoOff && s.cfg.inMode == InModeActivation && inLevel == Some(true) && s.out.state ==>
      LbAutoOff(s, inLevel) == (s.(timer := Armed(s.cfg.autoOffDelay)), [])
    ensures s.cfg.autoOff && !(s.cfg.inMode == InModeActivation && inLevel == Some(true) && s.out.state) ==>
      !LbAutoOff(s, inLevel).0.out.state && LbAutoOff(s, inLevel).0.timer == Cleared
      && (LbAutoOff(s, inLevel).1 != [] <==> s.out.state)
  {
  }

  class LightBulb {
    const bulbType: BulbType
    const isOptional: bool
    var cfg: LbConfig
    var out: LbOutput
    var dirty: bool
    var timer: AutoOffTimer
    var notices: seq<LbNotice>

    function Snap(): Lb
      reads this
    {
      Lb(cfg, out, dirty, timer)
    }

    constructor (cfg: LbConfig, out: LbOutput, bulbType: BulbType, isOptional: bool)
      ensures Snap() == Lb(cfg, out, false, Cleared) && notices == []
      ensures this.bulbType == bulbType && this.isOptional == isOptional
    {
      this.cfg := cfg;
      this.out := out;
      this.bulbType := bulbType;
      this.isOptional := isOptional;
      dirty, timer := false, Cleared;
      notices := [];
    }

    method UpdateOnOff(on: bool, force: bool)
      modifies this
      ensures Snap() == UpdateOnOffF(old(Snap()), on, force).0
      ensures notices == old(notices) + UpdateOnOffF(old(Snap()), on, force).1
    {
      if !force && out.state == on {
        assert notices == notices + [];
        return;
      }
      out := out.(state := on);
      dirty := true;
      notices := notices + [OnNotice];
      if out.state {
        timer := Armed(cfg.autoOffDelay);
      } else {
        timer := Cleared;
      }
      notices := notices + [OutputUpdate];
    }

    method SetHue(v: int)
      modifies this
      ensures Snap() == SetHueF(old(Snap()), bulbType, v).0
      ensures notices == old(notices) + SetHueF(old(Snap()), bulbType, v).1
    {
      if out.hue == v {
        assert notices == notices + [];
        return;
      }
      out := out.(hue := v);
      dirty := true;
      if bulbType == Rgbw {
        notices := notices + [HueNotice];
      }
      notices := notices + [OutputUpdate];
    }

    method SetSaturation(v: int)
      modifies this
      ensures Snap() == SetSaturationF(old(Snap()), bulbType, v).0
      ensures notices == old(notices) + SetSaturationF(old(Snap()), bulbType, v).1
    {
      if out.saturation == v {
        assert notices == notices + [];
        return;
      }
      out := out.(saturation := v);
      dirty := true;
      if bulbType == Rgbw {
        notices := notices + [SaturationNotice];
      }
      notices := notices + [OutputUpdate];
    }

    method SetBrightness(v: int)
      modifies this
      ensures Snap() == SetBrightnessF(old(Snap()), v).0
      ensures notices == old(notices) + SetBrightnessF(old(Snap()), v).1
    {
      if out.brightness == v {
        assert notices == notices + [];
        return;
      }
      out := out.(brightness := v);
      dirty := true;
      notices := notices + [BrightnessNotice, OutputUpdate];
    }

    method SetColorTemperature(v: int)
      modifies this
      ensures Snap() == SetColorTemperatureF(old(Snap()), bulbType, v).0
      ensures notices == old(notices) + SetColorTemperatureF(old(Snap()), bulbType, v).1
    {
      if out.colorTemperature == v {
        assert notices == notices + [];
        return;
      }
      out := out.(colorTemperature := v);
      dirty := true;
      if bulbType == Cct {
        notices := notices + [ColorTempNotice];
      }
      notices := notices + [OutputUpdate];
    }

    /** SetState: nothing changes unless every present value is in range. */
    method SetState(req: LbStateRequest) returns (st: Status)
      modifies this
      ensures st == ValidateLbState(req)
      ensures !st.IsOk() ==> Snap() == old(Snap()) && notices == old(notices)
      ensures st.IsOk() ==>
        Snap() == ApplyLbState(old(Snap()), bulbType, req).0
        && notices == old(notices) + ApplyLbState(old(Snap()), bulbType, req).1
    {
      st := ValidateLbState(req);
      if !st.IsOk() {
        return;
      }
      ghost var n0 := notices;
      ghost var a := OnOffStage(Snap(), req);
      if req.state != -1 {
        UpdateOnOff(req.state != 0, false);
      }
      ghost var acc := a.1;
      assert Snap() == a.0 && notices == n0 + acc;
      ghost var b := HueStage(a.0, bulbType, req);
      if req.hue != -1 {
        SetHue(req.hue);
      }
      SnocStage(n0, acc, b.1);
      acc := acc + b.1;
      assert Snap() == b.0 && notices == n0 + acc;
      ghost var c := SaturationStage(b.0, bulbType, req);
      if req.saturation != -1 {
        SetSaturation(req.saturation);
      }
      SnocStage(n0, acc, c.1);
      acc := acc + c.1;
      assert Snap() == c.0 && notices == n0 + acc;
      ghost var d := BrightnessStage(c.0, req);
      if req.brightness != -1 {
        SetBrightness(req.brightness);
      }
      SnocStage(n0, acc, d.1);
      acc := acc + d.1;
      assert Snap() == d.0 && notices == n0 + acc;
      ghost var e := ColorTempStage(d.0, bulbType, req);
      if req.colorTemperature != -1 {
        SetColorTemperature(req.colorTemperature);
      }
      SnocStage(n0, acc, e.1);
    }

    /** SetConfig: returns the status and whether a restart is required. */
    method SetConfig(req: LbConfigRequest) returns (st: Status, restart: bool)
      modifies this
      ensures st == ValidateLbConfig(old(cfg), isOptional, req)
      ensures st.IsOk() ==> (cfg, restart) == ApplyLbConfig(old(cfg), req)
      ensures !st.IsOk() ==> cfg == old(cfg) && !restart
      ensures out == old(out) && dirty == old(dirty) && timer == old(timer) && notices == old(notices)
    {
      st := ValidateLbConfig(cfg, isOptional, req);
      restart := false;
      if !st.IsOk() {
        return;
      }
      var name, hidden := cfg.name, if req.svcHidden.Some? then req.svcHidden.value else cfg.svcHidden;
      var inMode, inv := cfg.inMode, cfg.inInverted;
      if NameChange(name, req.name) {
        name := req.name.value;
        restart := true;
      }
      if cfg.svcHidden != hidden {
        restart := true;
      }
      if req.inMode != -2 && inMode != req.inMode {
        if inMode == InModeDetached || req.inMode == InModeDetached {
          restart := true;
        }
        inMode := req.inMode;
      }
      if req.inInverted != -1 && inv != (req.inInverted != 0) {
        inv := req.inInverted != 0;
        restart := true;
      }
      cfg := LbConfig(name, hidden, inMode, inv,
        OrElse(req.initialState, cfg.initialState),
        OrElse(req.autoOff, if cfg.autoOff then 1 else 0) != 0,
        if req.autoOffDelay.Some? then req.autoOffDelay.value else cfg.autoOffDelay,
        OrElse(req.transitionTime, cfg.transitionTime));
    }

    method AutoOffTimerCB(inLevel: Option<bool>)
      modifies this
      ensures Snap() == LbAutoOff(old(Snap()), inLevel).0
      ensures notices == old(notices) + LbAutoOff(old(Snap()), inLevel).1
    {
      timer := Cleared;
      if !cfg.autoOff {
        assert notices == notices + [];
        return;
      }
      if cfg.inMode == InModeActivation && inLevel == Some(true) && out.state {
        timer := Armed(cfg.autoOffDelay);
        assert notices == notices + [];
        return;
      }
      UpdateOnOff(false, false);
    }

    method InputEventHandler(ev: Input.Event, level: bool)
      modifies this
      ensures Snap() == OnLbInput(old(Snap()), ev, level).0
      ensures notices == old(notices) + OnLbInput(old(Snap()), ev, level).1
    {
      var m := cfg.inMode;
      if m == InModeDetached {
        assert notices == notices + [];
        return;
      }
      match ev {
        case Change =>
          if m == InModeMomentary {
            if level {
              UpdateOnOff(!out.state, false);
            } else {
              assert notices == notices + [];
            }
          } else if m == InModeToggle {
            UpdateOnOff(level, false);
          } else if m == InModeEdge {
            UpdateOnOff(!out.state, false);
          } else if m == InModeActivation {
            if level {
              UpdateOnOff(true, false);
            } else if out.state && cfg.autoOff {
              timer := Armed(cfg.autoOffDelay);
              assert notices == notices + [];
            } else {
              assert notices == notices + [];
            }
          } else {
            assert notices == notices + [];
          }
        case Long =>
          if m == InModeMomentary {
            timer := Cleared;
          }
          assert notices == notices + [];
        case _ =>
          assert notices == notices + [];
      }
    }
  }
}
