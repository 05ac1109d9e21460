/** A HomeKit contact, motion or occupancy sensor fed by a physical input
    (src/shelly_hap_sensor_base.cpp): level mode follows the input, pulse
    mode latches on and is cleared by an idle timer. */
module Sensor {
  import opened Wrappers
  import opened Common
  import Input

  const SensorLevel := 0
  const SensorPulse := 1
  const SensorInModeMax := 2
  const MaxIdleTime := 10000

  datatype SensorConfig = SensorConfig(name: string, inMode: int, idleTime: int)

  /** The idle timer: cleared, or armed for `ms` milliseconds. */
  datatype IdleTimer = Idle | Running(ms: int)

  /** The sensor's state. */
  datatype Sn = Sn(cfg: SensorConfig, state: bool, lastEvTs: real, timer: IdleTimer, registered: bool)

  /** SetConfig's validation: -1 means absent for `inMode` and `idleTime`. */
  function ValidateSensorConfig(name: Option<string>, inMode: int, idleTime: int): Status {
    if !NameOk(name) then StatusError(InvalidArgument, "invalid name (too long, max 64)")
    else if inMode != -1 && (inMode < 0 || inMode >= SensorInModeMax) then StatusError(InvalidArgument, "invalid in_mode")
    else if idleTime != -1 && (idleTime <= 0 || idleTime > MaxIdleTime) then StatusError(InvalidArgument, "invalid idle_time")
    else StatusOk
  }

  /** SetInternalState at uptime `now`: a change records the uptime when it
      turns true and is notified once registered; every true in pulse mode
      re-arms the idle timer. The second component counts notifications. */
  function SetInternal(s: Sn, v: bool, now: real): (Sn, nat) {
    var changed := v != s.state;
    var s1 := s.(
      state := v,
      lastEvTs := if changed && v then now else s.lastEvTs,
      timer := if v && s.cfg.inMode == SensorPulse then Running(s.cfg.idleTime * 1000) else s.timer);
    (s1, if changed && s.registered then 1 else 0)
  }

  /** The timestamp moves only on a false-to-true change; the event is
      notified only on a change; pulse mode re-arms the timer on every true,
      also when the state was already true. */
  lemma {:induction false} SetInternalSpec(s: Sn, v: bool, now: real)
    ensures var (s1, n) := SetInternal(s, v, now);
      && s1.state == v
      && (s1.lastEvTs != s.lastEvTs ==> !s.state && v && s1.lastEvTs == now)
      && (!s.state && v ==> s1.lastEvTs == now)
      && (n == 1 <==> v != s.state && s.registered)
      && (v && s.cfg.inMode == SensorPulse ==> s1.timer == Running(s.cfg.idleTime * 1000))
      && (!v ==> s1.timer == s.timer)
      && s1.cfg == s.cfg
  {
  }

  /** SetConfig's copy step on an accepted request, in the source's order:
      the name, then in_mode followed by SetInternalState with the input
      level (level mode) or false (pulse mode), then idle_time. The second
      component counts notifications. */
  function ApplySensorConfig(s: Sn, name: Option<string>, inMode: int, idleTime: int, inLevel: bool, now: real): (Sn, nat) {
    var s1 := s.(cfg := s.cfg.(name := NewName(s.cfg.name, name)));
    var (s2, n) := if inMode != -1 then SetInternal(s1.(cfg := s1.cfg.(inMode := inMode)), inMode == SensorLevel && inLevel, now)
                   else (s1, 0);
    (if idleTime != -1 then s2.(cfg := s2.cfg.(idleTime := idleTime)) else s2, n)
  }

  /** An accepted configuration takes every field that is present; setting
      in_mode resets the state to the input level (level mode) or to false,
      stamps and notifies a change like any other, and never arms the idle
      timer; without in_mode nothing but the configuration changes. */
  lemma {:induction false} ApplySensorConfigSpec(s: Sn, name: Option<string>, inMode: int, idleTime: int, inLevel: bool, now: real)
    ensures var (s1, n) := ApplySensorConfig(s, name, inMode, idleTime, inLevel, now);
      && s1.cfg.name == NewName(s.cfg.name, name)
      && s1.cfg.inMode == (if inMode != -1 then inMode else s.cfg.inMode)
      && s1.cfg.idleTime == (if idleTime != -1 then idleTime else s.cfg.idleTime)
      && s1.registered == s.registered
      && s1.timer == s.timer
      && (inMode == -1 ==> s1 == s.(cfg := s1.cfg) && n == 0)
      && (inMode != -1 ==>
            && s1.state == (inMode == SensorLevel && inLevel)
            && (n == 1 <==> s1.state != s.state && s.registered)
            && s1.lastEvTs == (if !s.state && s1.state then now else s.lastEvTs))
  {
    var s1 := s.(cfg := s.cfg.(name := NewName(s.cfg.name, name)));
    if inMode != -1 {
      SetInternalSpec(s1.(cfg := s1.cfg.(inMode := inMode)), inMode == SensorLevel && inLevel, now);
    }
  }

  /** InputEventHandler with the input at `level`. */
  function OnSensorInput(s: Sn, ev: Input.Event, level: bool, now: real): (Sn, nat) {
    if !ev.Change? then (s, 0)
    else if s.cfg.inMode == SensorLevel then SetInternal(s, level, now)
    else if s.cfg.inMode == SensorPulse then (if level then SetInternal(s, true, now) else (s, 0))
    else (s, 0)
  }

  /** Level mode follows the input, pulse mode only latches on at a rising
      level, and anything but a change is ignored. */
  lemma {:induction false} SensorModes(s: Sn, ev: Input.Event, level: bool, now: real)
    ensures !ev.Change? ==> OnSensorInput(s, ev, level, now) == (s, 0)
    ensures ev.Change? && s.cfg.inMode == SensorLevel ==> OnSensorInput(s, ev, level, now).0.state == level
    ensures ev.Change? && s.cfg.inMode == SensorPulse ==>
      OnSensorInput(s, ev, level, now).0.state == (level || s.state)
    ensures ev.Change? && s.cfg.inMode == SensorPulse && !level ==> OnSensorInput(s, ev, level, now) == (s, 0)
  {
  }

  /** AutoOffTimerCB: clears the state only in pulse mode. */
  function IdleExpired(s: Sn, now: real): (Sn, nat) {
    if s.cfg.inMode != SensorPulse then (s, 0) else SetInternal(s, false, now)
  }

  lemma {:induction false} IdleExpiredSpec(s: Sn, now: real)
    ensures s.cfg.inMode != SensorPulse ==> IdleExpired(s, now) == (s, 0)
    ensures s.cfg.inMode == SensorPulse ==>
      !IdleExpired(s, now).0.state && IdleExpired(s, now).0.timer == s.timer
  {
  }

  class SensorBase {
    var cfg: SensorConfig
    var state: bool
    var lastEvTs: real
    var timer: IdleTimer
    var registered: bool
    /** Number of state notifications sent to HomeKit. */
    var notifications: nat

    function Snap(): Sn
      reads this
    {
      Sn(cfg, state, lastEvTs, timer, registered)
    }

    constructor (cfg: SensorConfig)
      ensures Snap() == Sn(cfg, false, 0.0, Idle, false) && notifications == 0
    {
      this.cfg := cfg;
      state, lastEvTs, timer, registered := false, 0.0, Idle, false;
      notifications := 0;
    }

    method SetInternalState(v: bool, now: real)
      modifies this
      ensures Snap() == SetInternal(old(Snap()), v, now).0
      ensures notifications == old(notifications) + SetInternal(old(Snap()), v, now).1
    {
      if v != state {
        if v {
          lastEvTs := now;
        }
        state := v;
        if registered {
          notifications := notifications + 1;
        }
      }
      if v && cfg.inMode == SensorPulse {
        timer := Running(cfg.idleTime * 1000);
      }
    }

    /** SetConfig with the input at `inLevel`: setting in_mode resets the
        state to the input level in level mode and to false in pulse mode. */
    method SetConfig(name: Option<string>, inMode: int, idleTime: int, inLevel: bool, now: real)
      returns (st: Status, restart: bool)
      modifies this
      ensures st == ValidateSensorConfig(name, inMode, idleTime)
      ensures !st.IsOk() ==> Snap() == old(Snap()) && !restart && notifications == old(notifications)
      ensures st.IsOk() ==>
        && cfg.name == NewName(old(cfg).name, name) && restart == NameChange(old(cfg).name, name)
        && cfg.inMode == (if inMode != -1 then inMode else old(cfg).inMode)
        && cfg.idleTime == (if idleTime != -1 then idleTime else old(cfg).idleTime)
        && (inMode != -1 ==> state == (inMode == SensorLevel && inLevel))
        && (inMode == -1 ==> state == old(state))
      ensures st.IsOk() ==>
        && Snap() == ApplySensorConfig(old(Snap()), name, inMode, idleTime, inLevel, now).0
        && notifications == old(notifications) + ApplySensorConfig(old(Snap()), name, inMode, idleTime, inLevel, now).1
    {
      restart := false;
      st := ValidateSensorConfig(name, inMode, idleTime);
      if !st.IsOk() {
        return;
      }
      if NameChange(cfg.name, name) {
        cfg := cfg.(name := name.value);
        restart := true;
      }
      if inMode != -1 {
        cfg := cfg.(inMode := inMode);
        var md := if inMode == SensorLevel then inLevel else false;
        SetInternalState(md, now);
      }
      if idleTime != -1 {
        cfg := cfg.(idleTime := idleTime);
      }
    }

    method InputEventHandler(ev: Input.Event, level: bool, now: real)
      modifies this
      ensures Snap() == OnSensorInput(old(Snap()), ev, level, now).0
      ensures notifications == old(notifications) + OnSensorInput(old(Snap()), ev, level, now).1
    {
      if !ev.Change? {
        return;
      }
      if cfg.inMode == SensorLevel {
        SetInternalState(level, now);
      } else if cfg.inMode == SensorPulse {
        if level {
          SetInternalState(true, now);
        }
      }
    }

    method AutoOffTimerCB(now: real)
      modifies this
      ensures Snap() == IdleExpired(old(Snap()), now).0
      ensures notifications == old(notifications) + IdleExpired(old(Snap()), now).1
    {
      if cfg.inMode != SensorPulse {
        return;
      }
      SetInternalState(false, now);
    }
  }
}
