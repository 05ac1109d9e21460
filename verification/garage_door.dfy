/** The HomeKit garage door opener (src/shelly_hap_garage_door_opener.cpp):
    one or two outputs pulse the door motor, a close sensor and an optional
    open sensor report the end positions, and a state machine polled every
    100 ms tracks the door between open, closed, opening, closing and
    stopped. */
module GarageDoor {
  import opened Wrappers
  import Common

  /** The door states, numbered as HAP's CurrentDoorState. */
  datatype DoorState = Open | Closed | Opening | Closing | Stopped

  /** HAP TargetDoorState values. */
  const TargetOpen := 0
  const TargetClosed := 1

  /** The stored configuration; move times are kept in ms. */
  datatype GdoConfig = GdoConfig(
    name: string, moveTimeMs: int, pulseTimeMs: int, closeSensorMode: int,
    openSensorMode: int, outMode: int, beginMoveTimeMs: int)

  /** A SetConfig request: fields absent from the JSON keep -1, the name
      None. `moveTime` is in seconds. */
  datatype ConfigRequest = ConfigRequest(
    name: Option<string>, moveTime: int, pulseTimeMs: int, closeSensorMode: int,
    openSensorMode: int, outMode: int)

  /** Notifications raised on the HAP characteristics. */
  datatype Notice = CurNotice | TgtNotice | ObstNotice

  /** The two outputs; a toggle pulses one of them. */
  datatype DoorOutput = CloseOutput | OpenOutput

  /** The door's mutable state, as one value. */
  datatype Door = Door(cur: DoorState, tgt: DoorState, preStopped: DoorState, obstruction: bool, begin: int)

  /** SetConfig's validation, in the order of the source. */
  function ValidateConfig(req: ConfigRequest): Status {
    if req.name.Some? && |req.name.value| > Common.MaxNameLen then
      StatusError(InvalidArgument, "invalid name (too long, max 64)")
    else if req.closeSensorMode > 1 then StatusError(InvalidArgument, "invalid close_sensor_mode")
    else if req.openSensorMode > 2 then StatusError(InvalidArgument, "invalid open_sensor_mode")
    else if req.outMode > 2 then StatusError(InvalidArgument, "invalid out_mode")
    else StatusOk
  }

  /** The configuration after an accepted SetConfig, and whether it asks
      for a restart. */
  function ApplyConfig(cfg: GdoConfig, req: ConfigRequest): (GdoConfig, bool) {
    var nameChanged := req.name.Some? && req.name.value != cfg.name;
    var c := cfg.(
      name := if nameChanged then req.name.value else cfg.name,
      moveTimeMs := if req.moveTime > 0 then req.moveTime * 1000 else cfg.moveTimeMs,
      pulseTimeMs := if req.pulseTimeMs > 0 then req.pulseTimeMs else cfg.pulseTimeMs,
      closeSensorMode := if req.closeSensorMode >= 0 then req.closeSensorMode else cfg.closeSensorMode,
      openSensorMode := if req.openSensorMode >= 0 then req.openSensorMode else cfg.openSensorMode,
      outMode := if req.outMode >= 0 then req.outMode else cfg.outMode);
    (c, nameChanged || req.outMode >= 0)
  }

  /** SetConfig accepts exactly a name of at most 64 characters (or none),
      close_sensor_mode at most 1, open_sensor_mode and out_mode at most 2.
      An accepted move time is stored in ms, absent fields keep their
      value, and setting out_mode always requires a restart. */
  lemma {:induction false} SetConfigSpec(cfg: GdoConfig, req: ConfigRequest)
    ensures ValidateConfig(req).IsOk() <==>
      && (req.name.None? || |req.name.value| <= Common.MaxNameLen)
      && req.closeSensorMode <= 1 && req.openSensorMode <= 2 && req.outMode <= 2
    ensures var (c, restart) := ApplyConfig(cfg, req);
      && (req.moveTime > 0 ==> c.moveTimeMs == req.moveTime * 1000)
      && (req.moveTime <= 0 ==> c.moveTimeMs == cfg.moveTimeMs)
      && (req.outMode >= 0 ==> restart && c.outMode == req.outMode)
      && (req.name.None? && req.outMode < 0 ==> !restart)
      && c.beginMoveTimeMs == cfg.beginMoveTimeMs
  {
  }

  /** GetInputsState: whether the door is closed, and 1/0 for open or -1
      when there is no usable open sensor. Sensor mode 0 is active-high,
      mode 1 active-low. */
  function InputsState(cfg: GdoConfig, closeIn: bool, hasOpenInput: bool, openIn: bool): (bool, int) {
    var isClosed := closeIn == (cfg.closeSensorMode == 0);
    if hasOpenInput && (cfg.openSensorMode == 0 || cfg.openSensorMode == 1) then
      (isClosed, if openIn == (cfg.openSensorMode == 0) then 1 else 0)
    else (isClosed, -1)
  }

  /** The open reading is -1 unless an open sensor exists with mode 0 or 1;
      with mode 0 it reads 1 exactly when the input is on. */
  lemma {:induction false} InputsStateSpec(cfg: GdoConfig, closeIn: bool, hasOpenInput: bool, openIn: bool)
    ensures var (isClosed, isOpen) := InputsState(cfg, closeIn, hasOpenInput, openIn);
      && (isOpen == -1 <==> !(hasOpenInput && 0 <= cfg.openSensorMode <= 1))
      && (hasOpenInput && cfg.openSensorMode == 0 ==> (isOpen == 1 <==> openIn))
      && (hasOpenInput && cfg.openSensorMode == 1 ==> (isOpen == 1 <==> !openIn))
      && (isClosed <==> (closeIn <==> cfg.closeSensorMode == 0))
  {
  }

  /** Whether a state change raises the obstruction notification: when
      leaving or entering Stopped. */
  function NotifiesObstruction(from: DoorState, to: DoorState): bool {
    from == Stopped || to == Stopped
  }

  /** SetCurState as written: `obst_notify` starts uninitialised, so on a
      change that neither leaves nor enters Stopped it holds whatever
      `indeterminate` is. */
  function ObstNoticeAsWritten(from: DoorState, to: DoorState, indeterminate: bool): bool {
    if from == Stopped || to == Stopped then true else indeterminate
  }

  /** As written, a plain Open to Closing change may notify an obstruction
      change; the intended rule does not. */
  lemma {:induction false} SpuriousObstructionNotice()
    ensures ObstNoticeAsWritten(Open, Closing, true)
    ensures !NotifiesObstruction(Open, Closing)
    ensures forall from, to :: ObstNoticeAsWritten(from, to, false) == NotifiesObstruction(from, to)
  {
  }

  /** SetCurState at uptime `nowUs` (µs). */
  function SetCur(d: Door, s: DoorState, nowUs: int): (Door, seq<Notice>) {
    if d.cur == s then (d, [])
    else
      var d1 := d.(
        obstruction := if d.cur == Stopped then false else d.obstruction,
        preStopped := if s == Stopped then d.cur else d.preStopped,
        cur := s, begin := nowUs);
      (d1, [CurNotice] + if NotifiesObstruction(d.cur, s) then [ObstNotice] else [])
  }

  /** SetTgtState: always notifies, changed or not. */
  function SetTgt(d: Door, s: DoorState): (Door, seq<Notice>) {
    (d.(tgt := s), [TgtNotice])
  }

  /** SetCurState does nothing for an equal state; leaving Stopped clears
      the obstruction flag; entering Stopped remembers the state it left. */
  lemma {:induction false} SetCurSpec(d: Door, s: DoorState, nowUs: int)
    ensures d.cur == s ==> SetCur(d, s, nowUs) == (d, [])
    ensures var (d1, _) := SetCur(d, s, nowUs);
      && d1.cur == s && d1.tgt == d.tgt
      && (d.cur == Stopped && s != Stopped ==> !d1.obstruction)
      && (s == Stopped && d.cur != Stopped ==> d1.preStopped == d.cur)
      && (d.cur != Stopped ==> d1.obstruction == d.obstruction)
  {
  }

  /** The output a toggle towards `next` pulses: the close output in
      out_mode 0, and in out_mode 1 when closing; the open output otherwise. */
  function PulsedOutput(cfg: GdoConfig, next: DoorState): DoorOutput {
    if cfg.outMode == 0 || (cfg.outMode == 1 && next == Closed) then CloseOutput else OpenOutput
  }

  /** ToggleState: the new target and current state for each state. */
  function ToggleTargets(d: Door): (DoorState, DoorState) {
    var next := if d.tgt == Closed then Open else Closed;
    match d.cur
    case Open => (next, Closing)
    case Closed => (next, Opening)
    case Opening => (next, Stopped)
    case Closing => (Open, Opening)
    case Stopped => if d.preStopped == Opening then (Closed, Closing) else (Open, Opening)
  }

  /** ToggleState at uptime `nowUs`: one pulse, then the new states. */
  function Toggle(cfg: GdoConfig, d: Door, nowUs: int): (Door, seq<Notice>, DoorOutput) {
    var next := if d.tgt == Closed then Open else Closed;
    var (tgt, cur) := ToggleTargets(d);
    var (d1, n1) := SetTgt(d, tgt);
    var (d2, n2) := SetCur(d1, cur, nowUs);
    (d2, n1 + n2, PulsedOutput(cfg, next))
  }

  /** Every toggle moves the door: open starts closing, closed starts
      opening, opening stops, closing reverses to opening, and stopped
      reverses the direction it moved in before stopping. */
  lemma {:induction false} ToggleTable(cfg: GdoConfig, d: Door, nowUs: int)
    ensures var d1 := Toggle(cfg, d, nowUs).0;
      && (d.cur == Open ==> d1.cur == Closing)
      && (d.cur == Closed ==> d1.cur == Opening)
      && (d.cur == Opening ==> d1.cur == Stopped)
      && (d.cur == Closing ==> d1.cur == Opening && d1.tgt == Open)
      && (d.cur == Stopped && d.preStopped == Opening ==> d1.cur == Closing && d1.tgt == Closed)
      && (d.cur == Stopped && d.preStopped != Opening ==> d1.cur == Opening && d1.tgt == Open)
      && TgtNotice in Toggle(cfg, d, nowUs).1
  {
  }

  /** HAPTgtStateWrite: whether the write schedules a toggle. It does not
      when the door is already at, or moving to, the requested target. */
  function TargetWriteActs(value: int, cur: DoorState): bool {
    !((value == TargetOpen && (cur == Open || cur == Opening))
      || (value == TargetClosed && (cur == Closed || cur == Closing)))
  }

  /** Writing a target acts on a door that is stopped, and on a door that
      is at or heading to the other end; any other value always acts. */
  lemma {:induction false} TargetWriteSpec(value: int, cur: DoorState)
    ensures cur == Stopped ==> TargetWriteActs(value, cur)
    ensures value == TargetOpen ==> (TargetWriteActs(value, cur) <==> cur in {Closed, Closing, Stopped})
    ensures value == TargetClosed ==> (TargetWriteActs(value, cur) <==> cur in {Open, Opening, Stopped})
    ensures value != TargetOpen && value != TargetClosed ==> TargetWriteActs(value, cur)
  {
  }

  /** `(now - begin) / 1000` on 64-bit integers, truncating towards zero. */
  function ElapsedMs(nowUs: int, begin: int): int {
    var diff := nowUs - begin;
    if diff >= 0 then diff / 1000 else -((-diff) / 1000)
  }

  /** The switch of RunOnce, after the both-sensors check. */
  function RunCase(cfg: GdoConfig, d: Door, isClosed: bool, isOpen: int, nowUs: int): (Door, seq<Notice>) {
    var elapsed := ElapsedMs(nowUs, d.begin);
    match d.cur
    case Open =>
      if isClosed then Then(SetTgt(d, Closed), Closed, nowUs)
      else if isOpen == 0 then Then(SetTgt(d, Closed), Closing, nowUs)
      else (d, [])
    case Closed =>
      if !isClosed then Then(SetTgt(d, Open), Opening, nowUs) else (d, [])
    case Opening =>
      if isOpen != -1 && isOpen != 0 then SetCur(d, Open, nowUs)
      else if isOpen != -1 && elapsed > cfg.moveTimeMs then SetCur(d.(obstruction := true), Stopped, nowUs)
      else if isOpen == -1 && elapsed > cfg.moveTimeMs then SetCur(d, Open, nowUs)
      else if isClosed && elapsed > cfg.beginMoveTimeMs then Then(SetTgt(d, Closed), Closed, nowUs)
      else (d, [])
    case Closing =>
      if isClosed then SetCur(d, Closed, nowUs)
      else if elapsed > cfg.moveTimeMs then SetCur(d.(obstruction := true), Stopped, nowUs)
      else if isOpen == 1 && elapsed > cfg.beginMoveTimeMs then Then(SetTgt(d, Open), Open, nowUs)
      else (d, [])
    case Stopped =>
      if isClosed && isOpen == 1 then (d, [])
      else if isClosed then Then(SetTgt(d, Closed), Closed, nowUs)
      else if isOpen == 1 then Then(SetTgt(d, Open), Open, nowUs)
      else (d, [])
  }

  /** A target change followed by a state change. */
  function Then(step: (Door, seq<Notice>), s: DoorState, nowUs: int): (Door, seq<Notice>) {
    var (d2, n2) := SetCur(step.0, s, nowUs);
    (d2, step.1 + n2)
  }

  /** RunOnce with the sensors reading `isClosed` and `isOpen`. */
  function RunOnceStep(cfg: GdoConfig, d: Door, isClosed: bool, isOpen: int, nowUs: int): (Door, seq<Notice>) {
    var (d0, n0) := if d.cur != Stopped && isClosed && isOpen == 1 then SetCur(d, Stopped, nowUs) else (d, []);
    var (d1, n1) := RunCase(cfg, d0, isClosed, isOpen, nowUs);
    (d1, n0 + n1)
  }

  /** Both sensors active is an error: the door ends up stopped. */
  lemma {:induction false} BothSensorsStop(cfg: GdoConfig, d: Door, nowUs: int)
    ensures RunOnceStep(cfg, d, true, 1, nowUs).0.cur == Stopped
  {
  }

  /** A move that outlasts move_time while an open sensor reports the door
      is not open, or a close that outlasts it, is an obstruction: the door
      stops and reports it. */
  lemma {:induction false} MoveTimeoutObstruction(cfg: GdoConfig, d: Door, isClosed: bool, isOpen: int, nowUs: int)
    requires ElapsedMs(nowUs, d.begin) > cfg.moveTimeMs
    requires (d.cur == Opening && isOpen == 0) || (d.cur == Closing && !isClosed)
    ensures RunOnceStep(cfg, d, isClosed, isOpen, nowUs).0.cur == Stopped
    ensures RunOnceStep(cfg, d, isClosed, isOpen, nowUs).0.obstruction
  {
  }

  /** Without an open sensor, an opening door counts as open once
      move_time has passed, with no obstruction. */
  lemma {:induction false} OpeningTimesOutOpen(cfg: GdoConfig, d: Door, isClosed: bool, nowUs: int)
    requires d.cur == Opening && ElapsedMs(nowUs, d.begin) > cfg.moveTimeMs
    ensures RunOnceStep(cfg, d, isClosed, -1, nowUs).0.cur == Open
    ensures RunOnceStep(cfg, d, isClosed, -1, nowUs).0.obstruction == d.obstruction
  {
  }

  /** What every reachable door satisfies: an obstruction is only reported
      while stopped, and a stopped door remembers a moving or end state. */
  predicate DoorValid(d: Door) {
    (d.obstruction ==> d.cur == Stopped) && (d.cur == Stopped ==> d.preStopped != Stopped)
  }

  /** Toggling and polling keep the door valid. */
  lemma {:induction false} StepsKeepValid(cfg: GdoConfig, d: Door, isClosed: bool, isOpen: int, nowUs: int)
    requires DoorValid(d)
    ensures DoorValid(Toggle(cfg, d, nowUs).0)
    ensures DoorValid(RunOnceStep(cfg, d, isClosed, isOpen, nowUs).0)
  {
    var (d0, _) := if d.cur != Stopped && isClosed && isOpen == 1 then SetCur(d, Stopped, nowUs) else (d, []);
    assert DoorValid(d0);
  }

  /** The opener's state: configuration, door state, raised notifications
      and output pulses. */
  class GarageDoorOpener {
    const hasOpenInput: bool
    var cfg: GdoConfig
    var cur: DoorState
    var tgt: DoorState
    var preStopped: DoorState
    var obstruction: bool
    var begin: int
    var notices: seq<Notice>
    var pulses: seq<(DoorOutput, int)>

    function Snap(): Door
      reads this
    {
      Door(cur, tgt, preStopped, obstruction, begin)
    }

    /** Init with the close input reading `closeIn`: the door starts closed
        or open, with the target equal to the current state. */
    constructor (cfg: GdoConfig, hasOpenInput: bool, closeIn: bool)
      ensures this.cfg == cfg && this.hasOpenInput == hasOpenInput
      ensures cur == (if closeIn then Closed else Open) && tgt == cur
      ensures !obstruction && begin == 0 && notices == [] && pulses == []
      ensures DoorValid(Snap())
    {
      this.cfg := cfg;
      this.hasOpenInput := hasOpenInput;
      cur := if closeIn then Closed else Open;
      tgt := if closeIn then Closed else Open;
      preStopped := Open;
      obstruction := false;
      begin := 0;
      notices := [];
      pulses := [];
    }

    /** SetConfig: validates first, then applies; returns the status and
        whether a restart is required. */
    method SetConfig(req: ConfigRequest) returns (st: Status, restart: bool)
      modifies this
      ensures st == ValidateConfig(req)
      ensures st.IsOk() ==> (cfg, restart) == ApplyConfig(old(cfg), req)
      ensures !st.IsOk() ==> cfg == old(cfg) && !restart
      ensures Snap() == old(Snap()) && notices == old(notices) && pulses == old(pulses)
    {
      restart := false;
      if req.name.Some? && |req.name.value| > Common.MaxNameLen {
        return StatusError(InvalidArgument, "invalid name (too long, max 64)"), restart;
      }
      if req.closeSensorMode > 1 {
        return StatusError(InvalidArgument, "invalid close_sensor_mode"), restart;
      }
      if req.openSensorMode > 2 {
        return StatusError(InvalidArgument, "invalid open_sensor_mode"), restart;
      }
      if req.outMode > 2 {
        return StatusError(InvalidArgument, "invalid out_mode"), restart;
      }
      if req.name.Some? && req.name.value != cfg.name {
        cfg := cfg.(name := req.name.value);
        restart := true;
      }
      if req.moveTime > 0 {
        cfg := cfg.(moveTimeMs := req.moveTime * 1000);
      }
      if req.pulseTimeMs > 0 {
        cfg := cfg.(pulseTimeMs := req.pulseTimeMs);
      }
      if req.closeSensorMode >= 0 {
        cfg := cfg.(closeSensorMode := req.closeSensorMode);
      }
      if req.openSensorMode >= 0 {
        cfg := cfg.(openSensorMode := req.openSensorMode);
      }
      if req.outMode >= 0 {
        cfg := cfg.(outMode := req.outMode);
        restart := true;
      }
      return StatusOk, restart;
    }

    /** IsIdle. */
    method IsIdle() returns (idle: bool)
      ensures idle <==> cur !in {Opening, Closing}
    {
      return cur != Opening && cur != Closing;
    }

    /** SetCurState at uptime `nowUs`. */
    method SetCurState(s: DoorState, nowUs: int)
      modifies this
      ensures (Snap(), notices) == (SetCur(old(Snap()), s, nowUs).0, old(notices) + SetCur(old(Snap()), s, nowUs).1)
      ensures cfg == old(cfg) && pulses == old(pulses)
    {
      if cur == s {
        assert notices == old(notices) + [];
        return;
      }
      var obstNotify := false;
      if cur == Stopped {
        obstruction := false;
        obstNotify := true;
      }
      if s == Stopped {
        preStopped := cur;
        obstNotify := true;
      }
      cur := s;
      begin := nowUs;
      notices := notices + [CurNotice];
      if obstNotify {
        notices := notices + [ObstNotice];
        assert notices == old(notices) + ([CurNotice] + [ObstNotice]);
      } else {
        assert notices == old(notices) + ([CurNotice] + []);
      }
    }

    /** SetTgtState. */
    method SetTgtState(s: DoorState)
      modifies this
      ensures Snap() == SetTgt(old(Snap()), s).0 && notices == old(notices) + SetTgt(old(Snap()), s).1
      ensures cfg == old(cfg) && pulses == old(pulses)
    {
      tgt := s;
      notices := notices + [TgtNotice];
    }

    /** ToggleState at uptime `nowUs`. */
    method ToggleState(nowUs: int)
      modifies this
      ensures var (d, n, out) := Toggle(cfg, old(Snap()), nowUs);
        Snap() == d && notices == old(notices) + n && pulses == old(pulses) + [(out, cfg.pulseTimeMs)]
      ensures cfg == old(cfg)
    {
      var next := if tgt == Closed then Open else Closed;
      if cfg.outMode == 0 || (cfg.outMode == 1 && next == Closed) {
        pulses := pulses + [(CloseOutput, cfg.pulseTimeMs)];
      } else {
        pulses := pulses + [(OpenOutput, cfg.pulseTimeMs)];
      }
      var (t, c) := ToggleTargets(Snap());
      SetTgtState(t);
      SetCurState(c, nowUs);
    }

    /** HAPTgtStateWrite: whether the write schedules ToggleState and
        RunOnce; the write itself changes nothing. */
    method HAPTgtStateWrite(value: int) returns (scheduled: bool)
      ensures scheduled == TargetWriteActs(value, cur)
    {
      if (value == TargetOpen && (cur == Open || cur == Opening))
        || (value == TargetClosed && (cur == Closed || cur == Closing)) {
        return false;
      }
      return true;
    }

    /** RunOnce with the inputs reading `closeIn` and `openIn` at uptime
        `nowUs`. */
    method RunOnce(closeIn: bool, openIn: bool, nowUs: int)
      modifies this
      ensures var (isClosed, isOpen) := InputsState(cfg, closeIn, hasOpenInput, openIn);
        var (d, n) := RunOnceStep(cfg, old(Snap()), isClosed, isOpen, nowUs);
        Snap() == d && notices == old(notices) + n
      ensures cfg == old(cfg) && pulses == old(pulses)
    {
      var (isClosed, isOpen) := InputsState(cfg, closeIn, hasOpenInput, openIn);
      ghost var pre: seq<Notice> := [];
      if cur != Stopped && isClosed && isOpen == 1 {
        pre := SetCur(Snap(), Stopped, nowUs).1;
        SetCurState(Stopped, nowUs);
      }
      assert notices == old(notices) + pre;
      ghost var run := RunCase(cfg, Snap(), isClosed, isOpen, nowUs).1;
      RunSwitch(isClosed, isOpen, nowUs);
      assert notices == old(notices) + (pre + run);
    }

    /** The switch of RunOnce. */
    method RunSwitch(isClosed: bool, isOpen: int, nowUs: int)
      modifies this
      ensures var (d, n) := RunCase(cfg, old(Snap()), isClosed, isOpen, nowUs);
        Snap() == d && notices == old(notices) + n
      ensures cfg == old(cfg) && pulses == old(pulses)
    {
      var elapsed := ElapsedMs(nowUs, begin);
      match cur {
        case Open =>
          if isClosed {
            SetTgtState(Closed);
            SetCurState(Closed, nowUs);
          } else if isOpen == 0 {
            SetTgtState(Closed);
            SetCurState(Closing, nowUs);
          }
        case Closed =>
          if !isClosed {
            SetTgtState(Open);
            SetCurState(Opening, nowUs);
          }
        case Opening =>
          if isOpen != -1 && isOpen != 0 {
            SetCurState(Open, nowUs);
          } else if isOpen != -1 && elapsed > cfg.moveTimeMs {
            obstruction := true;
            SetCurState(Stopped, nowUs);
          } else if isOpen == -1 && elapsed > cfg.moveTimeMs {
            SetCurState(Open, nowUs);
          } else if isClosed && elapsed > cfg.beginMoveTimeMs {
            SetTgtState(Closed);
            SetCurState(Closed, nowUs);
          }
        case Closing =>
          if isClosed {
            SetCurState(Closed, nowUs);
          } else if elapsed > cfg.moveTimeMs {
            obstruction := true;
            SetCurState(Stopped, nowUs);
          } else if isOpen == 1 && elapsed > cfg.beginMoveTimeMs {
            SetTgtState(Open);
            SetCurState(Open, nowUs);
          }
        case Stopped =>
          if isClosed && isOpen == 1 {
          } else if isClosed {
            SetTgtState(Closed);
            SetCurState(Closed, nowUs);
          } else if isOpen == 1 {
            SetTgtState(Open);
            SetCurState(Open, nowUs);
          }
      }
    }

    /** SetState: a `toggle: true` request toggles the door and polls it
        at once; anything else changes nothing. */
    method SetState(toggle: Option<bool>, closeIn: bool, openIn: bool, nowUs: int) returns (st: Status)
      modifies this
      ensures st == StatusOk && cfg == old(cfg)
      ensures toggle != Some(true) ==> Snap() == old(Snap()) && notices == old(notices) && pulses == old(pulses)
      ensures toggle == Some(true) ==>
        var (d1, n1, out) := Toggle(cfg, old(Snap()), nowUs);
        var (isClosed, isOpen) := InputsState(cfg, closeIn, hasOpenInput, openIn);
        var (d2, n2) := RunOnceStep(cfg, d1, isClosed, isOpen, nowUs);
        Snap() == d2 && notices == old(notices) + n1 + n2 && pulses == old(pulses) + [(out, cfg.pulseTimeMs)]
    {
      if toggle == Some(true) {
        ToggleState(nowUs);
        RunOnce(closeIn, openIn, nowUs);
      }
      return StatusOk;
    }
  }
}
