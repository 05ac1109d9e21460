/** The HomeKit window covering (src/shelly_hap_window_covering.cpp): a
    motor with an open and a close output, positions and tilt in percent,
    and the manual controls. Positions are C floats in the source; here
    they are reals, since they are only clamped, compared and stepped by 1. */
module WindowCovering {
  import opened Wrappers

  /** The state machine's states with their numeric codes. */
  datatype WcState =
    | None_ | Idle
    | PreCal0 | Cal0 | PostCal0 | PreCal1 | Cal1 | PostCal1
    | Move | RampUp | Moving | Stop | Stopping
    | Error

  /** Movement directions. */
  datatype Direction = NoDirection | OpenDir | CloseDir

  const NotSet: real := -1.0
  const FullyOpen: real := 100.0
  const FullyClosed: real := 0.0
  const MaxNameLen := 64

  /** Input modes: 0 separate momentary, 1 separate toggle, 2 single,
      3 detached. */
  const InModeMax := 3

  /** The state with numeric code `code`, if the enumeration has one. */
  function StateOfCode(code: int): Option<WcState> {
    if code == -1 then Some(None_)
    else if code == 0 then Some(Idle)
    else if code == 10 then Some(PreCal0)
    else if code == 11 then Some(Cal0)
    else if code == 12 then Some(PostCal0)
    else if code == 13 then Some(PreCal1)
    else if code == 14 then Some(Cal1)
    else if code == 15 then Some(PostCal1)
    else if code == 20 then Some(Move)
    else if code == 22 then Some(RampUp)
    else if code == 23 then Some(Moving)
    else if code == 24 then Some(Stop)
    else if code == 25 then Some(Stopping)
    else if code == 100 then Some(Error)
    else None
  }

  /** The numeric code of a state. */
  function CodeOf(s: WcState): int {
    match s
    case None_ => -1
    case Idle => 0
    case PreCal0 => 10
    case Cal0 => 11
    case PostCal0 => 12
    case PreCal1 => 13
    case Cal1 => 14
    case PostCal1 => 15
    case Move => 20
    case RampUp => 22
    case Moving => 23
    case Stop => 24
    case Stopping => 25
    case Error => 100
  }

  /** StateStr applied to `static_cast<State>(code)`: "???" for a code
      outside the enumeration. */
  function StateStr(code: int): (r: string)
    ensures r == "???" <==> StateOfCode(code).None?
  {
    match StateOfCode(code)
    case None => "???"
    case Some(s) =>
      match s
      case None_ => "none"
      case Idle => "idle"
      case PreCal0 => "precal0"
      case Cal0 => "cal0"
      case PostCal0 => "postcal0"
      case PreCal1 => "precal1"
      case Cal1 => "cal1"
      case PostCal1 => "postcal1"
      case Move => "move"
      case RampUp => "rampup"
      case Moving => "moving"
      case Stop => "stop"
      case Stopping => "stopping"
      case Error => "error"
  }

  /** Codes and states correspond one to one. */
  lemma {:induction false} StateCodesRoundTrip(s: WcState, code: int)
    ensures StateOfCode(CodeOf(s)) == Some(s)
    ensures StateOfCode(code).Some? ==> CodeOf(StateOfCode(code).value) == code
  {
  }

  /** TrimPos: clamps a position to [0, 100]. */
  function TrimPos(pos: real): (r: real)
    ensures FullyClosed <= r <= FullyOpen
  {
    if pos < FullyClosed then FullyClosed
    else if pos > FullyOpen then FullyOpen
    else pos
  }

  /** Trimming keeps a position that is already in range and is idempotent. */
  lemma {:induction false} TrimPosSpec(pos: real)
    ensures FullyClosed <= pos <= FullyOpen ==> TrimPos(pos) == pos
    ensures TrimPos(TrimPos(pos)) == TrimPos(pos)
    ensures pos < FullyClosed ==> TrimPos(pos) == FullyClosed
    ensures pos > FullyOpen ==> TrimPos(pos) == FullyOpen
  {
  }

  /** Notifications on the HAP characteristics. */
  datatype WcNotice = CurPosNotice | TgtPosNotice | CurTiltNotice | TgtTiltNotice | PosStateNotice

  /** The positions and tilts, in percent or NotSet. */
  datatype Positions = Positions(curPos: real, tgtPos: real, curTilt: real, tgtTilt: real)

  /** SetTgtPos. */
  function SetTgtPosF(p: Positions, v: real): (Positions, seq<WcNotice>) {
    var t := TrimPos(v);
    if t == p.tgtPos then (p, []) else (p.(tgtPos := t), [TgtPosNotice])
  }

  /** SetTgtTilt. */
  function SetTgtTiltF(p: Positions, v: real): (Positions, seq<WcNotice>) {
    var t := TrimPos(v);
    if t == p.tgtTilt then (p, []) else (p.(tgtTilt := t), [TgtTiltNotice])
  }

  /** SetCurTilt: a tilt change also resets the target position to the
      current one. */
  function SetCurTiltF(p: Positions, v: real): (Positions, seq<WcNotice>) {
    var t := TrimPos(v);
    if t == p.curTilt then (p, [])
    else
      var (q, n) := SetTgtPosF(p.(curTilt := t), p.curPos);
      (q, n + [CurTiltNotice])
  }

  /** SetCurPos: reaching an end position also moves the tilt there. */
  function SetCurPosF(p: Positions, v: real): (Positions, seq<WcNotice>) {
    var t := TrimPos(v);
    if t == p.curPos then (p, [])
    else
      var p1 := p.(curPos := t);
      if t == FullyOpen || t == FullyClosed then
        var (p2, n2) := SetCurTiltF(p1, t);
        var (p3, n3) := SetTgtTiltF(p2, t);
        (p3, n2 + n3 + [CurPosNotice])
      else (p1, [CurPosNotice])
  }

  /** The position setters store the trimmed value, and do nothing at all
      when the trimmed value equals the current one. */
  lemma {:induction false} SettersTrim(p: Positions, v: real)
    ensures TrimPos(v) == p.tgtPos ==> SetTgtPosF(p, v) == (p, [])
    ensures TrimPos(v) == p.curPos ==> SetCurPosF(p, v) == (p, [])
    ensures TrimPos(v) == p.tgtTilt ==> SetTgtTiltF(p, v) == (p, [])
    ensures TrimPos(v) == p.curTilt ==> SetCurTiltF(p, v) == (p, [])
    ensures SetTgtPosF(p, v).0.tgtPos == TrimPos(v)
    ensures SetCurPosF(p, v).0.curPos == TrimPos(v)
    ensures SetTgtTiltF(p, v).0.tgtTilt == TrimPos(v)
    ensures SetCurTiltF(p, v).0.curTilt == TrimPos(v)
  {
  }

  /** Reaching an end position brings the current and target tilt to the
      same end. */
  lemma {:induction false} EndpointAlignsTilt(p: Positions, v: real)
    requires TrimPos(v) == FullyOpen || TrimPos(v) == FullyClosed
    requires TrimPos(v) != p.curPos
    ensures var q := SetCurPosF(p, v).0;
      q.curPos == TrimPos(v) && q.curTilt == TrimPos(v) && q.tgtTilt == TrimPos(v)
  {
    TrimPosSpec(v);
  }

  /** GetDesiredMoveDirection: none without a target; when uncalibrated or
      within half a percent of the target, towards the target tilt; else
      towards the target position. */
  function DesiredDirection(p: Positions, calibrated: bool): Direction {
    if p.tgtPos == NotSet then NoDirection
    else
      var diff := p.tgtPos - p.curPos;
      if !calibrated || (if diff < 0.0 then -diff else diff) < 0.5 then
        if p.tgtTilt == p.curTilt || p.tgtTilt == NotSet then NoDirection
        else if p.tgtTilt - p.curTilt > 0.0 then OpenDir else CloseDir
      else if diff > 0.0 then OpenDir else CloseDir
  }

  /** A calibrated cover at least half a percent from its target moves
      towards it; otherwise only the tilt can ask for a move. */
  lemma {:induction false} DesiredDirectionSpec(p: Positions, calibrated: bool)
    ensures p.tgtPos == NotSet ==> DesiredDirection(p, calibrated) == NoDirection
    ensures p.tgtPos != NotSet && calibrated && p.tgtPos - p.curPos >= 0.5 ==>
      DesiredDirection(p, calibrated) == OpenDir
    ensures p.tgtPos != NotSet && calibrated && p.curPos - p.tgtPos >= 0.5 ==>
      DesiredDirection(p, calibrated) == CloseDir
    ensures p.tgtPos != NotSet && (!calibrated || -0.5 < p.tgtPos - p.curPos < 0.5) ==>
      (DesiredDirection(p, calibrated) == NoDirection <==> p.tgtTilt == p.curTilt || p.tgtTilt == NotSet)
  {
  }

  /** Move: the (open, close) output levels for a direction. */
  function MoveOutputs(calibrated: bool, dir: Direction): (bool, bool) {
    if calibrated then (dir == OpenDir, dir == CloseDir) else (false, false)
  }

  /** Move never energises both outputs, and energises none when
      uncalibrated or when told to stop. */
  lemma {:induction false} MoveOutputsSpec(calibrated: bool, dir: Direction)
    ensures var (o, c) := MoveOutputs(calibrated, dir);
      && !(o && c)
      && (o <==> calibrated && dir == OpenDir)
      && (c <==> calibrated && dir == CloseDir)
  {
  }

  /** HandleInputSingle: the new target position. Stopped at the closed
      end it opens; at the open end, or after last moving open, it closes;
      otherwise it opens. While moving it stops one percent ahead. */
  function SingleTarget(movingDir: Direction, lastMoveDir: Direction, curPos: real): real {
    match movingDir
    case NoDirection =>
      if curPos == FullyClosed then FullyOpen
      else if curPos == FullyOpen || lastMoveDir == OpenDir then FullyClosed
      else FullyOpen
    case OpenDir => curPos + 1.0
    case CloseDir => curPos - 1.0
  }

  /** HandleInputEventNotCalibrated: the (open, close) outputs for the
      wanted and current directions; both wanted, or a direct reversal,
      turns both off. */
  function ManualOutputs(wantOpen: bool, wantClose: bool, isOpen: bool, isClose: bool): (bool, bool) {
    if (wantOpen && wantClose) || (wantOpen && isClose) || (wantClose && isOpen) then (false, false)
    else (wantOpen, wantClose)
  }

  /** Manual control never drives both outputs, never reverses directly,
      and otherwise follows the inputs. */
  lemma {:induction false} ManualOutputsSpec(wantOpen: bool, wantClose: bool, isOpen: bool, isClose: bool)
    ensures var (o, c) := ManualOutputs(wantOpen, wantClose, isOpen, isClose);
      && !(o && c)
      && (isClose ==> !o) && (isOpen ==> !c)
      && (o ==> wantOpen) && (c ==> wantClose)
      && (!isOpen && !isClose && !(wantOpen && wantClose) ==> o == wantOpen && c == wantClose)
  {
  }

  /** The stored configuration, with the persisted current position and
      tilt the cover starts from. */
  datatype WcConfig = WcConfig(
    name: string, inMode: int, swapInputs: bool, swapOutputs: bool,
    calibrated: bool, tiltTimeMs: int, currentPos: real, currentTilt: real)

  /** The configuration after a position change: a changed current
      position or tilt is also written to the stored configuration. */
  function Persisted(cfg: WcConfig, before: Positions, after: Positions): WcConfig {
    cfg.(currentPos := if after.curPos != before.curPos then after.curPos else cfg.currentPos,
         currentTilt := if after.curTilt != before.curTilt then after.curTilt else cfg.currentTilt)
  }

  /** A SetConfig request: absent fields hold -1 (in_mode and the swaps),
      0 (tilt time and target tilt) or None (name). */
  datatype WcConfigRequest = WcConfigRequest(
    name: Option<string>, inMode: int, swapInputs: int, swapOutputs: int,
    tiltTimeMs: int, targetTilt: real)

  function ValidateWcConfig(req: WcConfigRequest): Status {
    if req.name.Some? && |req.name.value| > MaxNameLen then
      StatusError(InvalidArgument, "invalid name (too long, max 64)")
    else if req.inMode > InModeMax then StatusError(InvalidArgument, "invalid in_mode")
    else StatusOk
  }

  /** A C bool compared with an int flag. */
  function BoolInt(b: bool): int {
    if b then 1 else 0
  }

  /** The configuration after an accepted SetConfig and whether a restart
      is required. */
  function ApplyWcConfig(cfg: WcConfig, req: WcConfigRequest): (WcConfig, bool) {
    var nameChanged := req.name.Some? && req.name.value != cfg.name;
    var inChanged := req.inMode != -1 && req.inMode != cfg.inMode;
    var swapInChanged := req.swapInputs != -1 && req.swapInputs != BoolInt(cfg.swapInputs);
    var swapOutChanged := req.swapOutputs != -1 && req.swapOutputs != BoolInt(cfg.swapOutputs);
    var c := cfg.(
      name := if nameChanged then req.name.value else cfg.name,
      inMode := if inChanged then req.inMode else cfg.inMode,
      swapInputs := if swapInChanged then req.swapInputs != 0 else cfg.swapInputs,
      swapOutputs := if swapOutChanged then req.swapOutputs != 0 else cfg.swapOutputs,
      calibrated := if swapOutChanged then false else cfg.calibrated,
      tiltTimeMs := if req.tiltTimeMs > 0 then req.tiltTimeMs else cfg.tiltTimeMs,
      currentTilt := if 0.0 < req.targetTilt < 100.0 then req.targetTilt else cfg.currentTilt);
    (c, nameChanged || inChanged || swapInChanged || swapOutChanged || req.tiltTimeMs > 0)
  }

  /** SetConfig rejects a name over 64 characters and an in_mode over 3
      (but accepts any other negative in_mode); swapping the outputs
      reverses the motor, so it clears the calibration. */
  lemma {:induction false} WcSetConfigSpec(cfg: WcConfig, req: WcConfigRequest)
    ensures ValidateWcConfig(req).IsOk() <==>
      (req.name.None? || |req.name.value| <= MaxNameLen) && req.inMode <= InModeMax
    ensures var (c, restart) := ApplyWcConfig(cfg, req);
      && (req.swapOutputs != -1 && req.swapOutputs != BoolInt(cfg.swapOutputs) ==> !c.calibrated && restart)
      && (req.swapOutputs == -1 || req.swapOutputs == BoolInt(cfg.swapOutputs) ==> c.calibrated == cfg.calibrated)
      && (req.inMode < -1 && req.inMode != cfg.inMode ==> c.inMode == req.inMode)
  {
  }

  /** The window covering's state. */
  class WindowCovering {
    var cfg: WcConfig
    var state: WcState
    var tgtState: WcState
    var curPos: real
    var tgtPos: real
    var curTilt: real
    var tgtTilt: real
    var movingDir: Direction
    var lastMoveDir: Direction
    var outOpen: bool
    var outClose: bool
    var begin: int
    var notices: seq<WcNotice>

    function Pos(): Positions
      reads this
    {
      Positions(curPos, tgtPos, curTilt, tgtTilt)
    }

    /** The constructor: the positions start from the stored ones, the
        targets equal to them. */
    constructor (cfg: WcConfig)
      ensures this.cfg == cfg && state == Idle && tgtState == None_
      ensures Pos() == Positions(cfg.currentPos, cfg.currentPos, cfg.currentTilt, cfg.currentTilt)
      ensures movingDir == NoDirection && lastMoveDir == NoDirection
      ensures !outOpen && !outClose && notices == []
    {
      this.cfg := cfg;
      state := Idle;
      tgtState := None_;
      curPos, tgtPos := cfg.currentPos, cfg.currentPos;
      curTilt, tgtTilt := cfg.currentTilt, cfg.currentTilt;
      movingDir, lastMoveDir := NoDirection, NoDirection;
      outOpen, outClose := false, false;
      begin := 0;
      notices := [];
    }

    /** SetInternalState at uptime `nowUs`: a change restarts the state's
        clock. */
    method SetInternalState(s: WcState, nowUs: int)
      modifies this
      ensures state == s && begin == (if old(state) == s then old(begin) else nowUs)
      ensures Pos() == old(Pos()) && notices == old(notices) && tgtState == old(tgtState)
      ensures cfg == old(cfg) && movingDir == old(movingDir) && lastMoveDir == old(lastMoveDir)
      ensures outOpen == old(outOpen) && outClose == old(outClose)
    {
      if state == s {
        return;
      }
      state := s;
      begin := nowUs;
    }

    method SetTgtPos(v: real)
      modifies this
      ensures Pos() == SetTgtPosF(old(Pos()), v).0 && notices == old(notices) + SetTgtPosF(old(Pos()), v).1
      ensures cfg == old(cfg) && state == old(state) && tgtState == old(tgtState) && begin == old(begin)
      ensures movingDir == old(movingDir) && lastMoveDir == old(lastMoveDir)
      ensures outOpen == old(outOpen) && outClose == old(outClose)
    {
      var t := TrimPos(v);
      if t == tgtPos {
        assert notices == notices + [];
        return;
      }
      tgtPos := t;
      notices := notices + [TgtPosNotice];
    }

    method SetTgtTilt(v: real)
      modifies this
      ensures Pos() == SetTgtTiltF(old(Pos()), v).0 && notices == old(notices) + SetTgtTiltF(old(Pos()), v).1
      ensures cfg == old(cfg) && state == old(state) && tgtState == old(tgtState) && begin == old(begin)
      ensures movingDir == old(movingDir) && lastMoveDir == old(lastMoveDir)
      ensures outOpen == old(outOpen) && outClose == old(outClose)
    {
      var t := TrimPos(v);
      if t == tgtTilt {
        assert notices == notices + [];
        return;
      }
      tgtTilt := t;
      notices := notices + [TgtTiltNotice];
    }

    method SetCurTilt(v: real)
      modifies this
      ensures Pos() == SetCurTiltF(old(Pos()), v).0 && notices == old(notices) + SetCurTiltF(old(Pos()), v).1
      ensures cfg == Persisted(old(cfg), old(Pos()), Pos())
      ensures state == old(state) && tgtState == old(tgtState) && begin == old(begin)
      ensures movingDir == old(movingDir) && lastMoveDir == old(lastMoveDir)
      ensures outOpen == old(outOpen) && outClose == old(outClose)
    {
      var t := TrimPos(v);
      if t == curTilt {
        assert notices == notices + [];
        return;
      }
      curTilt := t;
      cfg := cfg.(currentTilt := t);
      SetTgtPos(curPos);
      notices := notices + [CurTiltNotice];
    }

    method SetCurPos(v: real)
      modifies this
      ensures Pos() == SetCurPosF(old(Pos()), v).0 && notices == old(notices) + SetCurPosF(old(Pos()), v).1
      ensures cfg == Persisted(old(cfg), old(Pos()), Pos())
      ensures state == old(state) && tgtState == old(tgtState) && begin == old(begin)
      ensures movingDir == old(movingDir) && lastMoveDir == old(lastMoveDir)
      ensures outOpen == old(outOpen) && outClose == old(outClose)
    {
      var t := TrimPos(v);
      if t == curPos {
        assert notices == notices + [];
        return;
      }
      curPos := t;
      cfg := cfg.(currentPos := t);
      if curPos == FullyOpen || curPos == FullyClosed {
        ghost var n0 := notices;
        SetCurTilt(curPos);
        ghost var n1 := notices;
        SetTgtTilt(curPos);
        assert notices == old(notices) + (n1[|n0|..] + notices[|n1|..]);
      }
      notices := notices + [CurPosNotice];
    }

    /** SetConfig: validates, then applies; returns the status and whether
        a restart is required. */
    method SetConfig(req: WcConfigRequest) returns (st: Status, restart: bool)
      modifies this
      ensures st == ValidateWcConfig(req)
      ensures st.IsOk() ==> (cfg, restart) == ApplyWcConfig(old(cfg), req)
      ensures !st.IsOk() ==> cfg == old(cfg) && !restart
      ensures Pos() == old(Pos()) && state == old(state) && notices == old(notices)
    {
      restart := false;
      if req.name.Some? && |req.name.value| > MaxNameLen {
        return StatusError(InvalidArgument, "invalid name (too long, max 64)"), restart;
      }
      if req.inMode > InModeMax {
        return StatusError(InvalidArgument, "invalid in_mode"), restart;
      }
      var name, inMode, swapIn, swapOut := cfg.name, cfg.inMode, cfg.swapInputs, cfg.swapOutputs;
      var calibrated, tiltTimeMs, currentTilt := cfg.calibrated, cfg.tiltTimeMs, cfg.currentTilt;
      if req.name.Some? && req.name.value != name {
        name := req.name.value;
        restart := true;
      }
      if req.inMode != -1 && req.inMode != inMode {
        inMode := req.inMode;
        restart := true;
      }
      if req.swapInputs != -1 && req.swapInputs != BoolInt(swapIn) {
        swapIn := req.swapInputs != 0;
        restart := true;
      }
      if req.swapOutputs != -1 && req.swapOutputs != BoolInt(swapOut) {
        swapOut := req.swapOutputs != 0;
        calibrated := false;
        restart := true;
      }
      if req.tiltTimeMs > 0 {
        tiltTimeMs := req.tiltTimeMs;
        restart := true;
      }
      if 0.0 < req.targetTilt < 100.0 {
        currentTilt := req.targetTilt;
      }
      cfg := WcConfig(name, inMode, swapIn, swapOut, calibrated, tiltTimeMs, cfg.currentPos, currentTilt);
      return StatusOk, restart;
    }

    /** SetState with the JSON fields `state`, `tgt_pos` and `tgt_tilt`
        (-2 when absent), at uptime `nowUs`. A state code outside the
        enumeration is refused; a valid state code of 0 or more becomes the
        target state and stops a busy cover; otherwise the target position
        and tilt are set. */
    method SetState(stateCode: int, tgtPosArg: int, tgtTiltArg: int, nowUs: int) returns (st: Status)
      modifies this
      ensures stateCode != -2 && StateOfCode(stateCode).None? ==>
        st == StatusError(InvalidArgument, "invalid state") && Pos() == old(Pos())
        && state == old(state) && tgtState == old(tgtState)
      ensures stateCode >= 0 && StateOfCode(stateCode).Some? ==>
        && st == StatusOk && tgtState == StateOfCode(stateCode).value
        && state == (if old(state) != Idle then Stop else Idle) && Pos() == old(Pos())
      ensures stateCode < 0 && (stateCode == -2 || StateOfCode(stateCode).Some?) ==>
        && st == StatusOk && state == old(state) && tgtState == old(tgtState)
        && Pos().tgtPos == (if tgtPosArg >= 0 then TrimPos(tgtPosArg as real)
                            else if tgtPosArg == -1 then TrimPos(old(curPos)) else old(tgtPos))
        && Pos().tgtTilt == (if tgtTiltArg >= 0 then TrimPos(tgtTiltArg as real) else old(tgtTilt))
        && Pos().curPos == old(curPos) && Pos().curTilt == old(curTilt)
      ensures cfg == old(cfg)
    {
      if stateCode != -2 && StateStr(stateCode) == "???" {
        return StatusError(InvalidArgument, "invalid state");
      }
      if stateCode >= 0 {
        tgtState := StateOfCode(stateCode).value;
        if state != Idle {
          SetInternalState(Stop, nowUs);
        }
        return StatusOk;
      }
      if tgtPosArg >= 0 {
        SetTgtPos(tgtPosArg as real);
      } else if tgtPosArg == -1 {
        SetTgtPos(curPos);
      }
      if tgtTiltArg >= 0 {
        SetTgtTilt(tgtTiltArg as real);
      }
      return StatusOk;
    }

    /** IsIdle. */
    method IsIdle() returns (idle: bool)
      ensures idle <==> state == Idle
    {
      return state == Idle;
    }

    /** GetDesiredMoveDirection. */
    method GetDesiredMoveDirection() returns (dir: Direction)
      ensures dir == DesiredDirection(Pos(), cfg.calibrated)
    {
      if tgtPos == NotSet {
        return NoDirection;
      }
      var diff := tgtPos - curPos;
      var absDiff := if diff < 0.0 then -diff else diff;
      if !cfg.calibrated || absDiff < 0.5 {
        if tgtTilt == curTilt || tgtTilt == NotSet {
          return NoDirection;
        }
        return if tgtTilt - curTilt > 0.0 then OpenDir else CloseDir;
      }
      return if diff > 0.0 then OpenDir else CloseDir;
    }

    /** Move: drives the outputs for `dir` (only when calibrated), notifies
        a change of moving direction, and remembers the last real
        direction. */
    method Move(dir: Direction)
      modifies this
      ensures (outOpen, outClose) == MoveOutputs(cfg.calibrated, dir)
      ensures movingDir == dir
      ensures lastMoveDir == (if dir != NoDirection then dir else old(lastMoveDir))
      ensures notices == old(notices) + (if old(movingDir) != dir then [PosStateNotice] else [])
      ensures Pos() == old(Pos()) && state == old(state) && cfg == old(cfg)
    {
      var wantOpen, wantClose := false, false;
      if cfg.calibrated {
        match dir {
          case NoDirection =>
          case OpenDir => wantOpen := true;
          case CloseDir => wantClose := true;
        }
      }
      outOpen := wantOpen;
      outClose := wantClose;
      if movingDir != dir {
        notices := notices + [PosStateNotice];
      }
      movingDir := dir;
      if dir != NoDirection {
        lastMoveDir := dir;
      }
    }

    /** HandleInputSingle: sets the target position. */
    method HandleInputSingle()
      modifies this
      ensures var (p, n) := SetTgtPosF(old(Pos()), SingleTarget(old(movingDir), old(lastMoveDir), old(curPos)));
        Pos() == p && notices == old(notices) + n
      ensures state == old(state) && movingDir == old(movingDir) && lastMoveDir == old(lastMoveDir)
    {
      match movingDir {
        case NoDirection =>
          if curPos == FullyClosed {
            SetTgtPos(FullyOpen);
          } else if curPos == FullyOpen || lastMoveDir == OpenDir {
            SetTgtPos(FullyClosed);
          } else {
            SetTgtPos(FullyOpen);
          }
        case OpenDir =>
          SetTgtPos(curPos + 1.0);
        case CloseDir =>
          SetTgtPos(curPos - 1.0);
      }
    }

    /** HandleInputEventNotCalibrated with the open and close inputs reading
        `inOpen` and `inClose` (None when the input does not exist). Only an
        idle cover reacts. */
    method HandleInputEventNotCalibrated(inOpen: Option<bool>, inClose: Option<bool>)
      modifies this
      ensures state != Idle ==> outOpen == old(outOpen) && outClose == old(outClose)
      ensures state == Idle ==>
        (outOpen, outClose) == ManualOutputs(inOpen == Some(true), inClose == Some(true), old(outOpen), old(outClose))
      ensures state == old(state) && Pos() == old(Pos()) && notices == old(notices)
    {
      if state != Idle {
        return;
      }
      var wantOpen := inOpen.Some? && inOpen.value;
      var isOpen := outOpen;
      var wantClose := inClose.Some? && inClose.value;
      var isClose := outClose;
      if (wantOpen && wantClose) || (wantOpen && isClose) || (wantClose && isOpen) {
        wantOpen, wantClose := false, false;
      }
      outOpen := wantOpen;
      outClose := wantClose;
    }
  }

  /** A single press on a stopped cover at the closed end opens it fully;
      at the open end, or after it last moved open, it closes fully; a
      press while moving stops one percent further on. */
  lemma {:induction false} SingleTargetSpec(movingDir: Direction, lastMoveDir: Direction, curPos: real)
    ensures movingDir == NoDirection && curPos == FullyClosed ==> SingleTarget(movingDir, lastMoveDir, curPos) == FullyOpen
    ensures movingDir == NoDirection && curPos != FullyClosed && (curPos == FullyOpen || lastMoveDir == OpenDir) ==>
      SingleTarget(movingDir, lastMoveDir, curPos) == FullyClosed
    ensures movingDir == OpenDir ==> SingleTarget(movingDir, lastMoveDir, curPos) == curPos + 1.0
    ensures movingDir == CloseDir ==> SingleTarget(movingDir, lastMoveDir, curPos) == curPos - 1.0
    ensures movingDir == NoDirection ==> SingleTarget(movingDir, lastMoveDir, curPos) in {FullyOpen, FullyClosed}
  {
  }
}
