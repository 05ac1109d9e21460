/** A HomeKit stateless programmable switch fed by a physical input
    (src/shelly_hap_stateless_switch_base.cpp). */
module StatelessSwitch {
  import opened Wrappers
  import opened Common
  import Input

  /** Input modes of a stateless switch. */
  const SswMomentary := 0
  const SswToggleShort := 1
  const SswToggleShortLong := 2

  /** Values of the Programmable Switch Event characteristic. */
  const SinglePress := 0
  const DoublePress := 1
  const LongPress := 2

  /** Errors of a HAP characteristic read. */
  datatype HapError = HapInvalidState

  datatype SswConfig = SswConfig(name: string, inMode: int)

  /** SetConfig: `inMode` is -1 when the request omits it, and -1 is
      refused like any other mode outside 0..2. */
  function ValidateSswConfig(name: Option<string>, inMode: int): Status {
    if !NameOk(name) then StatusError(InvalidArgument, "invalid name (too long, max 64)")
    else if inMode < 0 || inMode > 2 then StatusError(InvalidArgument, "invalid in_mode")
    else StatusOk
  }

  /** The HAP event a stateless switch reports for an input event, if any. */
  function HapEventFor(inMode: int, ev: Input.Event, level: bool): Option<int> {
    if inMode == SswMomentary then
      match ev
      case Single => Some(SinglePress)
      case Double => Some(DoublePress)
      case Long => Some(LongPress)
      case _ => None
    else if inMode == SswToggleShort || inMode == SswToggleShortLong then
      if !ev.Change? then None
      else if inMode == SswToggleShortLong && !level then Some(DoublePress)
      else Some(SinglePress)
    else None
  }

  /** Momentary mode passes single, double and long presses through and
      ignores changes and resets; the toggle modes report only changes,
      as a single press except for a release in short/long mode, which is
      a double press. */
  lemma {:induction false} HapEventForSpec(inMode: int, ev: Input.Event, level: bool)
    ensures inMode == SswMomentary ==>
      (HapEventFor(inMode, ev, level).Some? <==> ev.Single? || ev.Double? || ev.Long?)
    ensures inMode == SswMomentary && ev.Double? ==> HapEventFor(inMode, ev, level) == Some(DoublePress)
    ensures inMode == SswMomentary && ev.Long? ==> HapEventFor(inMode, ev, level) == Some(LongPress)
    ensures inMode == SswMomentary && ev.Single? ==> HapEventFor(inMode, ev, level) == Some(SinglePress)
    ensures (inMode == SswToggleShort || inMode == SswToggleShortLong) ==>
      (HapEventFor(inMode, ev, level).Some? <==> ev.Change?)
    ensures inMode == SswToggleShortLong && ev.Change? ==>
      HapEventFor(inMode, ev, level) == Some(if level then SinglePress else DoublePress)
    ensures inMode == SswToggleShort && ev.Change? ==> HapEventFor(inMode, ev, level) == Some(SinglePress)
    ensures HapEventFor(inMode, ev, level).Some? ==> 0 <= HapEventFor(inMode, ev, level).value <= 2
  {
  }

  class StatelessSwitchBase {
    var cfg: SswConfig
    var lastEv: int
    var lastEvTs: real
    /** Whether the input handler has been registered (Init has run). */
    var registered: bool
    /** The events notified to HomeKit, in order. */
    var notified: seq<int>

    constructor (cfg: SswConfig)
      ensures this.cfg == cfg && lastEv == 0 && lastEvTs == 0.0 && !registered && notified == []
    {
      this.cfg := cfg;
      lastEv, lastEvTs := 0, 0.0;
      registered := false;
      notified := [];
    }

    /** SetConfig: returns the status and whether a restart is required. */
    method SetConfig(name: Option<string>, inMode: int) returns (st: Status, restart: bool)
      modifies this
      ensures st == ValidateSswConfig(name, inMode)
      ensures st.IsOk() ==>
        cfg == SswConfig(NewName(old(cfg).name, name), inMode) && restart == NameChange(old(cfg).name, name)
      ensures !st.IsOk() ==> cfg == old(cfg) && !restart
      ensures lastEv == old(lastEv) && lastEvTs == old(lastEvTs) && notified == old(notified)
    {
      restart := false;
      if name.Some? && |name.value| > MaxNameLen {
        return StatusError(InvalidArgument, "invalid name (too long, max 64)"), restart;
      }
      if inMode < 0 || inMode > 2 {
        return StatusError(InvalidArgument, "invalid in_mode"), restart;
      }
      if name.Some? && name.value != cfg.name {
        cfg := cfg.(name := name.value);
        restart := true;
      }
      cfg := cfg.(inMode := inMode);
      return StatusOk, restart;
    }

    /** SetState is not supported. */
    method SetState() returns (st: Status)
      ensures st == StatusError(Unimplemented, "")
    {
      return StatusError(Unimplemented, "");
    }

    /** RaiseEvent at uptime `now`: the event is always recorded, but
        notified only once the input handler is registered. */
    method RaiseEvent(ev: int, now: real)
      modifies this
      ensures lastEv == ev && lastEvTs == now
      ensures notified == old(notified) + (if registered then [ev] else [])
      ensures cfg == old(cfg) && registered == old(registered)
    {
      lastEv := ev;
      lastEvTs := now;
      if registered {
        notified := notified + [ev];
      }
    }

    /** Init's handler registration. */
    method Register()
      modifies this
      ensures registered && cfg == old(cfg) && lastEv == old(lastEv)
      ensures lastEvTs == old(lastEvTs) && notified == old(notified)
    {
      registered := true;
    }

    /** InputEventHandler at uptime `now`. */
    method InputEventHandler(ev: Input.Event, level: bool, now: real)
      modifies this
      ensures var e := HapEventFor(old(cfg).inMode, ev, level);
        && (e.None? ==> lastEv == old(lastEv) && lastEvTs == old(lastEvTs) && notified == old(notified))
        && (e.Some? ==>
              lastEv == e.value && lastEvTs == now
              && notified == old(notified) + (if registered then [e.value] else []))
      ensures cfg == old(cfg) && registered == old(registered)
    {
      var m := cfg.inMode;
      if m == SswMomentary {
        match ev {
          case Single => RaiseEvent(SinglePress, now);
          case Double => RaiseEvent(DoublePress, now);
          case Long => RaiseEvent(LongPress, now);
          case _ =>
        }
      } else if m == SswToggleShort || m == SswToggleShortLong {
        if !ev.Change? {
          return;
        }
        if m == SswToggleShortLong && !level {
          RaiseEvent(DoublePress, now);
        } else {
          RaiseEvent(SinglePress, now);
        }
      }
    }

    /** The read handler of the event characteristic: it fails before any
        event has been recorded. */
    method ReadEvent() returns (r: Result<int, HapError>)
      ensures lastEvTs == 0.0 ==> r == Err(HapInvalidState)
      ensures lastEvTs != 0.0 ==> r == Ok(lastEv)
    {
      if lastEvTs == 0.0 {
        return Err(HapInvalidState);
      }
      return Ok(lastEv);
    }
  }

  /** Before any event the read fails; after an event at a positive uptime
      the read returns it. */
  method EventReadAfterRaise(cfg: SswConfig, ev: int, now: real) returns (before: Result<int, HapError>, after: Result<int, HapError>)
    requires now > 0.0
    ensures before == Err(HapInvalidState) && after == Ok(ev)
  {
    var s := new StatelessSwitchBase(cfg);
    before := s.ReadEvent();
    s.RaiseEvent(ev, now);
    after := s.ReadEvent();
  }
}
