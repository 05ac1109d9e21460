/** A physical input exposed to HomeKit (src/shelly_hap_input.cpp): its
    configured type picks the service (stateless switch, doorbell, motion,
    occupancy or contact sensor, or none) and the bridged accessory's id. */
module HapInput {
  import opened Wrappers
  import opened Common

  /** IsValidType: the six types an input can take. */
  predicate IsValidType(t: int) {
    t == TypeDisabledInput || t == TypeStatelessSwitch || t == TypeMotionSensor
    || t == TypeOccupancySensor || t == TypeContactSensor || t == TypeDoorbell
  }

  /** GetAIDBase. */
  function AidBase(t: int): int {
    if t == TypeStatelessSwitch then AidBaseStatelessSwitch
    else if t == TypeMotionSensor then AidBaseMotionSensor
    else if t == TypeOccupancySensor then AidBaseOccupancySensor
    else if t == TypeContactSensor then AidBaseContactSensor
    else if t == TypeDoorbell then AidBaseDoorbell
    else 0
  }

  /** The id of the bridged accessory CreateHAPInput adds, if any: none
      for a disabled input. */
  function AccessoryAid(t: int, id: int): Option<int>
    requires IsValidType(t)
  {
    if t == TypeDisabledInput then None else Some(AidBase(t) + id)
  }

  /** Only the disabled type (and invalid ones) have no AID base; the bases
      are distinct and 0x100 apart, so inputs with ids below 0x100 get
      distinct accessory ids. */
  lemma {:induction false} AidSpec(t: int, u: int, i: int, j: int)
    ensures AidBase(t) == 0 <==> !IsValidType(t) || t == TypeDisabledInput
    ensures IsValidType(t) && t != TypeDisabledInput ==> AidBase(t) % 0x100 == 0 && AidBase(t) >= 0x400
    ensures (IsValidType(t) && IsValidType(u) && 0 <= i < 0x100 && 0 <= j < 0x100
      && AccessoryAid(t, i).Some? && AccessoryAid(t, i) == AccessoryAid(u, j)) ==> t == u && i == j
  {
  }

  /** An input's configuration: the type and the inversion flag. */
  datatype InCfg = InCfg(ty: int, inverted: bool)

  /** SetConfig's update of the input's own fields, given the service type
      the input was created with; -2 for an absent type and -1 for an
      absent inversion. Returns the new configuration and whether it calls
      for a restart, or the error for an invalid type. As written the
      requested type is compared with the running type, not the stored one. */
  function SetConfigAsWritten(initialType: int, cfg: InCfg, newType: int, inverted: int): Result<(InCfg, bool), Status> {
    if newType != -2 && newType != initialType && !IsValidType(newType) then
      Err(StatusError(InvalidArgument, "invalid type"))
    else
      var typeChange := newType != -2 && newType != initialType;
      var c1 := if typeChange then cfg.(ty := newType) else cfg;
      var invChange := inverted != -1 && (inverted != 0) != cfg.inverted;
      Ok((if invChange then c1.(inverted := inverted != 0) else c1, typeChange || invChange))
  }

  /** SetConfig as intended: the requested type is compared with the
      stored one, so the last request is what the restart applies. */
  function SetInputConfig(cfg: InCfg, newType: int, inverted: int): Result<(InCfg, bool), Status> {
    if newType != -2 && newType != cfg.ty && !IsValidType(newType) then
      Err(StatusError(InvalidArgument, "invalid type"))
    else
      var typeChange := newType != -2 && newType != cfg.ty;
      var c1 := if typeChange then cfg.(ty := newType) else cfg;
      var invChange := inverted != -1 && (inverted != 0) != cfg.inverted;
      Ok((if invChange then c1.(inverted := inverted != 0) else c1, typeChange || invChange))
  }

  /** Changing an input's type and changing it back before the restart:
      as written the second request is ignored and the stored type stays
      the first request's; as intended the stored type is the running one
      again. */
  lemma {:induction false} TypeChangeBackIgnored(inv: bool)
    ensures var first := SetConfigAsWritten(TypeStatelessSwitch, InCfg(TypeStatelessSwitch, inv), TypeMotionSensor, -1);
      && first == Ok((InCfg(TypeMotionSensor, inv), true))
      && SetConfigAsWritten(TypeStatelessSwitch, first.value.0, TypeStatelessSwitch, -1) == Ok((InCfg(TypeMotionSensor, inv), false))
    ensures var first := SetInputConfig(InCfg(TypeStatelessSwitch, inv), TypeMotionSensor, -1);
      && first == Ok((InCfg(TypeMotionSensor, inv), true))
      && SetInputConfig(first.value.0, TypeStatelessSwitch, -1) == Ok((InCfg(TypeStatelessSwitch, inv), true))
  {
  }

  /** The stored configuration keeps a valid type; the request's fields,
      when present and accepted, are what is stored; a restart is asked
      for exactly when something changed. */
  lemma {:induction false} SetInputConfigSpec(cfg: InCfg, newType: int, inverted: int)
    requires IsValidType(cfg.ty)
    ensures var r := SetInputConfig(cfg, newType, inverted);
      && (r.Err? <==> newType != -2 && !IsValidType(newType))
      && (r.Ok? ==> IsValidType(r.value.0.ty))
      && (r.Ok? ==> r.value.0.ty == (if newType == -2 then cfg.ty else newType))
      && (r.Ok? ==> r.value.0.inverted == (if inverted == -1 then cfg.inverted else inverted != 0))
      && (r.Ok? ==> (r.value.1 <==> r.value.0 != cfg))
  {
  }

  class ShellyInput {
    const id: int
    /** The type the input runs with until the next restart. */
    const initialType: int
    /** The stored configuration (cfg_). */
    var cfg: InCfg
    /** The type of the component Init created, and whether the input's
        inversion has been set from the configuration. */
    var component: Option<int>
    var inputInverted: bool

    /** The constructor: an invalid stored type (left by a downgrade)
        becomes a stateless switch, also in the stored configuration. */
    constructor (id: int, cfg: InCfg)
      ensures this.id == id && IsValidType(initialType) && this.cfg.ty == initialType
      ensures this.cfg.inverted == cfg.inverted
      ensures IsValidType(cfg.ty) ==> initialType == cfg.ty
      ensures !IsValidType(cfg.ty) ==> initialType == TypeStatelessSwitch
      ensures component == None && !inputInverted
    {
      this.id := id;
      var t := if IsValidType(cfg.ty) then cfg.ty else TypeStatelessSwitch;
      initialType := t;
      this.cfg := cfg.(ty := t);
      component := None;
      inputInverted := false;
    }

    /** Init: `hasInput` says whether the input exists, `inner` is the
        created component's own Init result. */
    method Init(hasInput: bool, inner: Status) returns (st: Status)
      modifies this
      ensures !hasInput ==> st == StatusError(InvalidArgument, "input is required") && component == old(component)
      ensures hasInput ==> st == inner && component == Some(initialType) && inputInverted == cfg.inverted
      ensures cfg == old(cfg)
    {
      if !hasInput {
        return StatusError(InvalidArgument, "input is required");
      }
      component := Some(initialType);
      inputInverted := cfg.inverted;
      return inner;
    }

    /** Whether the input exposes a HomeKit service. */
    function HasService(): bool
      reads this
    {
      component.Some? && component.value != TypeDisabledInput
    }

    method GetAIDBase() returns (b: int)
      ensures b == AidBase(initialType)
    {
      return AidBase(initialType);
    }

    /** SetConfig: `inner` and `innerRestart` are the running component's
        SetConfig result and restart flag, which are returned even when the
        type changes. */
    method SetConfig(newType: int, inverted: int, inner: Status, innerRestart: bool) returns (st: Status, restart: bool)
      modifies this
      ensures var r := SetInputConfig(old(cfg), newType, inverted);
        && (r.Err? ==> st == r.error && !restart && cfg == old(cfg))
        && (r.Ok? ==> st == inner && cfg == r.value.0 && restart == (r.value.1 || innerRestart))
      ensures component == old(component) && inputInverted == old(inputInverted)
    {
      restart := false;
      if newType != -2 && newType != cfg.ty {
        if !IsValidType(newType) {
          return StatusError(InvalidArgument, "invalid type"), false;
        }
        cfg := cfg.(ty := newType);
        restart := true;
      }
      if inverted != -1 && (inverted != 0) != cfg.inverted {
        cfg := cfg.(inverted := inverted != 0);
        restart := true;
      }
      return inner, restart || innerRestart;
    }

    method SetState() returns (st: Status)
      ensures st == StatusError(Unimplemented, "")
    {
      return StatusError(Unimplemented, "");
    }
  }
}
