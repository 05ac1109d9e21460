/** Shared codes of the configuration schema (src/shelly_common.hpp), the
    component types (src/shelly_component.hpp) and the name update shared
    by the switch and light bulb SetConfig handlers. */
module Common {
  import opened Wrappers

  /** Input modes of a switch or light bulb. */
  const InModeAbsent := -1
  const InModeMomentary := 0
  const InModeToggle := 1
  const InModeEdge := 2
  const InModeDetached := 3
  const InModeActivation := 4
  const InModeMax := 5

  /** Initial output states after boot. */
  const InitialOff := 0
  const InitialOn := 1
  const InitialLast := 2
  const InitialInput := 3
  const InitialStateMax := 4

  /** Component types. */
  const TypeSwitch := 0
  const TypeOutlet := 1
  const TypeLock := 2
  const TypeStatelessSwitch := 3
  const TypeWindowCovering := 4
  const TypeGarageDoorOpener := 5
  const TypeDisabledInput := 6
  const TypeMotionSensor := 7
  const TypeOccupancySensor := 8
  const TypeContactSensor := 9
  const TypeDoorbell := 10
  const TypeLightBulb := 11
  const TypeMax := 12

  /** Accessory id bases of the bridged accessories. */
  const AidBaseSwitch := 0x100
  const AidBaseOutlet := 0x200
  const AidBaseLock := 0x300
  const AidBaseStatelessSwitch := 0x400
  const AidBaseWindowCovering := 0x500
  const AidBaseMotionSensor := 0x600
  const AidBaseOccupancySensor := 0x700
  const AidBaseContactSensor := 0x800
  const AidBaseValve := 0x900
  const AidBaseDoorbell := 0xa00
  const AidBaseLighting := 0xb00

  /** Longest accepted component name. */
  const MaxNameLen := 64

  /** A one-shot auto-off timer: cleared, or armed for `delay` seconds. */
  datatype AutoOffTimer = Cleared | Armed(delay: real)

  /** The name check every SetConfig performs. */
  predicate NameOk(name: Option<string>) {
    name.None? || |name.value| <= MaxNameLen
  }

  /** The switch and light bulb SetConfig as written compare the stored
      name with the requested one even when the request has no name, which
      leaves the requested name a null pointer: the comparison is undefined
      (None). Otherwise it says whether the name changes. */
  function NameChangeAsWritten(cur: string, req: Option<string>): (r: Option<bool>)
    ensures r.None? <==> req.None?
  {
    match req
    case None => None
    case Some(n) => Some(n != cur)
  }

  /** The name update as intended: a missing name leaves the stored one. */
  predicate NameChange(cur: string, req: Option<string>) {
    req.Some? && req.value != cur
  }

  /** The stored name after a SetConfig. */
  function NewName(cur: string, req: Option<string>): string {
    if NameChange(cur, req) then req.value else cur
  }

  /** A request without a name drives the as-written comparison into
      undefined behaviour; with a name the two agree. */
  lemma {:induction false} MissingNameUndefined(cur: string, req: Option<string>)
    ensures req.None? ==> NameChangeAsWritten(cur, req).None? && !NameChange(cur, req)
    ensures req.Some? ==> NameChangeAsWritten(cur, req) == Some(NameChange(cur, req))
  {
  }
}
