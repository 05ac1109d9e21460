/** The firmware's main module (src/shelly_main.cpp): the service flags
    that keep the HAP server from starting, the overheat protection, the
    server start and stop, the lookup of inputs and outputs by id, the
    configuration migration, the file filter of the OTA filesystem merge and
    the routing of plain HTTP requests. */
module ShellyMain {
  import opened Wrappers
  import opened Common

  /** The service flags (uint8_t s_service_flags). */
  const FlagUpdate: bv8 := 1
  const FlagReboot: bv8 := 2
  const FlagOverheat: bv8 := 4
  const FlagRevert: bv8 := 8

  /** SetServiceFlags: the given bits are set. */
  function SetFlags(flags: bv8, f: bv8): (r: bv8) {
    flags | f
  }

  /** ClearServiceFlags: the given bits are cleared. */
  function ClearFlags(flags: bv8, f: bv8): (r: bv8) {
    flags & !f
  }

  /** Setting turns the given bits on, clearing turns them off, and
      neither touches any other bit; clearing undoes setting for bits that
      were off. */
  lemma {:induction false} FlagsSpec(flags: bv8, f: bv8)
    ensures SetFlags(flags, f) & f == f && ClearFlags(flags, f) & f == 0
    ensures SetFlags(flags, f) & !f == flags & !f && ClearFlags(flags, f) & !f == flags & !f
    ensures flags & f == 0 ==> ClearFlags(SetFlags(flags, f), f) == flags
  {
  }

  /** CheckOverheat's new flags: the overheat flag is set at `on` degrees
      or more and cleared at `off` degrees or less. */
  function OverheatFlags(flags: bv8, temp: int, on: int, off: int): bv8 {
    if flags & FlagOverheat == 0 then
      (if temp >= on then flags | FlagOverheat else flags)
    else
      (if temp <= off then flags & !FlagOverheat else flags)
  }

  /** The hysteresis: between the two thresholds the flag keeps its state;
      beyond them it follows the temperature; no other flag changes. */
  lemma {:induction false} OverheatHysteresis(flags: bv8, temp: int, on: int, off: int)
    ensures var r := OverheatFlags(flags, temp, on, off);
      && r & !FlagOverheat == flags & !FlagOverheat
      && (off < temp < on ==> r == flags)
      && (temp >= on && temp > off ==> r & FlagOverheat != 0)
      && (temp <= off && temp < on ==> r & FlagOverheat == 0)
  {
  }

  /** The HAP server's state, as far as this module uses it. */
  datatype ServerState = Idle | Running | Stopping

  /** How the server was started: a lone accessory or a bridge. */
  datatype StartKind = Server | Bridge

  /** The service: flags, server, accessories (s_accs; 0 until created)
      and the outputs' states. */
  class Service {
    var flags: bv8
    var server: ServerState
    var accessories: nat
    var started: Option<StartKind>
    var outputs: seq<bool>

    constructor (outputs: seq<bool>)
      ensures flags == 0 && server == Idle && accessories == 0 && started == None
      ensures this.outputs == outputs
    {
      flags := 0;
      server := Idle;
      accessories := 0;
      started := None;
      this.outputs := outputs;
    }

    method GetServiceFlags() returns (f: bv8)
      ensures f == flags
    {
      return flags;
    }

    method SetServiceFlags(f: bv8)
      modifies this
      ensures flags == SetFlags(old(flags), f)
      ensures server == old(server) && accessories == old(accessories) && outputs == old(outputs) && started == old(started)
    {
      flags := flags | f;
    }

    method ClearServiceFlags(f: bv8)
      modifies this
      ensures flags == ClearFlags(old(flags), f)
      ensures server == old(server) && accessories == old(accessories) && outputs == old(outputs) && started == old(started)
    {
      flags := flags & !f;
    }

    /** StopService: an idle server's accessories are destroyed at once;
        a running one is asked to stop, and they go when it is idle. */
    method StopService()
      modifies this
      ensures old(server) == Idle ==> server == Idle && accessories == 0
      ensures old(server) != Idle ==> server == Stopping && accessories == old(accessories)
      ensures flags == old(flags) && outputs == old(outputs) && started == old(started)
    {
      if server == Idle {
        accessories := 0;
        return;
      }
      server := Stopping;
    }

    /** The server has reached the idle state (HAPServerStateUpdateCB). */
    method ServerStopped()
      modifies this
      ensures server == Idle && accessories == 0 && started == None
      ensures flags == old(flags) && outputs == old(outputs)
    {
      server := Idle;
      started := None;
      accessories := 0;
    }

    /** StartService: refused while any flag is set; a server that is not
        idle is left alone; otherwise the accessories are created (the
        primary one and `bridged` more) if they are not there yet, and the
        server starts only when paired or provisioned, as a bridge when
        there is more than one accessory. */
    method StartService(paired: bool, provisioned: bool, bridged: nat) returns (ok: bool)
      modifies this
      ensures old(flags) != 0 ==> !ok && server == old(server) && accessories == old(accessories) && started == old(started)
      ensures (old(flags) == 0 && old(server) != Idle) ==> ok && server == old(server) && accessories == old(accessories)
      ensures (old(flags) == 0 && old(server) == Idle) ==>
        && accessories == (if old(accessories) == 0 then 1 + bridged else old(accessories))
        && (ok <==> paired || provisioned)
        && (ok ==> server == Running && started == Some(if accessories == 1 then Server else Bridge))
        && (!ok ==> server == Idle && started == old(started))
      ensures flags == old(flags) && outputs == old(outputs)
    {
      if flags != 0 {
        return false;
      }
      if server != Idle {
        return true;
      }
      if accessories == 0 {
        accessories := 1 + bridged;
      }
      if !paired && !provisioned {
        return false;
      }
      started := Some(if accessories == 1 then Server else Bridge);
      server := Running;
      return true;
    }

    /** CheckOverheat: on overheating the service is stopped and every
        output is switched off; the flag then keeps the server from
        starting until the temperature is back down. */
    method CheckOverheat(temp: int, on: int, off: int)
      modifies this
      ensures flags == OverheatFlags(old(flags), temp, on, off)
      ensures (old(flags) & FlagOverheat == 0 && temp >= on) ==>
        && |outputs| == |old(outputs)| && (forall i :: 0 <= i < |outputs| ==> !outputs[i])
        && server != Running
        && (old(server) == Idle ==> accessories == 0)
      ensures !(old(flags) & FlagOverheat == 0 && temp >= on) ==>
        outputs == old(outputs) && server == old(server) && accessories == old(accessories)
      ensures started == old(started)
    {
      if flags & FlagOverheat == 0 {
        if temp >= on {
          flags := flags | FlagOverheat;
          StopService();
          outputs := seq(|outputs|, _ => false);
        }
      } else if temp <= off {
        flags := flags & !FlagOverheat;
      }
    }
  }

  /** While overheated the server cannot be started. */
  lemma {:induction false} OverheatBlocksStart(flags: bv8, temp: int, on: int, off: int)
    requires flags & FlagOverheat == 0 && temp >= on
    ensures OverheatFlags(flags, temp, on, off) != 0
    ensures forall t :: t > off ==> OverheatFlags(OverheatFlags(flags, temp, on, off), t, on, off) != 0
  {
  }

  /** FindById: the first element (here, its id) with the given id. */
  function FirstWithId(ids: seq<int>, id: int): Option<nat>
    decreases |ids|
  {
    if |ids| == 0 then None
    else if ids[0] == id then Some(0)
    else match FirstWithId(ids[1..], id)
      case None => None
      case Some(k) => Some(k + 1)
  }

  lemma {:induction false} FirstWithIdSpec(ids: seq<int>, id: int)
    ensures var r := FirstWithId(ids, id);
      && (r.None? <==> id !in ids)
      && (r.Some? ==> r.value < |ids| && ids[r.value] == id && forall j :: 0 <= j < r.value ==> ids[j] != id)
    decreases |ids|
  {
    if |ids| > 0 {
      FirstWithIdSpec(ids[1..], id);
      assert ids == [ids[0]] + ids[1..];
    }
  }

  method FindById(ids: seq<int>, id: int) returns (r: Option<nat>)
    ensures r == FirstWithId(ids, id)
    ensures r.None? <==> id !in ids
    ensures r.Some? ==> r.value < |ids| && ids[r.value] == id && forall j :: 0 <= j < r.value ==> ids[j] != id
  {
    FirstWithIdSpec(ids, id);
    var i := 0;
    while i < |ids|
      invariant 0 <= i <= |ids|
      invariant forall j :: 0 <= j < i ==> ids[j] != id
    {
      if ids[i] == id {
        return Some(i);
      }
      i := i + 1;
    }
    return None;
  }

  /** The files the OTA merge never copies from the old filesystem
      ("index.html" is listed twice). */
  const SkipFiles: seq<string> := [
    "cert.pem", "passwd", "relaydata", "index.html", "conf9_backup.json",
    "axios.min.js.gz", "favicon.ico", "logo.png", "rpc_acl.json", "style.css",
    "style.css.gz", "api_math.js", "api_rpc.js", "bundle.css.gz", "bundle.js.gz",
    "ca.pem", "index.html", "init.js", "rpc_acl_auth.json", "rpc_acl_no_auth.json",
    "storage.json", "tzinfo"]

  /** The path the existence test looks at: "<new fs>/<file>", cut to the
      98 characters the 100-byte buffer receives. */
  function NewFsPath(newFs: string, file: string): (p: string)
    ensures |p| <= 98
    ensures |newFs| + 1 + |file| <= 98 ==> p == newFs + "/" + file
  {
    var full := newFs + "/" + file;
    if |full| <= 98 then full else full[..98]
  }

  /** mgos_ota_merge_fs_should_copy_file: `existing` is the set of paths
      present on the new filesystem. */
  function ShouldCopy(newFs: string, file: string, existing: set<string>): bool {
    file !in SkipFiles && NewFsPath(newFs, file) !in existing
  }

  /** A skip-listed file is never copied; any other file is copied exactly
      when the new filesystem does not have it. */
  lemma {:induction false} ShouldCopySpec(newFs: string, file: string, existing: set<string>)
    ensures file in SkipFiles ==> !ShouldCopy(newFs, file, existing)
    ensures (file !in SkipFiles && |newFs| + 1 + |file| <= 98) ==>
      (ShouldCopy(newFs, file, existing) <==> newFs + "/" + file !in existing)
  {
  }

  method ShouldCopyFile(newFs: string, file: string, existing: set<string>) returns (copy: bool)
    ensures copy == ShouldCopy(newFs, file, existing)
  {
    var i := 0;
    while i < |SkipFiles|
      invariant 0 <= i <= |SkipFiles|
      invariant forall j :: 0 <= j < i ==> SkipFiles[j] != file
    {
      if SkipFiles[i] == file {
        return false;
      }
      i := i + 1;
    }
    var path := newFs + "/" + file;
    if |path| > 98 {
      path := path[..98];
    }
    return path !in existing;
  }

  /** The settings the migration touches, apart from Wi-Fi. Each switch
      (sw1, sw2) has its persist flag, initial state and input mode; the
      stateless-switch entries (name, input mode) exist in the old (ssw)
      and the new (in.ssw) place. */
  datatype SysCfg = SysCfg(
    cfgVersion: int,
    swPersist: seq<bool>, swInitial: seq<int>, swInMode: seq<int>,
    legacyLayout: bool, name: string, hostName: string, deviceId: string,
    ssw: seq<(string, int)>, inSsw: seq<(string, int)>,
    cnIncrements: nat, fileLogger: bool, rpcAclFile: Option<string>, rpcAcl: string)

  predicate WellFormed(c: SysCfg) {
    |c.swPersist| == |c.swInitial| == |c.swInMode| <= 2
  }

  /** What the migration needs from outside: whether the accessory is
      paired, the default device id with the MAC filled in, whether the
      key-value store took the CN increment, the default RPC ACL, and the
      settings SanitizeSysConfig loads: the configuration up to the vendor
      level, with the MAC filled into its device id. Wi-Fi, which it keeps,
      is not part of SysCfg. */
  datatype MigrateEnv = MigrateEnv(
    paired: bool, defaultDeviceId: string, cnOk: bool, defaultRpcAcl: string, vendor: SysCfg)

  /** The vendor settings come from the same firmware, so they are needed
      well formed only when the first step resets to them. */
  predicate VendorOk(c: SysCfg, env: MigrateEnv) {
    c.cfgVersion == 0 ==> WellFormed(env.vendor)
  }

  /** One migration step, from cfgVersion to cfgVersion + 1. The first one
      resets every setting but Wi-Fi to the vendor's, then turns a
      persisted switch state into "initial state: last". */
  function Step(c: SysCfg, env: MigrateEnv): (r: SysCfg)
    requires 0 <= c.cfgVersion < 6 && WellFormed(c) && VendorOk(c, env)
    ensures r.cfgVersion == c.cfgVersion + 1 && WellFormed(r)
    ensures c.cfgVersion == 0 ==>
      && r.(swInitial := env.vendor.swInitial, cfgVersion := env.vendor.cfgVersion) == env.vendor
      && |r.swInitial| == |env.vendor.swPersist|
      && forall i :: 0 <= i < |r.swInitial| ==>
           r.swInitial[i] == if env.vendor.swPersist[i] then InitialLast else env.vendor.swInitial[i]
  {
    match c.cfgVersion
    case 0 =>
      var v := env.vendor;
      v.(swInitial := seq(|v.swInitial|, i requires 0 <= i < |v.swInitial| =>
           if v.swPersist[i] then InitialLast else v.swInitial[i]),
         cfgVersion := 1)
    case 1 =>
      var keepLegacy := |c.swInMode| == 2 && env.paired && c.swInMode[0] != 3 && c.swInMode[1] != 3;
      c.(legacyLayout := if keepLegacy then true else c.legacyLayout, cfgVersion := 2)
    case 2 =>
      c.(name := c.deviceId, hostName := c.deviceId, deviceId := env.defaultDeviceId, cfgVersion := 3)
    case 3 =>
      c.(inSsw := c.ssw, cfgVersion := 4)
    case 4 =>
      c.(cnIncrements := if env.cnOk then c.cnIncrements + 1 else c.cnIncrements,
         fileLogger := false, cfgVersion := 5)
    case 5 =>
      if c.rpcAclFile.Some? then c.(rpcAcl := env.defaultRpcAcl, rpcAclFile := None, cfgVersion := 6)
      else c.(cfgVersion := 6)
  }

  /** The migration: every step from the stored version up to 6. */
  function Migrate(c: SysCfg, env: MigrateEnv): SysCfg
    requires WellFormed(c) && VendorOk(c, env)
    decreases 6 - c.cfgVersion
  {
    if 0 <= c.cfgVersion < 6 then Migrate(Step(c, env), env) else c
  }

  /** A stored version from 0 to 5 ends at 6; any other is left alone;
      migrating again changes nothing. */
  lemma {:induction false} MigrateSpec(c: SysCfg, env: MigrateEnv)
    requires WellFormed(c) && VendorOk(c, env)
    ensures var m := Migrate(c, env);
      && WellFormed(m)
      && (0 <= c.cfgVersion <= 6 ==> m.cfgVersion == 6)
      && (!(0 <= c.cfgVersion < 6) ==> m == c)
      && Migrate(m, env) == m
    decreases 6 - c.cfgVersion
  {
    if 0 <= c.cfgVersion < 6 {
      MigrateSpec(Step(c, env), env);
    }
  }

  /** Each step runs only from its own version: a configuration already
      at version 3 keeps its name, host name and device id. */
  lemma {:induction false} MigrateKeepsNames(c: SysCfg, env: MigrateEnv)
    requires WellFormed(c) && c.cfgVersion >= 3
    ensures var m := Migrate(c, env);
      m.name == c.name && m.hostName == c.hostName && m.deviceId == c.deviceId
    decreases 6 - c.cfgVersion
  {
    if c.cfgVersion < 6 {
      MigrateKeepsNames(Step(c, env), env);
    }
  }

  /** The very first migration keeps nothing of the stored settings but
      Wi-Fi: two configurations at version 0 migrate to the same one. */
  lemma {:induction false} FirstMigrationResets(c1: SysCfg, c2: SysCfg, env: MigrateEnv)
    requires WellFormed(c1) && WellFormed(c2) && WellFormed(env.vendor)
    requires c1.cfgVersion == 0 && c2.cfgVersion == 0
    ensures Migrate(c1, env) == Migrate(c2, env)
  {
    assert Step(c1, env) == Step(c2, env);
  }

  /** MigrateConfig: `changed` says whether any step ran; the reboot flag
      is cleared and never set. */
  method MigrateConfig(c: SysCfg, env: MigrateEnv) returns (r: SysCfg, changed: bool, rebootRequired: bool)
    requires WellFormed(c) && VendorOk(c, env)
    ensures r == Migrate(c, env) && !rebootRequired
    ensures changed <==> 0 <= c.cfgVersion < 6
  {
    changed, rebootRequired := false, false;
    r := c;
    if r.cfgVersion == 0 {
      r := Step(r, env);
      changed := true;
    }
    assert Migrate(r, env) == Migrate(c, env);
    if r.cfgVersion == 1 {
      r := Step(r, env);
      changed := true;
    }
    assert Migrate(r, env) == Migrate(c, env);
    if r.cfgVersion == 2 {
      r := Step(r, env);
      changed := true;
    }
    assert Migrate(r, env) == Migrate(c, env);
    if r.cfgVersion == 3 {
      r := Step(r, env);
      changed := true;
    }
    assert Migrate(r, env) == Migrate(c, env);
    if r.cfgVersion == 4 {
      r := Step(r, env);
      changed := true;
    }
    assert Migrate(r, env) == Migrate(c, env);
    if r.cfgVersion == 5 {
      r := Step(r, env);
      changed := true;
    }
    assert Migrate(r, env) == Migrate(c, env);
    assert Migrate(r, env) == r;
  }

  /** ASCII upper case to lower case. */
  function LowerChar(ch: char): char {
    if 'A' <= ch <= 'Z' then (ch as int - 'A' as int + 'a' as int) as char else ch
  }

  function Lower(s: string): (r: string)
    ensures |r| == |s|
  {
    seq(|s|, i requires 0 <= i < |s| => LowerChar(s[i]))
  }

  /** The file HTTPHandler serves and its content type: the web UI for
      "/" and "/ota", the icon for "/favicon.ico", for GET in any letter
      case; nothing otherwise. */
  function Route(httpMethod: string, uri: string): Option<(string, string)> {
    if Lower(httpMethod) != "get" then None
    else if uri == "/" || uri == "/ota" then Some(("index.html.gz", "text/html"))
    else if uri == "/favicon.ico" then Some(("favicon.ico.gz", "image/x-icon"))
    else None
  }

  lemma {:induction false} RouteSpec(httpMethod: string, uri: string)
    ensures Route(httpMethod, uri).Some? ==> Lower(httpMethod) == "get" && uri in {"/", "/ota", "/favicon.ico"}
    ensures Lower(httpMethod) == "get" && uri in {"/", "/ota"} ==> Route(httpMethod, uri) == Some(("index.html.gz", "text/html"))
    ensures Route("get", "/favicon.ico") == Route("GET", "/favicon.ico") == Some(("favicon.ico.gz", "image/x-icon"))
    ensures Route("POST", "/") == None && Route("GET", "/index.html") == None
  {
    assert Lower("get") == "get";
    assert Lower("GET") == "get";
    assert Lower("POST") != "get" by {
      assert Lower("POST")[0] == 'p';
    }
  }

  datatype HttpResponse = NoResponse | NotFound404 | ServeGzip(file: string, contentType: string)

  /** HTTPHandler: only requests are handled; a routed request is served
      gzip-encoded and its client's address is reported to the Wi-Fi
      manager, anything else gets 404. */
  method HTTPHandler(isRequest: bool, httpMethod: string, uri: string, clientAddr: string)
    returns (resp: HttpResponse, reported: Option<string>)
    ensures !isRequest ==> resp == NoResponse && reported == None
    ensures isRequest && Route(httpMethod, uri).None? ==> resp == NotFound404 && reported == None
    ensures (isRequest && Route(httpMethod, uri).Some?) ==>
      (resp == ServeGzip(Route(httpMethod, uri).value.0, Route(httpMethod, uri).value.1) && reported == Some(clientAddr))
  {
    if !isRequest {
      return NoResponse, None;
    }
    var route := Route(httpMethod, uri);
    if route.None? {
      return NotFound404, None;
    }
    return ServeGzip(route.value.0, route.value.1), Some(clientAddr);
  }
}
