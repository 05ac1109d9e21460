/** The RPC handlers of src/shelly_rpc_service.cpp that validate a request
    and then write the configuration: Shelly.SetConfig (system settings or
    one component's), Shelly.SetState, Shelly.InjectInputEvent and
    Shelly.SetAuth. */
module RpcService {
  import opened Wrappers
  import Input
  import ShellyMain

  /** The reply sent: plain success, an HTTP-style error with a message,
      or a status turned into an error reply (SendStatusResp). */
  datatype Reply = Done | Fail(code: int, msg: string) | FromStatus(st: Status)

  /** SendStatusResp: an OK status is plain success. */
  function StatusReply(st: Status): Reply {
    if st.IsOk() then Done else FromStatus(st)
  }

  /** The system settings Shelly.SetConfig writes. The live values are
      what the firmware uses; the saved ones are what survives a reboot. */
  datatype SysSettings = SysSettings(mode: int, name: string, hostName: string, debugEn: bool)

  /** A system settings request: absent fields are None, -1 for sys_mode
      and -1 for debug_en. The name is taken with its MAC placeholders
      already expanded. */
  datatype SysRequest = SysRequest(name: Option<string>, sysMode: int, debugEn: int)

  /** Mode::kDefault; Mode::kMax depends on the device and is a parameter. */
  const ModeDefault := 0

  /** The characters a device name may have: ASCII letters, digits and
      '-'. */
  predicate NameChar(c: char) {
    ('a' <= c <= 'z') || ('A' <= c <= 'Z') || ('0' <= c <= '9') || c == '-'
  }

  predicate ValidName(n: string) {
    |n| <= 64 && forall i :: 0 <= i < |n| ==> NameChar(n[i])
  }

  /** The name check: the length, then every character in turn. */
  method CheckName(n: string) returns (ok: bool)
    ensures ok <==> ValidName(n)
  {
    if |n| > 64 {
      return false;
    }
    var i := 0;
    while i < |n|
      invariant 0 <= i <= |n|
      invariant forall j :: 0 <= j < i ==> NameChar(n[j])
    {
      if !NameChar(n[i]) {
        return false;
      }
      i := i + 1;
    }
    return true;
  }

  /** What a system settings request does to the live settings: the
      reply, the new live settings and whether a restart is needed. */
  datatype SysOutcome = SysOutcome(reply: Reply, live: SysSettings, restart: bool)

  /** The system branch of SetConfigHandler as written: sys_mode is
      applied first, an invalid one only records the error; an invalid
      name then aborts with 400 after sys_mode has already been written;
      a valid one is applied even when sys_mode was invalid, and so is
      debug_en. */
  function SystemAsWritten(s: SysSettings, req: SysRequest, modeMax: int): SysOutcome {
    var modeOk := ModeDefault <= req.sysMode < modeMax;
    var st := if modeOk || req.sysMode == -1 then StatusOk else StatusError(InvalidArgument, "invalid sys_mode");
    var s1 := if modeOk && req.sysMode != s.mode then s.(mode := req.sysMode) else s;
    var r1 := modeOk && req.sysMode != s.mode;
    if req.name.Some? && !ValidName(req.name.value) then
      SysOutcome(Fail(400, "invalid name"), s1, r1)
    else
      var nameChange := req.name.Some? && req.name.value != s1.name;
      var s2 := if nameChange then s1.(name := req.name.value, hostName := req.name.value) else s1;
      var s3 := if req.debugEn != -1 then s2.(debugEn := req.debugEn != 0) else s2;
      SysOutcome(StatusReply(st), s3, r1 || nameChange)
  }

  /** The system branch as intended: the request is checked whole first,
      and a rejected request changes nothing. */
  function SystemSettings(s: SysSettings, req: SysRequest, modeMax: int): (o: SysOutcome) {
    var modeOk := ModeDefault <= req.sysMode < modeMax;
    if req.name.Some? && !ValidName(req.name.value) then
      SysOutcome(Fail(400, "invalid name"), s, false)
    else if !modeOk && req.sysMode != -1 then
      SysOutcome(FromStatus(StatusError(InvalidArgument, "invalid sys_mode")), s, false)
    else
      var mode := if modeOk then req.sysMode else s.mode;
      var name := if req.name.Some? then req.name.value else s.name;
      var host := if req.name.Some? && req.name.value != s.name then req.name.value else s.hostName;
      var debug := if req.debugEn != -1 then req.debugEn != 0 else s.debugEn;
      SysOutcome(Done, SysSettings(mode, name, host, debug), mode != s.mode || name != s.name)
  }

  /** A rejected request leaves the settings alone; an accepted one sets
      every field it carries, leaves the others, and asks for a restart
      exactly when the mode or the name changed. On a valid request the
      two versions agree. */
  lemma {:induction false} SystemSettingsSpec(s: SysSettings, req: SysRequest, modeMax: int)
    ensures var o := SystemSettings(s, req, modeMax);
      && (o.reply != Done ==> o.live == s && !o.restart)
      && (o.reply == Done <==>
            (req.name.None? || ValidName(req.name.value)) && (req.sysMode == -1 || ModeDefault <= req.sysMode < modeMax))
      && (o.reply == Done ==>
            && o.live.mode == (if req.sysMode == -1 then s.mode else req.sysMode)
            && o.live.name == (if req.name.None? then s.name else req.name.value)
            && o.live.debugEn == (if req.debugEn == -1 then s.debugEn else req.debugEn != 0)
            && (o.restart <==> o.live.mode != s.mode || o.live.name != s.name))
      && (o.reply == Done ==> SystemAsWritten(s, req, modeMax).live == o.live)
  {
  }

  /** The saved settings and what a request does to them: saved only when
      the reply is a success. */
  datatype Store = Store(live: SysSettings, saved: SysSettings)

  function HandleSystemAsWritten(st: Store, req: SysRequest, modeMax: int): (Reply, Store) {
    var o := SystemAsWritten(st.live, req, modeMax);
    (o.reply, Store(o.live, if o.reply == Done then o.live else st.saved))
  }

  function HandleSystem(st: Store, req: SysRequest, modeMax: int): (Reply, Store) {
    var o := SystemSettings(st.live, req, modeMax);
    (o.reply, Store(o.live, if o.reply == Done then o.live else st.saved))
  }

  /** A request with a new mode and a bad name is rejected with 400, yet
      as written the new mode is already live; the next accepted request,
      here one that only sets debug_en, saves that mode without any
      restart. As intended the rejected request changes nothing. */
  lemma {:induction false} RejectedModeSaved()
    ensures var s := SysSettings(0, "shelly", "shelly", false);
      var st := Store(s, s);
      var bad := SysRequest(Some("bad name"), 1, -1);
      var next := SysRequest(None, -1, 1);
      var (r1, st1) := HandleSystemAsWritten(st, bad, 2);
      var (r2, st2) := HandleSystemAsWritten(st1, next, 2);
      && r1 == Fail(400, "invalid name") && st1.live.mode == 1 && st1.saved.mode == 0
      && r2 == Done && st2.saved.mode == 1 && !SystemAsWritten(st1.live, next, 2).restart
      && HandleSystem(st, bad, 2) == (Fail(400, "invalid name"), st)
  {
    assert !NameChar("bad name"[3]);
  }

  /** The component a request addresses: the first with the given id and
      type. */
  function FirstComponent(comps: seq<(int, int)>, id: int, ty: int): Option<nat>
    decreases |comps|
  {
    if |comps| == 0 then None
    else if comps[0] == (id, ty) then Some(0)
    else match FirstComponent(comps[1..], id, ty)
      case None => None
      case Some(k) => Some(k + 1)
  }

  lemma {:induction false} FirstComponentSpec(comps: seq<(int, int)>, id: int, ty: int)
    ensures var r := FirstComponent(comps, id, ty);
      && (r.None? <==> (id, ty) !in comps)
      && (r.Some? ==> (r.value < |comps| && comps[r.value] == (id, ty)
            && forall j :: 0 <= j < r.value ==> comps[j] != (id, ty)))
    decreases |comps|
  {
    if |comps| > 0 {
      FirstComponentSpec(comps[1..], id, ty);
      assert comps == [comps[0]] + comps[1..];
    }
  }

  /** The dispatch loop SetConfig and SetState share: g_comps as (id,
      type) pairs. */
  method FindComponent(comps: seq<(int, int)>, id: int, ty: int) returns (r: Option<nat>)
    ensures r == FirstComponent(comps, id, ty)
  {
    FirstComponentSpec(comps, id, ty);
    var i := 0;
    while i < |comps|
      invariant 0 <= i <= |comps|
      invariant forall j :: 0 <= j < i ==> comps[j] != (id, ty)
    {
      if comps[i].0 == id && comps[i].1 == ty {
        return Some(i);
      }
      i := i + 1;
    }
    return None;
  }

  const ComponentNotFound := StatusError(InvalidArgument, "component not found")

  /** SetStateHandler: `compResult` is the addressed component's own
      SetState result. */
  method SetStateHandler(hasState: bool, id: int, ty: int, comps: seq<(int, int)>, compResult: Status)
    returns (reply: Reply, target: Option<nat>)
    ensures !hasState ==> reply == Fail(400, "state is required") && target == None
    ensures hasState ==> target == FirstComponent(comps, id, ty)
    ensures hasState && target.None? ==> reply == FromStatus(ComponentNotFound)
    ensures hasState && target.Some? ==> reply == StatusReply(compResult)
  {
    if !hasState {
      return Fail(400, "state is required"), None;
    }
    target := FindComponent(comps, id, ty);
    if target.None? {
      return FromStatus(ComponentNotFound), target;
    }
    return StatusReply(compResult), target;
  }

  /** The event number of a request, if it is one an RPC may inject:
      single, double or long press. */
  function InjectableEvent(ev: int): Option<Input.Event> {
    if ev == 1 then Some(Input.Single)
    else if ev == 2 then Some(Input.Double)
    else if ev == 3 then Some(Input.Long)
    else None
  }

  /** InjectInputEventHandler: the input (by index into the inputs' ids)
      and the event injected, or the error reply. */
  function InjectInputEvent(id: int, ev: int, inputIds: seq<int>): Result<(nat, Input.Event), Reply> {
    if id < 0 || ev < 0 then Err(Fail(400, "id and event are required"))
    else if InjectableEvent(ev).None? then Err(Fail(400, "invalid event"))
    else match ShellyMain.FirstWithId(inputIds, id)
      case None => Err(Fail(400, "input not found"))
      case Some(k) => Ok((k, InjectableEvent(ev).value))
  }

  /** An event is injected exactly when the id is non-negative, the event
      is single, double or long and an input has that id; it goes to the
      first such input. Change and reset are never injected. */
  lemma {:induction false} InjectInputEventSpec(id: int, ev: int, inputIds: seq<int>)
    ensures var r := InjectInputEvent(id, ev, inputIds);
      && (r.Ok? <==> id >= 0 && ev in {1, 2, 3} && id in inputIds)
      && (r.Ok? ==> (r.value.0 < |inputIds| && inputIds[r.value.0] == id
            && (forall j :: 0 <= j < r.value.0 ==> inputIds[j] != id)
            && r.value.1 != Input.Change && r.value.1 != Input.Reset))
      && ((id < 0 || ev < 0) ==> r == Err(Fail(400, "id and event are required")))
  {
    ShellyMain.FirstWithIdSpec(inputIds, id);
  }

  const AuthUser := "admin"
  const AuthFileName := "passwd256"
  /** The RPC endpoint prefix, which handles its own authentication. */
  const RpcUriPrefix := "/rpc"

  /** Authentication settings: HTTP and RPC password file and domain, the
      RPC ACL (None for no ACL) and the ACL file. */
  datatype AuthCfg = AuthCfg(
    httpAuthFile: string, httpAuthDomain: string, rpcAuthFile: string, rpcAuthDomain: string,
    rpcAcl: Option<string>, rpcAclFile: Option<string>)

  /** An HTTP endpoint's URI pattern and its password file and domain. */
  datatype Endpoint = Endpoint(uri: string, authFile: Option<string>, authDomain: Option<string>)

  /** The endpoints that take the password file: all but "/" and the RPC
      prefix. */
  predicate Guarded(e: Endpoint) {
    e.uri != "/" && e.uri != RpcUriPrefix
  }

  /** An endpoint after SetAuthFileName: an empty file name removes its
      authentication. */
  function WithAuth(e: Endpoint, file: string, domain: string): Endpoint {
    if !Guarded(e) then e
    else if file == "" then e.(authFile := None, authDomain := None)
    else e.(authFile := Some(file), authDomain := Some(domain))
  }

  /** The endpoint loop of SetAuthFileName. */
  method UpdateEndpoints(eps: seq<Endpoint>, file: string, domain: string) returns (r: seq<Endpoint>)
    ensures |r| == |eps|
    ensures forall i :: 0 <= i < |eps| ==> r[i] == WithAuth(eps[i], file, domain)
    ensures forall i :: 0 <= i < |eps| ==> r[i].uri == eps[i].uri
    ensures forall i :: 0 <= i < |eps| && !Guarded(eps[i]) ==> r[i] == eps[i]
    ensures forall i :: 0 <= i < |eps| && Guarded(eps[i]) ==> (r[i].authFile.Some? <==> file != "")
  {
    r := [];
    var i := 0;
    while i < |eps|
      invariant 0 <= i <= |eps| && |r| == i
      invariant forall j :: 0 <= j < i ==> r[j] == WithAuth(eps[j], file, domain)
    {
      r := r + [WithAuth(eps[i], file, domain)];
      i := i + 1;
    }
  }

  /** The authentication state SetAuth works on: the settings, the
      password file's content (None when there is none) and the endpoints. */
  class AuthState {
    var cfg: AuthCfg
    var passwd: Option<string>
    var endpoints: seq<Endpoint>

    constructor (cfg: AuthCfg, passwd: Option<string>, endpoints: seq<Endpoint>)
      ensures this.cfg == cfg && this.passwd == passwd && this.endpoints == endpoints
    {
      this.cfg := cfg;
      this.passwd := passwd;
      this.endpoints := endpoints;
    }

    /** SetAuthFileName: both password file settings, both domains and
        the ACL are written; a failed save is reported before the
        endpoints are touched. */
    method SetAuthFileName(file: string, domain: string, aclEn: bool, defaultAcl: string, saveOk: bool)
      returns (st: Status)
      modifies this
      ensures cfg == AuthCfg(file, domain, file, domain, if aclEn then Some(defaultAcl) else None, None)
      ensures !saveOk ==> st == StatusError(Unavailable, "Failed to save config") && endpoints == old(endpoints)
      ensures saveOk ==> (st == StatusOk && |endpoints| == |old(endpoints)|
        && forall i :: 0 <= i < |endpoints| ==> endpoints[i] == WithAuth(old(endpoints)[i], file, domain))
      ensures passwd == old(passwd)
    {
      cfg := AuthCfg(file, domain, file, domain, if aclEn then Some(defaultAcl) else None, None);
      if !saveOk {
        return StatusError(Unavailable, "Failed to save config");
      }
      endpoints := UpdateEndpoints(endpoints, file, domain);
      return StatusOk;
    }

    /** SetAuthHandler: user, realm and ha1 are required and the user must
        be "admin"; an empty ha1 turns authentication off and removes the
        password file, a 64-character ha1 writes "admin:realm:ha1" to it and
        turns authentication and the ACL on, any other length is refused.
        `fileOk` says whether the password file could be opened. */
    method SetAuthHandler(user: Option<string>, realm: Option<string>, ha1: Option<string>,
                          defaultAcl: string, fileOk: bool, saveOk: bool) returns (reply: Reply)
      modifies this
      ensures user.None? ==> reply == Fail(400, "user is required")
      ensures user.Some? && realm.None? ==> reply == Fail(400, "realm is required")
      ensures user.Some? && realm.Some? && ha1.None? ==> reply == Fail(400, "ha1 is required")
      ensures (user.Some? && realm.Some? && ha1.Some? && user.value != AuthUser) ==> reply == Fail(400, "incorrect user")
      ensures (user.Some? && realm.Some? && ha1.Some? && user.value == AuthUser && |ha1.value| != 0 && |ha1.value| != 64) ==>
        reply == Fail(400, "invalid ha1")
      ensures (user.Some? && realm.Some? && ha1.Some? && user.value == AuthUser && |ha1.value| == 64 && !fileOk) ==>
        reply == Fail(500, "failed to save file")
      ensures reply.Fail? ==> cfg == old(cfg) && passwd == old(passwd) && endpoints == old(endpoints)
      ensures (user.Some? && realm.Some? && ha1.Some? && user.value == AuthUser && |ha1.value| == 0) ==>
        && cfg == AuthCfg("", "", "", "", None, None)
        && (saveOk ==> reply == Done && passwd == None)
        && (!saveOk ==> reply == FromStatus(StatusError(Unavailable, "Failed to save config")) && passwd == old(passwd))
        && (saveOk ==> (|endpoints| == |old(endpoints)|
              && forall i :: 0 <= i < |endpoints| ==> endpoints[i] == WithAuth(old(endpoints)[i], "", "")))
        && (!saveOk ==> endpoints == old(endpoints))
      ensures (user.Some? && realm.Some? && ha1.Some? && user.value == AuthUser && |ha1.value| == 64 && fileOk) ==>
        && passwd == Some(AuthUser + ":" + realm.value + ":" + ha1.value + "\n")
        && cfg == AuthCfg(AuthFileName, realm.value, AuthFileName, realm.value, Some(defaultAcl), None)
        && reply == (if saveOk then Done else FromStatus(StatusError(Unavailable, "Failed to save config")))
        && (saveOk ==> (|endpoints| == |old(endpoints)|
              && forall i :: 0 <= i < |endpoints| ==> endpoints[i] == WithAuth(old(endpoints)[i], AuthFileName, realm.value)))
        && (!saveOk ==> endpoints == old(endpoints))
    {
      if user.None? {
        return Fail(400, "user is required");
      }
      if realm.None? {
        return Fail(400, "realm is required");
      }
      if ha1.None? {
        return Fail(400, "ha1 is required");
      }
      if user.value != AuthUser {
        return Fail(400, "incorrect user");
      }
      var l := |ha1.value|;
      if l == 0 {
        var st := SetAuthFileName("", "", false, defaultAcl, saveOk);
        if st.IsOk() {
          passwd := None;
        }
        return StatusReply(st);
      } else if l != 64 {
        return Fail(400, "invalid ha1");
      }
      if !fileOk {
        return Fail(500, "failed to save file");
      }
      passwd := Some(AuthUser + ":" + realm.value + ":" + ha1.value + "\n");
      var st := SetAuthFileName(AuthFileName, realm.value, true, defaultAcl, saveOk);
      return StatusReply(st);
    }
  }

  /** The settings Shelly.SetConfig changes and what it has done: the
      live and saved system settings and the number of service restarts. */
  class ConfigService {
    var live: SysSettings
    var saved: SysSettings
    var restarts: nat

    constructor (s: SysSettings)
      ensures live == s && saved == s && restarts == 0
    {
      live, saved, restarts := s, s, 0;
    }

    /** SetConfigHandler. Without a config object the request fails;
        with id and type both -1 it sets system settings, otherwise it goes
        to the first component with that id and type, whose own SetConfig
        gives `compResult` and its restart flag. A success saves the
        configuration and restarts the service when needed. */
    method SetConfigHandler(hasConfig: bool, id: int, ty: int, req: SysRequest, modeMax: int,
                            comps: seq<(int, int)>, compResult: Status, compRestart: bool)
      returns (reply: Reply)
      modifies this
      ensures !hasConfig ==> reply == Fail(400, "config is required") && live == old(live) && saved == old(saved) && restarts == old(restarts)
      ensures (hasConfig && id == -1 && ty == -1) ==>
        var o := SystemSettings(old(live), req, modeMax);
        && reply == o.reply && live == o.live
        && saved == (if o.reply == Done then o.live else old(saved))
        && restarts == old(restarts) + (if o.reply == Done && o.restart then 1 else 0)
      ensures (hasConfig && !(id == -1 && ty == -1)) ==>
        var target := FirstComponent(comps, id, ty);
        var st := if target.None? then ComponentNotFound else compResult;
        && reply == StatusReply(st) && live == old(live)
        && saved == old(saved)
        && restarts == old(restarts) + (if st.IsOk() && target.Some? && compRestart then 1 else 0)
    {
      if !hasConfig {
        return Fail(400, "config is required");
      }
      if id == -1 && ty == -1 {
        var o := SystemSettings(live, req, modeMax);
        live := o.live;
        if o.reply == Done {
          saved := live;
          if o.restart {
            restarts := restarts + 1;
          }
        }
        return o.reply;
      }
      var target := FindComponent(comps, id, ty);
      var st := if target.None? then ComponentNotFound else compResult;
      var restart := target.Some? && compRestart;
      if st.IsOk() && restart {
        restarts := restarts + 1;
      }
      return StatusReply(st);
    }
  }
}
