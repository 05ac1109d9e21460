/** The Wi-Fi configuration manager (src/wifi_config/shelly_wifi_config_impl.cpp):
    a new station configuration is tried before it replaces the current one
    and is reverted when it fails to connect; the access point is kept up
    while no station is configured. The Wi-Fi driver is the environment:
    its answers (IP acquired, AP set up, configuration valid) are
    parameters. */
module WifiConfigImpl {
  import opened Wrappers
  import opened ShellyWifiConfig

  /** The manager's states. */
  datatype WState = WIdle | Disconnect | Disconnecting | Connect | Connecting | Connected

  /** The manager's state. `sys` is the Wi-Fi section of the system
      configuration; `runningAp` is the configuration the access point was
      last set up with. */
  datatype Mgr = Mgr(
    state: WState, lastChange: real, apRunning: bool, connectFailed: bool,
    cur: WifiConfig, pending: WifiConfig, actPending: bool,
    apConfigChanged: bool, lastApClientActive: real, sys: WifiConfig,
    runningAp: ApConfig)

  /** What the driver reports to one Process step. */
  datatype Env = Env(now: real, ipAcquired: bool, connectTimeout: int, apSetupOk: bool)

  /** The configuration in use: the pending one while it is being tried. */
  function Active(m: Mgr): WifiConfig {
    if m.actPending then m.pending else m.cur
  }

  predicate StaEnabled(c: WifiConfig) {
    c.sta.enable || c.sta1.enable
  }

  /** A default-constructed configuration: every setting empty and every
      interface disabled. It is what the pending configuration holds until
      the first SetConfig. */
  const EmptyConfig: WifiConfig :=
    WifiConfig(ApConfig(false, "", ""), StaConfig(false, "", "", "", "", "", ""),
               StaConfig(false, "", "", "", "", "", ""), 0)

  /** The pending configuration is in use only while a connection attempt
      with it is under way. */
  predicate Valid(m: Mgr) {
    m.actPending ==> m.state in {Disconnect, Disconnecting, Connect, Connecting}
  }

  /** An access point change that has not been applied yet is never
      forgotten: without a pending change the running AP has the current
      name and password. */
  predicate ApInSync(m: Mgr) {
    && (!m.apConfigChanged ==> m.runningAp.ssid == m.cur.ap.ssid && m.runningAp.pass == m.cur.ap.pass)
    && (m.actPending ==> m.pending.ap == m.cur.ap)
  }

  /** SetState at uptime `now`. */
  function SetStateF(m: Mgr, s: WState, now: real): Mgr {
    if s == m.state then m else m.(state := s, lastChange := now)
  }

  /** SaveConfig: the current configuration is copied into the system
      configuration when it differs from the defaults `d`. */
  function SaveF(m: Mgr, d: WifiConfig): Mgr {
    if m.cur != d then m.(sys := m.cur) else m
  }

  /** SetConfig's validation. The AP and station checks belong to the
      Wi-Fi library; their verdicts are the `*Err` parameters. */
  function ValidateWifi(cfg: WifiConfig, apErr: Option<string>, staErr: Option<string>, sta1Err: Option<string>): Status {
    if apErr.Some? then StatusError(InvalidArgument, "Invalid AP config: " + apErr.value)
    else if staErr.Some? then StatusError(InvalidArgument, "Invalid STA config: " + staErr.value)
    else if sta1Err.Some? then StatusError(InvalidArgument, "Invalid STA1 config: " + sta1Err.value)
    else if cfg.staPsMode < 0 || cfg.staPsMode > 2 then StatusError(InvalidArgument, "Invalid sta_ps_mode")
    else StatusOk
  }

  predicate StaChanged(m: Mgr, cfg: WifiConfig) {
    cfg.sta != m.cur.sta || cfg.sta1 != m.cur.sta1 || cfg.staPsMode != m.sys.staPsMode
  }

  /** The rest of SetConfig once `cfg` has been accepted, given the new
      value of the AP-changed flag. */
  function SetConfigRest(m: Mgr, cfg: WifiConfig, apFlag: bool, now: real): Mgr {
    var sta := StaChanged(m, cfg);
    var ap := cfg.ap != m.cur.ap;
    var m1 := m.(apConfigChanged := apFlag);
    if !sta && !ap then m1
    else
      var m2 := m1.(pending := cfg, connectFailed := false);
      var m3 := if sta then SetStateF(m2.(sys := m2.sys.(staPsMode := cfg.staPsMode), actPending := true), Disconnect, now) else m2;
      if ap then m3.(cur := m3.cur.(ap := cfg.ap)) else m3
  }

  /** SetConfig as written: the AP-changed flag is overwritten with whether
      this request changes the AP. */
  function SetConfigAsWritten(m: Mgr, cfg: WifiConfig, now: real): Mgr {
    SetConfigRest(m, cfg, cfg.ap != m.cur.ap, now)
  }

  /** SetConfig as intended: a change still waiting to be applied stays
      pending. */
  function SetConfigF(m: Mgr, cfg: WifiConfig, now: real): Mgr {
    SetConfigRest(m, cfg, m.apConfigChanged || cfg.ap != m.cur.ap, now)
  }

  /** Repeating a SetConfig while its AP change is still waiting (here:
      within the first 10 s of uptime with a station configured) cancels
      the AP update as written: the access point keeps its old name
      although the current configuration has the new one. */
  lemma {:induction false} RepeatedSetConfigLosesApChange(m: Mgr, cfg: WifiConfig, now: real)
    requires ApInSync(m) && !m.apConfigChanged
    requires cfg.ap.ssid != m.cur.ap.ssid && cfg.sta == m.cur.sta && cfg.sta1 == m.cur.sta1
    requires cfg.staPsMode == m.sys.staPsMode
    ensures var m1 := SetConfigAsWritten(m, cfg, now);
      m1.apConfigChanged && m1.cur.ap == cfg.ap
    ensures var m2 := SetConfigAsWritten(SetConfigAsWritten(m, cfg, now), cfg, now);
      !m2.apConfigChanged && m2.cur.ap == cfg.ap && m2.runningAp.ssid != m2.cur.ap.ssid && !ApInSync(m2)
    ensures ApInSync(SetConfigF(SetConfigF(m, cfg, now), cfg, now))
  {
    var m1 := SetConfigAsWritten(m, cfg, now);
    assert m1.cur.sta == m.cur.sta && m1.cur.sta1 == m.cur.sta1 && m1.sys == m.sys;
    assert m1.cur.ap == cfg.ap && m1.runningAp == m.runningAp;
    var c1 := SetConfigF(m, cfg, now);
    assert c1.apConfigChanged;
  }

  /** SetConfig as intended keeps both invariants. */
  lemma {:induction false} SetConfigKeepsValid(m: Mgr, cfg: WifiConfig, now: real)
    requires Valid(m) && ApInSync(m)
    ensures Valid(SetConfigF(m, cfg, now)) && ApInSync(SetConfigF(m, cfg, now))
  {
  }

  /** An accepted request that changes nothing leaves the manager as it
      was; a station change makes the new configuration active and starts
      over from Disconnect; an AP change is copied into the current
      configuration at once. */
  lemma {:induction false} SetConfigSpec(m: Mgr, cfg: WifiConfig, now: real)
    ensures !StaChanged(m, cfg) && cfg.ap == m.cur.ap ==> SetConfigF(m, cfg, now) == m
    ensures StaChanged(m, cfg) ==>
      var r := SetConfigF(m, cfg, now);
      r.actPending && r.pending == cfg && Active(r) == cfg && r.state == Disconnect && !r.connectFailed
    ensures cfg.ap != m.cur.ap ==>
      var r := SetConfigF(m, cfg, now);
      r.cur.ap == cfg.ap && r.apConfigChanged && r.cur.sta == m.cur.sta && r.cur.sta1 == m.cur.sta1
  {
  }

  /** ResetConfig: disables both stations and, when neither was enabled,
      also restores the default AP name and password (`apSsid` is the
      default name with the MAC address filled in). As written, a
      connection attempt with a pending configuration stays under way. */
  function ResetAsWritten(m: Mgr, d: WifiConfig, apSsid: string, now: real): Mgr {
    var resetAp := !StaEnabled(m.cur);
    var c := m.cur.(sta := m.cur.sta.(enable := false), sta1 := m.cur.sta1.(enable := false));
    var c2 := if resetAp then c.(ap := c.ap.(ssid := apSsid, pass := d.ap.pass)) else c;
    var m1 := m.(cur := c2, apConfigChanged := m.apConfigChanged || resetAp);
    SetStateF(SaveF(m1, d), Disconnect, now)
  }

  /** ResetConfig as intended: the reset configuration becomes the one in
      use, ending any attempt with a pending configuration. */
  function ResetF(m: Mgr, d: WifiConfig, apSsid: string, now: real): Mgr {
    ResetAsWritten(m.(actPending := false), d, apSsid, now)
  }

  /** On a freshly started manager (pending configuration still empty) a
      reset reports "Disconnecting", not "Connecting". */
  lemma FreshResetDisconnects(sys: WifiConfig, apRunning: bool, d: WifiConfig, apSsid: string, now: real)
    ensures var m := Mgr(WIdle, 0.0, apRunning, false, sys, EmptyConfig, false, false, 0.0, sys, sys.ap.(enable := apRunning));
      BaseStatus(ResetF(m, d, apSsid, now)) == "Disconnecting"
  {
  }

  /** A reset during a connection attempt with a pending configuration
      that enables a station leaves that configuration in use as written,
      so the next Connect step reconnects with it and commits it, undoing
      the reset. */
  lemma {:induction false} ResetDuringAttemptUndone(m: Mgr, d: WifiConfig, apSsid: string, now: real, env: Env)
    requires m.actPending && StaEnabled(m.pending)
    ensures var r := ResetAsWritten(m, d, apSsid, now);
      && r.state == Disconnect && StaEnabled(Active(r))
      && ConnectStep(r.(state := Connect), env.now).state == Connecting
      && ConnectingStep(r.(state := Connecting), d, env.(ipAcquired := true)).cur == m.pending
    ensures !StaEnabled(Active(ResetF(m, d, apSsid, now)))
  {
  }

  lemma {:induction false} ResetSpec(m: Mgr, d: WifiConfig, apSsid: string, now: real)
    requires Valid(m) && ApInSync(m)
    ensures var r := ResetF(m, d, apSsid, now);
      && !StaEnabled(r.cur) && !StaEnabled(Active(r)) && r.state == Disconnect
      && (StaEnabled(m.cur) ==> r.cur.ap == m.cur.ap)
      && (!StaEnabled(m.cur) ==> r.cur.ap.ssid == apSsid && r.cur.ap.pass == d.ap.pass && r.apConfigChanged)
      && Valid(r) && ApInSync(r)
  {
  }

  /** Whether the access point should be up: when configured so, and always
      when no station is enabled. */
  function WantAp(m: Mgr): bool {
    m.cur.ap.enable || !StaEnabled(m.cur)
  }

  /** CheckAPEnabled. */
  function CheckApF(m: Mgr, d: WifiConfig, now: real, setupOk: bool): Mgr {
    var want := WantAp(m);
    if want == m.apRunning && !m.apConfigChanged then m
    else if StaEnabled(m.cur) && now < 10.0 then m
    else if !want && m.lastApClientActive > 0.0 && now - m.lastApClientActive < 60.0 then m
    else if setupOk then
      SaveF(m.(apConfigChanged := false, apRunning := want, runningAp := m.cur.ap.(enable := want)), d)
    else m
  }

  /** The AP is brought up whenever no station is enabled (once the driver
      accepts), and is never taken down within 60 s of client activity on
      it. */
  lemma {:induction false} CheckApSpec(m: Mgr, d: WifiConfig, now: real, setupOk: bool)
    ensures !StaEnabled(m.cur) && setupOk ==> CheckApF(m, d, now, setupOk).apRunning
    ensures m.apRunning && m.lastApClientActive > 0.0 && now - m.lastApClientActive < 60.0 ==>
      CheckApF(m, d, now, setupOk).apRunning
    ensures Valid(m) ==> Valid(CheckApF(m, d, now, setupOk))
    ensures ApInSync(m) ==> ApInSync(CheckApF(m, d, now, setupOk))
  {
  }

  /** The Connect step: with no station enabled the pending configuration
      is committed and the manager goes idle. */
  function ConnectStep(m: Mgr, now: real): Mgr {
    if StaEnabled(Active(m)) then SetStateF(m, Connecting, now)
    else
      var m1 := if m.actPending then m.(cur := m.pending, actPending := false) else m;
      SetStateF(m1, WIdle, now)
  }

  /** The Connecting step: an acquired IP commits and saves the pending
      configuration; a timeout of twice the connect timeout marks the
      attempt failed and reverts to the current configuration. */
  function ConnectingStep(m: Mgr, d: WifiConfig, env: Env): Mgr {
    if env.ipAcquired then
      var m1 := if m.actPending then SaveF(m.(cur := m.pending, actPending := false), d) else m;
      SetStateF(m1, Connected, env.now)
    else if env.now - m.lastChange > (2 * env.connectTimeout) as real then
      SetStateF(m.(connectFailed := true, actPending := false), Disconnect, env.now)
    else m
  }

  /** One run of Process. */
  function ProcessF(m: Mgr, d: WifiConfig, env: Env): Mgr {
    match m.state
    case WIdle => if env.ipAcquired then SetStateF(m, Connected, env.now) else CheckApF(m, d, env.now, env.apSetupOk)
    case Disconnect => if env.now - m.lastChange < 1.0 then m else SetStateF(m, Disconnecting, env.now)
    case Disconnecting => if env.now - m.lastChange < 1.0 then m else SetStateF(m, Connect, env.now)
    case Connect => ConnectStep(m, env.now)
    case Connecting => ConnectingStep(m, d, env)
    case Connected => if !env.ipAcquired then SetStateF(m, WIdle, env.now) else CheckApF(m, d, env.now, env.apSetupOk)
  }

  /** Process keeps both invariants. */
  lemma {:induction false} ProcessKeepsValid(m: Mgr, d: WifiConfig, env: Env)
    requires Valid(m) && ApInSync(m)
    ensures Valid(ProcessF(m, d, env)) && ApInSync(ProcessF(m, d, env))
  {
    match m.state
    case WIdle => CheckApSpec(m, d, env.now, env.apSetupOk);
    case Connected => CheckApSpec(m, d, env.now, env.apSetupOk);
    case Disconnect =>
    case Disconnecting =>
    case Connect =>
    case Connecting =>
  }

  /** A successful connection commits the configuration being tried; a
      failed one reverts to the current configuration and retries it;
      without any station the pending configuration is committed at once. */
  lemma {:induction false} ProcessSpec(m: Mgr, d: WifiConfig, env: Env)
    ensures m.state == Connecting && env.ipAcquired ==>
      var r := ProcessF(m, d, env);
      r.state == Connected && r.cur == Active(m) && !r.actPending
    ensures m.state == Connecting && !env.ipAcquired && env.now - m.lastChange > (2 * env.connectTimeout) as real ==>
      var r := ProcessF(m, d, env);
      r.connectFailed && r.state == Disconnect && Active(r) == m.cur
    ensures m.state == Connect && !StaEnabled(Active(m)) ==>
      var r := ProcessF(m, d, env);
      r.state == WIdle && r.cur == Active(m) && !r.actPending
    ensures m.state == Connect && StaEnabled(Active(m)) ==>
      ProcessF(m, d, env) == m.(state := Connecting, lastChange := env.now)
  {
  }

  /** WifiEvent: the driver starting a connection on its own (at boot)
      moves to Connecting unless a disconnect is due. */
  function WifiEventF(m: Mgr, staConnecting: bool, now: real): Mgr {
    if staConnecting && m.state != Disconnect then SetStateF(m, Connecting, now) else m
  }

  lemma {:induction false} WifiEventKeepsValid(m: Mgr, staConnecting: bool, now: real)
    requires Valid(m) && ApInSync(m)
    ensures Valid(WifiEventF(m, staConnecting, now)) && ApInSync(WifiEventF(m, staConnecting, now))
    ensures m.state == Disconnect ==> WifiEventF(m, staConnecting, now) == m
  {
  }

  /** What GetInfo reports (the signal strength, SSID and IP come from the
      driver and are not modelled). */
  datatype WifiInfo = WifiInfo(apRunning: bool, staConnecting: bool, staConnected: bool, status: string)

  function BaseStatus(m: Mgr): string {
    match m.state
    case WIdle => "Not connected"
    case Disconnect => if StaEnabled(m.pending) then "Connecting" else "Disconnecting"
    case Disconnecting => if StaEnabled(m.pending) then "Connecting" else "Disconnecting"
    case Connect => "Connecting"
    case Connecting => "Connecting"
    case Connected => "Connected"
  }

  function InfoF(m: Mgr): WifiInfo {
    var s := BaseStatus(m) + (if m.connectFailed then " (reverted)" else "")
                           + (if m.apRunning then ", AP active" else "");
    WifiInfo(m.apRunning, m.state in {Connect, Connecting}, m.state == Connected, s)
  }

  /** The status starts with the state's description, then says whether
      the last attempt was reverted and whether the AP is up. */
  lemma {:induction false} InfoSpec(m: Mgr)
    ensures var i := InfoF(m);
      && i.status == BaseStatus(m) + (if m.connectFailed then " (reverted)" else "") + (if m.apRunning then ", AP active" else "")
      && (i.staConnected <==> m.state == Connected)
      && (i.staConnecting <==> m.state == Connect || m.state == Connecting)
    ensures m.state == Connected && !m.connectFailed && !m.apRunning ==> InfoF(m).status == "Connected"
    ensures m.state == WIdle && m.connectFailed && m.apRunning ==>
      InfoF(m).status == "Not connected" + " (reverted)" + ", AP active"
  {
  }

  /** ReportClientRequest: a client whose address starts with the AP's
      address up to its last character counts as AP activity. */
  function ReportClientF(m: Mgr, clientAddr: string, apIp: string, now: real): Mgr
    requires |apIp| >= 1
  {
    var prefix := apIp[..|apIp| - 1];
    if |clientAddr| >= |prefix| && clientAddr[..|prefix|] == prefix then m.(lastApClientActive := now) else m
  }

  class WifiConfigManager {
    /** The default Wi-Fi configuration, and the default AP name with the
        MAC address filled in. */
    const defaults: WifiConfig
    const defaultApSsid: string
    var state: WState
    var lastChange: real
    var apRunning: bool
    var connectFailed: bool
    var cur: WifiConfig
    var pending: WifiConfig
    var actPending: bool
    var apConfigChanged: bool
    var lastApClientActive: real
    var sys: WifiConfig
    var runningAp: ApConfig

    function Snap(): Mgr
      reads this
    {
      Mgr(state, lastChange, apRunning, connectFailed, cur, pending, actPending,
          apConfigChanged, lastApClientActive, sys, runningAp)
    }

    /** The constructor: the current configuration is read from the system
      configuration, the pending one is empty with both stations disabled,
      and the AP is running as configured. */
    constructor (sys: WifiConfig, apRunning: bool, defaults: WifiConfig, defaultApSsid: string)
      ensures Snap() == Mgr(WIdle, 0.0, apRunning, false, sys, EmptyConfig, false, false, 0.0, sys, sys.ap.(enable := apRunning))
      ensures Valid(Snap()) && ApInSync(Snap()) && !StaEnabled(Snap().pending) && Active(Snap()) == sys
      ensures this.defaults == defaults && this.defaultApSsid == defaultApSsid
    {
      this.defaults := defaults;
      this.defaultApSsid := defaultApSsid;
      state, lastChange := WIdle, 0.0;
      this.apRunning := apRunning;
      connectFailed := false;
      cur, pending, actPending := sys, EmptyConfig, false;
      apConfigChanged, lastApClientActive := false, 0.0;
      this.sys := sys;
      runningAp := sys.ap.(enable := apRunning);
    }

    method SetState(s: WState, now: real)
      modifies this
      ensures Snap() == SetStateF(old(Snap()), s, now)
    {
      if s == state {
        return;
      }
      state := s;
      lastChange := now;
    }

    method SaveConfig()
      modifies this
      ensures Snap() == SaveF(old(Snap()), defaults)
    {
      if cur != defaults {
        sys := cur;
      }
    }

    /** SetConfig: nothing changes unless the whole request is valid. */
    method SetConfig(cfg: WifiConfig, apErr: Option<string>, staErr: Option<string>, sta1Err: Option<string>, now: real)
      returns (st: Status)
      modifies this
      ensures st == ValidateWifi(cfg, apErr, staErr, sta1Err)
      ensures !st.IsOk() ==> Snap() == old(Snap())
      ensures st.IsOk() ==> Snap() == SetConfigF(old(Snap()), cfg, now)
    {
      st := ValidateWifi(cfg, apErr, staErr, sta1Err);
      if !st.IsOk() {
        return;
      }
      var staChanged := cfg.sta != cur.sta || cfg.sta1 != cur.sta1 || cfg.staPsMode != sys.staPsMode;
      var apChanged := cfg.ap != cur.ap;
      apConfigChanged := apConfigChanged || apChanged;
      if !staChanged && !apChanged {
        return;
      }
      pending := cfg;
      connectFailed := false;
      if staChanged {
        sys := sys.(staPsMode := pending.staPsMode);
        actPending := true;
        SetState(Disconnect, now);
      }
      if apChanged {
        cur := cur.(ap := pending.ap);
      }
    }

    /** GetConfig: the configuration in use. */
    method GetConfig() returns (c: WifiConfig)
      ensures c == Active(Snap())
    {
      if actPending {
        return pending;
      }
      return cur;
    }

    method ResetConfig(now: real)
      modifies this
      ensures Snap() == ResetF(old(Snap()), defaults, defaultApSsid, now)
    {
      actPending := false;
      var resetAp := !(cur.sta.enable || cur.sta1.enable);
      var c := cur.(sta := cur.sta.(enable := false), sta1 := cur.sta1.(enable := false));
      if resetAp {
        c := c.(ap := c.ap.(ssid := defaultApSsid, pass := defaults.ap.pass));
      }
      cur := c;
      apConfigChanged := apConfigChanged || resetAp;
      SaveConfig();
      SetState(Disconnect, now);
    }

    method GetInfo() returns (info: WifiInfo)
      ensures info == InfoF(Snap())
    {
      var status: string;
      var connecting, connected := false, false;
      match state {
        case WIdle => status := "Not connected";
        case Disconnect =>
          status := if pending.sta.enable || pending.sta1.enable then "Connecting" else "Disconnecting";
        case Disconnecting =>
          status := if pending.sta.enable || pending.sta1.enable then "Connecting" else "Disconnecting";
        case Connect =>
          connecting := true;
          status := "Connecting";
        case Connecting =>
          connecting := true;
          status := "Connecting";
        case Connected =>
          status := "Connected";
          connected := true;
      }
      if connectFailed {
        status := status + " (reverted)";
      }
      if apRunning {
        status := status + ", AP active";
      }
      return WifiInfo(apRunning, connecting, connected, status);
    }

    method ReportClientRequest(clientAddr: string, apIp: string, now: real)
      requires |apIp| >= 1
      modifies this
      ensures Snap() == ReportClientF(old(Snap()), clientAddr, apIp, now)
    {
      var prefix := apIp[..|apIp| - 1];
      if |clientAddr| >= |prefix| && clientAddr[..|prefix|] == prefix {
        lastApClientActive := now;
      }
    }

    method CheckAPEnabled(now: real, setupOk: bool)
      modifies this
      ensures Snap() == CheckApF(old(Snap()), defaults, now, setupOk)
    {
      var want := cur.ap.enable || !(cur.sta.enable || cur.sta1.enable);
      if want == apRunning && !apConfigChanged {
        return;
      }
      if (cur.sta.enable || cur.sta1.enable) && now < 10.0 {
        return;
      }
      if !want && lastApClientActive > 0.0 && now - lastApClientActive < 60.0 {
        return;
      }
      if setupOk {
        apConfigChanged := false;
        apRunning := want;
        runningAp := cur.ap.(enable := want);
        SaveConfig();
      }
    }

    method Process(env: Env)
      modifies this
      ensures Snap() == ProcessF(old(Snap()), defaults, env)
    {
      match state {
        case WIdle =>
          if env.ipAcquired {
            SetState(Connected, env.now);
          } else {
            CheckAPEnabled(env.now, env.apSetupOk);
          }
        case Disconnect =>
          if env.now - lastChange >= 1.0 {
            SetState(Disconnecting, env.now);
          }
        case Disconnecting =>
          if env.now - lastChange >= 1.0 {
            SetState(Connect, env.now);
          }
        case Connect =>
          var act := if actPending then pending else cur;
          if act.sta.enable || act.sta1.enable {
            SetState(Connecting, env.now);
          } else {
            if actPending {
              cur := pending;
              actPending := false;
            }
            SetState(WIdle, env.now);
          }
        case Connecting =>
          if env.ipAcquired {
            if actPending {
              cur := pending;
              actPending := false;
              SaveConfig();
            }
            SetState(Connected, env.now);
          } else if env.now - lastChange > (2 * env.connectTimeout) as real {
            connectFailed := true;
            actPending := false;
            SetState(Disconnect, env.now);
          }
        case Connected =>
          if !env.ipAcquired {
            SetState(WIdle, env.now);
          } else {
            CheckAPEnabled(env.now, env.apSetupOk);
          }
      }
    }

    method WifiEvent(staConnecting: bool, now: real)
      modifies this
      ensures Snap() == WifiEventF(old(Snap()), staConnecting, now)
    {
      if staConnecting && state != Disconnect {
        SetState(Connecting, now);
      }
    }
  }
}
