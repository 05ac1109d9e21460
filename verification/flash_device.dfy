/**
 * The per-device state of the firmware flasher and the decisions that set
 * it: which firmware a device is flashed to and from where
 * (update_homekit, update_stock, parse_local_file), how long it is watched
 * while it reboots (wait_for_reboot) and how a flash is counted
 * (write_flash). The network, the zip file and the regular expression
 * engine are parameters.
 */
module FlashDevice {
  import opened Wrappers
  import opened Text
  import opened FlashTool

  /** Port of the flasher's own HTTP server, which serves local files. */
  const WebserverPort := "8381"

  /** Python truthiness of an optional string: present and not empty. */
  predicate Truthy(o: Option<string>) { o.Some? && o.value != "" }

  /** What an f-string prints for an optional value. */
  function Shown(o: Option<string>): string {
    match o case Some(v) => v case None => "None"
  }

  /** `d.get(key, default)` for an optional string field. */
  function GetOr(o: Option<string>, default: string): string {
    match o case Some(v) => v case None => default
  }

  /** The exceptions the flasher lets escape from these methods. */
  datatype Raised = TypeError | AttributeError

  /** The fields of the device's info dictionary that these methods read. */
  datatype DeviceInfo = DeviceInfo(
    fwType: Option<string>,
    model: Option<string>,
    stockFwModel: Option<string>,
    colorMode: Option<string>,
    app: Option<string>)

  /** `requires_upgrade`: None, True, False or 'Done'. */
  datatype UpgradeFlag = Unset | Required | NotRequired | UpgradeDone

  /** The module globals the flasher updates while it works through devices. */
  class Session {
    var flashedDevices: int
    var failedFlashedDevices: int
    var requiresUpgrade: UpgradeFlag
    var notSupported: bool

    constructor ()
      ensures flashedDevices == 0 && failedFlashedDevices == 0
      ensures requiresUpgrade == Unset && !notSupported
    {
      flashedDevices := 0;
      failedFlashedDevices := 0;
      requiresUpgrade := Unset;
      notSupported := false;
    }
  }

  // -----------------------------------------------------------------------
  // HomeKit release selection
  // -----------------------------------------------------------------------

  /** One entry of the HomeKit release list: the pattern matched against the
      current version, the release's version and its download URL per model. */
  datatype ReleaseEntry = ReleaseEntry(pattern: string, version: Option<string>, urls: map<string, string>)

  function EntryVersion(e: ReleaseEntry): string { GetOr(e.version, "0.0.0") }

  function EntryUrl(e: ReleaseEntry, model: Option<string>): Option<string> {
    if model.Some? && model.value in e.urls then Some(e.urls[model.value]) else None
  }

  /** Outcome of the walk over the release list. */
  datatype Selection = Chosen(version: string, url: Option<string>) | NoVariant | NoneMatched

  /** The release update_homekit settles on. `search(p, t)` says whether the
      regular expression `p` matches somewhere in `t`; with a variant the
      pattern is '-*', which matches every text. */
  function SelectHomekit(entries: seq<ReleaseEntry>, variant: Option<string>, fwVersion: string,
                         model: Option<string>, search: (string, string) -> bool): (r: Selection)
    ensures entries == [] ==> r == NoneMatched
    ensures r.Chosen? ==> exists k :: 0 <= k < |entries| && r == Chosen(EntryVersion(entries[k]), EntryUrl(entries[k], model))
  {
    if entries == [] then NoneMatched
    else if Truthy(variant) && !Contains(EntryVersion(entries[0]), variant.value) then NoVariant
    else if Truthy(variant) || search(entries[0].pattern, fwVersion) then
      Chosen(EntryVersion(entries[0]), EntryUrl(entries[0], model))
    else
      var r := SelectHomekit(entries[1..], variant, fwVersion, model, search);
      assert r.Chosen? ==> exists k :: 0 <= k < |entries| && r == Chosen(EntryVersion(entries[k]), EntryUrl(entries[k], model)) by {
        if r.Chosen? {
          var k :| 0 <= k < |entries[1..]| && r == Chosen(EntryVersion(entries[1..][k]), EntryUrl(entries[1..][k], model));
          assert entries[1..][k] == entries[k + 1];
        }
      }
      r
  }

  /** With a variant only the first entry is looked at: it is chosen when its
      version names the variant, and otherwise the answer is 'no_variant'. */
  lemma {:induction false} SelectWithVariant(entries: seq<ReleaseEntry>, variant: Option<string>, fwVersion: string,
                          model: Option<string>, search: (string, string) -> bool)
    requires Truthy(variant) && entries != []
    ensures SelectHomekit(entries, variant, fwVersion, model, search) ==
      if Contains(EntryVersion(entries[0]), variant.value)
      then Chosen(EntryVersion(entries[0]), EntryUrl(entries[0], model))
      else NoVariant
  {
  }

  /** Without a variant the first entry whose pattern matches is chosen. */
  lemma {:induction false} SelectFirstMatch(entries: seq<ReleaseEntry>, variant: Option<string>, fwVersion: string,
                                            model: Option<string>, search: (string, string) -> bool, k: nat)
    requires !Truthy(variant) && k < |entries| && search(entries[k].pattern, fwVersion)
    requires forall j :: 0 <= j < k ==> !search(entries[j].pattern, fwVersion)
    ensures SelectHomekit(entries, variant, fwVersion, model, search) ==
      Chosen(EntryVersion(entries[k]), EntryUrl(entries[k], model))
    decreases k
  {
    if k > 0 {
      assert !search(entries[0].pattern, fwVersion);
      forall j | 0 <= j < k - 1 ensures !search(entries[1..][j].pattern, fwVersion) {
        assert entries[1..][j] == entries[j + 1];
      }
      SelectFirstMatch(entries[1..], variant, fwVersion, model, search, k - 1);
    }
  }

  /** Without a variant nothing is chosen exactly when no pattern matches. */
  lemma {:induction false} SelectNoneMatched(entries: seq<ReleaseEntry>, variant: Option<string>, fwVersion: string,
                                             model: Option<string>, search: (string, string) -> bool)
    requires !Truthy(variant)
    ensures SelectHomekit(entries, variant, fwVersion, model, search) == NoneMatched <==>
      forall j :: 0 <= j < |entries| ==> !search(entries[j].pattern, fwVersion)
    decreases |entries|
  {
    if entries != [] {
      SelectNoneMatched(entries[1..], variant, fwVersion, model, search);
      if forall j :: 0 <= j < |entries[1..]| ==> !search(entries[1..][j].pattern, fwVersion) {
        forall j | 0 <= j < |entries| ensures !search(entries[j].pattern, fwVersion) || j == 0 {
          if j > 0 { assert entries[j] == entries[1..][j - 1]; }
        }
      } else {
        var j :| 0 <= j < |entries[1..]| && search(entries[1..][j].pattern, fwVersion);
        assert search(entries[j + 1].pattern, fwVersion);
      }
    }
  }

  // -----------------------------------------------------------------------
  // Stock release selection
  // -----------------------------------------------------------------------

  /** One model's entry in the stock release list. */
  datatype StockModelInfo = StockModelInfo(version: Option<string>, url: Option<string>,
                                           betaVer: Option<string>, betaUrl: Option<string>)

  function HomekitArchiveUrl(version: string, model: Option<string>): string {
    "http://rojer.me/files/shelly/" + version + "/shelly-homekit-" + Shown(model) + ".zip"
  }

  function RevertUrl(stockModel: Option<string>): string {
    "http://rojer.me/files/shelly/stock/" + Shown(stockModel) + ".zip"
  }

  function StockArchiveUrl(version: string, stockModel: Option<string>): string {
    "http://archive.shelly-tools.de/version/v" + version + "/" + Shown(stockModel) + ".zip"
  }

  /** The RGBW2 in colour mode is listed under the plain stock model. */
  function StockListModel(stockModel: Option<string>): Option<string> {
    if stockModel == Some("SHRGBW2-color") then Some("SHRGBW2") else stockModel
  }

  /** The stock firmware version and URL update_stock settles on, or the
      exception it raises when the model has no entry in the list. */
  function StockTarget(version: Option<string>, variant: Option<string>, stockModel: Option<string>,
                       colorMode: Option<string>, localFile: Option<string>,
                       releaseInfo: Option<map<string, StockModelInfo>>): (r: Result<(string, Option<string>), Raised>)
    ensures r.Err? <==> !Truthy(version) && (releaseInfo.None? || StockListModel(stockModel).None?
                                           || StockListModel(stockModel).value !in releaseInfo.value)
    ensures Truthy(version) ==> r == Ok((version.value, Some(StockArchiveUrl(version.value, stockModel))))
    ensures r.Ok? && !Truthy(version) ==> r.value.0 == "0.0.0" || IsStockVersionText(r.value.0)
  {
    if Truthy(version) then Ok((version.value, Some(StockArchiveUrl(version.value, stockModel))))
    else
      var model := StockListModel(stockModel);
      if releaseInfo.None? || model.None? || model.value !in releaseInfo.value then Err(AttributeError)
      else
        var info := releaseInfo.value[model.value];
        var (v, url) := if variant == Some("beta") then (ParseStockVersion(GetOr(info.betaVer, "0.0.0")), info.betaUrl)
                        else (ParseStockVersion(GetOr(info.version, "0.0.0")), info.url);
        if model == Some("SHRGBW2") && Truthy(url) && Truthy(colorMode) && !Truthy(localFile) then
          Ok((v, Some(ReplaceAll(url.value, ".zip", "-" + colorMode.value + ".zip"))))
        else Ok((v, url))
  }

  /** A URL ending in '.zip' and holding no other '.zip' gets the colour mode
      put in front of the extension. */
  lemma {:induction false} ColorModeUrl(base: string, color: string)
    requires !Contains(base, ".zip")
    ensures ReplaceAll(base + ".zip", ".zip", "-" + color + ".zip") == base + "-" + color + ".zip"
  {
    var s := base + ".zip";
    forall i | 0 <= i < |base| ensures !OccursAt(s, ".zip", i) {
      if i + 4 <= |base| {
        assert s[i..i + 4] == base[i..i + 4];
        assert !OccursAt(base, ".zip", i);
      } else {
        assert s[|base|] == '.';
        assert s[i..i + 4][|base| - i] == s[|base|];
      }
    }
    ReplaceLast(base, ".zip", "-" + color + ".zip");
  }

  /** An RGBW2 in a colour mode is offered the colour's own stock image. */
  lemma {:induction false} StockColorTarget(stockModel: Option<string>, color: string, base: string,
                         releaseInfo: map<string, StockModelInfo>, variant: Option<string>)
    requires stockModel == Some("SHRGBW2") || stockModel == Some("SHRGBW2-color")
    requires color != "" && variant != Some("beta") && !Contains(base, ".zip")
    requires "SHRGBW2" in releaseInfo && releaseInfo["SHRGBW2"].url == Some(base + ".zip")
    ensures StockTarget(None, variant, stockModel, Some(color), None, Some(releaseInfo)).Ok?
    ensures StockTarget(None, variant, stockModel, Some(color), None, Some(releaseInfo)).value.1
            == Some(base + "-" + color + ".zip")
  {
    ColorModeUrl(base, color);
  }

  // -----------------------------------------------------------------------
  // Local firmware file
  // -----------------------------------------------------------------------

  /** What the flasher reads from the manifest.json inside a local zip file. */
  datatype Manifest = Manifest(version: Option<string>, name: Option<string>, buildId: Option<string>)

  /** RGBW2 names are compared up to their first '-'. */
  function ComparedName(name: string): (r: string)
    ensures (r <= name && '-' !in r) || r == name
    ensures !Contains(name, "rgbw2") ==> r == name
  {
    if Contains(name, "rgbw2") then BeforeFirst(name, '-') else name
  }

  /** The name the device's own firmware goes by: the app, with the colour
      mode appended for a stock RGBW2 that reports one. */
  function DeviceModelName(info: DeviceInfo): Option<string> {
    if info.fwType == Some("stock") && info.stockFwModel == Some("SHRGBW2") && Truthy(info.colorMode)
    then Some(Shown(info.app) + "-" + info.colorMode.value)
    else info.app
  }

  /** The version a manifest announces and the kind of firmware it is:
      version '1.0' marks a stock image, whose version is in its build id. */
  function ManifestTarget(m: Manifest): (r: (string, string))
    ensures r.1 == "Stock" ==> r.0 == "0.0.0" || IsStockVersionText(r.0)
    ensures r.1 == "HomeKit" <==> GetOr(m.version, "0.0.0") != "1.0"
  {
    var v := GetOr(m.version, "0.0.0");
    if v == "1.0" then (ParseStockVersion(GetOr(m.buildId, "0.0.0")), "Stock") else (v, "HomeKit")
  }

  // -----------------------------------------------------------------------
  // The device
  // -----------------------------------------------------------------------

  class Device {
    var info: DeviceInfo
    var variant: Option<string>
    var version: Option<string>
    var localFile: Option<string>
    var fwVersion: string
    var flashFwVersion: string
    var flashFwTypeStr: Option<string>
    var downloadUrl: Option<string>
    var alreadyProcessed: bool

    constructor (info: DeviceInfo, variant: Option<string>, version: Option<string>,
                 localFile: Option<string>, fwVersion: string)
      ensures this.info == info && this.variant == variant && this.version == version
      ensures this.localFile == localFile && this.fwVersion == fwVersion
      ensures flashFwVersion == "0.0.0" && flashFwTypeStr.None? && downloadUrl.None? && !alreadyProcessed
    {
      this.info := info;
      this.variant := variant;
      this.version := version;
      this.localFile := localFile;
      this.fwVersion := fwVersion;
      flashFwVersion := "0.0.0";
      flashFwTypeStr := None;
      downloadUrl := None;
      alreadyProcessed := false;
    }

    predicate IsHomekit() reads this { info.fwType == Some("homekit") }

    predicate IsStock() reads this { info.fwType == Some("stock") }

    /** After a manifest naming `manifestName` was read: the announced
        version and where it is served from when the names agree, '0.0.0'
        and no URL when they differ. */
    predicate LocalTargetSet(v: string, localIp: string, manifestName: string)
      reads this
      requires localFile.Some? && DeviceModelName(info).Some?
    {
      if ComparedName(DeviceModelName(info).value) == ComparedName(manifestName)
      then flashFwVersion == v
           && downloadUrl == Some(if IsHomekit() then "local"
                                  else "http://" + localIp + ":" + WebserverPort + "/" + localFile.value)
      else flashFwVersion == "0.0.0" && downloadUrl.None?
    }

    /** Chooses the HomeKit firmware: a pinned version, the stock image to
        revert to when there is no release list, or the release the list
        selects. The not-supported flag is raised whenever the list is walked
        to a choice or to its end. */
    method UpdateHomekit(releaseInfo: Option<seq<ReleaseEntry>>, session: Session, search: (string, string) -> bool)
      modifies this`flashFwTypeStr, this`flashFwVersion, this`downloadUrl, session`notSupported
      ensures flashFwTypeStr == Some("HomeKit")
      ensures Truthy(version) ==>
        flashFwVersion == version.value && downloadUrl == Some(HomekitArchiveUrl(version.value, info.model))
        && session.notSupported == old(session.notSupported)
      ensures !Truthy(version) && releaseInfo.None? ==>
        flashFwVersion == "revert" && downloadUrl == Some(RevertUrl(info.stockFwModel))
        && session.notSupported == old(session.notSupported)
      ensures !Truthy(version) && releaseInfo.Some? ==>
        match SelectHomekit(releaseInfo.value, variant, fwVersion, info.model, search)
        case Chosen(v, u) => flashFwVersion == v && downloadUrl == u && session.notSupported
        case NoVariant => flashFwVersion == "no_variant" && downloadUrl.None?
                          && session.notSupported == old(session.notSupported)
        case NoneMatched => flashFwVersion == old(flashFwVersion) && downloadUrl == old(downloadUrl)
                            && session.notSupported
    {
      flashFwTypeStr := Some("HomeKit");
      if Truthy(version) {
        flashFwVersion := version.value;
        downloadUrl := Some(HomekitArchiveUrl(version.value, info.model));
      } else if releaseInfo.None? {
        flashFwVersion := "revert";
        downloadUrl := Some(RevertUrl(info.stockFwModel));
      } else {
        var entries := releaseInfo.value;
        var k := 0;
        while k < |entries|
          invariant 0 <= k <= |entries|
          invariant SelectHomekit(entries, variant, fwVersion, info.model, search)
                    == SelectHomekit(entries[k..], variant, fwVersion, info.model, search)
          invariant flashFwVersion == old(flashFwVersion) && downloadUrl == old(downloadUrl)
        {
          var e := entries[k];
          if Truthy(variant) && !Contains(EntryVersion(e), variant.value) {
            flashFwVersion := "no_variant";
            downloadUrl := None;
            return;
          }
          if Truthy(variant) || search(e.pattern, fwVersion) {
            flashFwVersion := EntryVersion(e);
            downloadUrl := EntryUrl(e, info.model);
            break;
          }
          assert entries[k..][1..] == entries[k + 1..];
          k := k + 1;
        }
        session.notSupported := true;
      }
    }

    /** Chooses the stock firmware: a pinned version from the archive, or the
        release (or beta) the stock list gives for the device's model. */
    method UpdateStock(releaseInfo: Option<map<string, StockModelInfo>>) returns (raised: Option<Raised>)
      modifies this`flashFwTypeStr, this`flashFwVersion, this`downloadUrl
      ensures flashFwTypeStr == Some("Stock")
      ensures match StockTarget(version, variant, info.stockFwModel, info.colorMode, localFile, releaseInfo)
        case Ok((v, u)) => raised.None? && flashFwVersion == v && downloadUrl == u
        case Err(e) => raised == Some(e) && flashFwVersion == old(flashFwVersion) && downloadUrl == old(downloadUrl)
    {
      flashFwTypeStr := Some("Stock");
      var stockModel := info.stockFwModel;
      if !Truthy(version) {
        stockModel := StockListModel(stockModel);
        if releaseInfo.None? || stockModel.None? || stockModel.value !in releaseInfo.value {
          return Some(AttributeError);
        }
        var modelInfo := releaseInfo.value[stockModel.value];
        if variant == Some("beta") {
          flashFwVersion := ParseStockVersion(GetOr(modelInfo.betaVer, "0.0.0"));
          downloadUrl := modelInfo.betaUrl;
        } else {
          flashFwVersion := ParseStockVersion(GetOr(modelInfo.version, "0.0.0"));
          downloadUrl := modelInfo.url;
        }
      } else {
        flashFwVersion := version.value;
        downloadUrl := Some(StockArchiveUrl(version.value, stockModel));
      }
      if stockModel == Some("SHRGBW2") {
        if Truthy(downloadUrl) && !Truthy(version) && Truthy(info.colorMode) && !Truthy(localFile) {
          downloadUrl := Some(ReplaceAll(downloadUrl.value, ".zip", "-" + info.colorMode.value + ".zip"));
        }
      }
      return None;
    }

    /** Takes the firmware from a local zip file. `fileExists` is whether the
        file is on disk and `manifest` the first manifest.json in the archive,
        if any; `localIp` is the address the flasher serves the file from.
        Returns whether a manifest was found. */
    method ParseLocalFile(fileExists: bool, manifest: Option<Manifest>, localIp: string) returns (r: Result<bool, Raised>)
      requires localFile.Some?
      modifies this`version, this`flashFwTypeStr, this`flashFwVersion, this`downloadUrl
      ensures !(fileExists && EndsWith(localFile.value, ".zip") && manifest.Some?) ==>
        r == Ok(false) && flashFwVersion == "0.0.0" && downloadUrl.None?
        && version == old(version) && flashFwTypeStr == old(flashFwTypeStr)
      ensures fileExists && EndsWith(localFile.value, ".zip") && manifest.Some? ==>
        var (v, kind) := ManifestTarget(manifest.value);
        version == Some(v) && flashFwTypeStr == Some(kind)
        && (r.Err? <==> DeviceModelName(info).None? || manifest.value.name.None?)
        && (r.Ok? ==> r.value && LocalTargetSet(v, localIp, manifest.value.name.value))
    {
      if fileExists && EndsWith(localFile.value, ".zip") {
        if manifest.Some? {
          var (v, kind) := ManifestTarget(manifest.value);
          version := Some(v);
          flashFwTypeStr := Some(kind);
          flashFwVersion := v;
          if IsHomekit() {
            downloadUrl := Some("local");
          } else {
            downloadUrl := Some("http://" + localIp + ":" + WebserverPort + "/" + localFile.value);
          }
          var deviceModel := DeviceModelName(info);
          if deviceModel.None? {
            return Err(TypeError);
          }
          var mModel := ComparedName(deviceModel.value);
          if manifest.value.name.None? {
            return Err(TypeError);
          }
          var manifestName := ComparedName(manifest.value.name.value);
          if mModel != manifestName {
            flashFwVersion := "0.0.0";
            downloadUrl := None;
          }
          return Ok(true);
        } else {
          flashFwVersion := "0.0.0";
          downloadUrl := None;
          return Ok(false);
        }
      } else {
        flashFwVersion := "0.0.0";
        downloadUrl := None;
        return Ok(false);
      }
    }
  }

  // -----------------------------------------------------------------------
  // Waiting for the reboot
  // -----------------------------------------------------------------------

  /** One reading taken while waiting: the uptime and the version the device
      reports (None while it does not answer). */
  datatype Poll = Poll(uptime: int, version: Option<string>)

  /** The waiting loop as a function of the readings it takes: the version
      read last, and whether the loop gave up waiting (false when the
      readings run out with the loop still going; the program itself would
      go on polling). `n` counts the rounds. */
  function WaitOutcome(polls: seq<Poll>, uptime: int, version: Option<string>, n: int, before: int): (r: (Option<string>, bool))
    ensures r.1 ==> r.0.Some?
    decreases |polls|
  {
    if !((uptime >= before && n < 90) || version.None?) then (version, true)
    else if polls == [] then (version, false)
    else WaitOutcome(polls[1..], polls[0].uptime, polls[0].version, n + 1, before)
  }

  /** Watches a device reboot. `firstUptime` is the uptime read before the
      loop and `polls` the readings the loop takes, one per round; `before`
      is the uptime before the flash. With `rebootOnly` it only waits for an
      uptime of at least 3 seconds and returns no version. */
  method WaitForReboot(firstUptime: int, polls: seq<Poll>, before: int, rebootOnly: bool)
    returns (version: Option<string>, exited: bool)
    ensures !rebootOnly ==> (version, exited) == WaitOutcome(polls, firstUptime, None, 1, before)
    ensures rebootOnly ==> version.None? && (exited <==> exists k :: 0 <= k < |polls| && polls[k].uptime >= 3)
  {
    version := None;
    if !rebootOnly {
      var uptime := firstUptime;
      var n := 1;
      var k := 0;
      while (uptime >= before && n < 90) || version.None?
        invariant 0 <= k <= |polls| && n == k + 1
        invariant WaitOutcome(polls[k..], uptime, version, n, before) == WaitOutcome(polls, firstUptime, None, 1, before)
        decreases |polls| - k
      {
        if k == |polls| {
          return version, false;
        }
        assert polls[k..][1..] == polls[k + 1..];
        uptime := polls[k].uptime;
        version := polls[k].version;
        n := n + 1;
        k := k + 1;
      }
      exited := true;
    } else {
      var k := 0;
      while k < |polls| && polls[k].uptime < 3
        invariant 0 <= k <= |polls|
        invariant forall i :: 0 <= i < k ==> polls[i].uptime < 3
      {
        k := k + 1;
      }
      exited := k < |polls|;
    }
  }

  /** Once a version has been read the loop lasts at most until the round
      counter reaches 90. */
  lemma {:induction false} WaitBounded(polls: seq<Poll>, uptime: int, version: Option<string>, n: int, before: int)
    requires |polls| >= 90 - n && (version.Some? || polls != [])
    requires forall k :: 0 <= k < |polls| ==> polls[k].version.Some?
    ensures WaitOutcome(polls, uptime, version, n, before).1
    decreases |polls|
  {
    if (uptime >= before && n < 90) || version.None? {
      WaitBounded(polls[1..], polls[0].uptime, polls[0].version, n + 1, before);
    }
  }

  /** A device that never reports a version keeps the loop going. */
  lemma {:induction false} WaitNeedsVersion(polls: seq<Poll>, uptime: int, n: int, before: int)
    requires forall k :: 0 <= k < |polls| ==> polls[k].version.None?
    ensures !WaitOutcome(polls, uptime, None, n, before).1
    decreases |polls|
  {
    if polls != [] {
      WaitNeedsVersion(polls[1..], polls[0].uptime, n + 1, before);
    }
  }

  /** A reading with a version and an uptime below the one before the flash
      (the device has rebooted) ends the loop. */
  lemma {:induction false} WaitSeesReboot(polls: seq<Poll>, uptime: int, version: Option<string>, n: int, before: int, k: nat)
    requires k < |polls| && polls[k].version.Some? && polls[k].uptime < before
    ensures WaitOutcome(polls, uptime, version, n, before).1
    decreases k
  {
    if (uptime >= before && n < 90) || version.None? {
      if k > 0 {
        WaitSeesReboot(polls[1..], polls[0].uptime, polls[0].version, n + 1, before, k - 1);
      }
    }
  }

  // -----------------------------------------------------------------------
  // Counting a flash
  // -----------------------------------------------------------------------

  /** The Python values write_flash compares. */
  datatype PyValue = PyBool(b: bool) | PyStr(s: string) | PyTuple(v: VersionInfo)

  /** `parse_version` of a value that may be None: None is not a string, the
      search raises and the fallback tuple is returned. */
  function ParseVersionOpt(o: Option<string>): (v: VersionInfo)
    ensures o.None? ==> v == Unparsed
  {
    match o case Some(s) => ParseVersion(s) case None => Unparsed
  }

  /** What is read back after the reboot: whether the device runs stock
      firmware for a revert, the parsed version otherwise. */
  function RebootCheck(revert: bool, postVersion: Option<string>, isStockAfter: bool): PyValue {
    if revert then PyBool(isStockAfter) else PyTuple(ParseVersionOpt(postVersion))
  }

  /** What that reading is compared with. */
  function FlashGoal(revert: bool, flashFwVersion: string): PyValue {
    if revert then PyStr("stock revert") else PyTuple(ParseVersion(flashFwVersion))
  }

  predicate FlashSucceeded(revert: bool, check: PyValue, goal: PyValue) {
    check == goal || (revert && check == PyBool(true))
  }

  /** The global counters and the device's processed flag. */
  datatype FlashCounters = FlashCounters(flashed: int, failed: int, requiresUpgrade: UpgradeFlag, processed: bool)

  /** One write_flash call. `accepted` is whether the device answered the
      flash request with 200; nothing is counted otherwise. A reading equal
      to the string '0.0.0' is meant to be reported as inconclusive. */
  function WriteFlashStep(c: FlashCounters, accepted: bool, revert: bool, postVersion: Option<string>,
                          isStockAfter: bool, flashFwVersion: string): FlashCounters
  {
    if !accepted then c
    else
      var check := RebootCheck(revert, postVersion, isStockAfter);
      var goal := FlashGoal(revert, flashFwVersion);
      if FlashSucceeded(revert, check, goal) then
        FlashCounters(if c.processed then c.flashed else c.flashed + 1, c.failed,
                      if c.requiresUpgrade == Required then UpgradeDone else c.requiresUpgrade, true)
      else if check == PyStr("0.0.0") then c
      else c.(failed := c.failed + 1)
  }

  /** A revert succeeds exactly when the device comes back on stock
      firmware, an upgrade exactly when the parsed versions agree. */
  lemma {:induction false} FlashSuccess(revert: bool, postVersion: Option<string>, isStockAfter: bool, flashFwVersion: string)
    ensures FlashSucceeded(revert, RebootCheck(revert, postVersion, isStockAfter), FlashGoal(revert, flashFwVersion))
            <==> if revert then isStockAfter else ParseVersionOpt(postVersion) == ParseVersion(flashFwVersion)
  {
  }

  /** The reading is a bool or a tuple, never the string '0.0.0', so every
      accepted flash that does not succeed is counted as failed. */
  lemma {:induction false} FailureAlwaysCounted(c: FlashCounters, revert: bool, postVersion: Option<string>,
                             isStockAfter: bool, flashFwVersion: string)
    requires !FlashSucceeded(revert, RebootCheck(revert, postVersion, isStockAfter), FlashGoal(revert, flashFwVersion))
    ensures WriteFlashStep(c, true, revert, postVersion, isStockAfter, flashFwVersion) == c.(failed := c.failed + 1)
  {
  }

  /** One flash attempt: whether the device accepted it, and what it
      reports after the reboot. */
  datatype Attempt = Attempt(accepted: bool, revert: bool, postVersion: Option<string>, isStockAfter: bool)

  function RunAttempts(c: FlashCounters, attempts: seq<Attempt>, flashFwVersion: string): FlashCounters
    decreases |attempts|
  {
    if attempts == [] then c
    else
      var a := attempts[0];
      RunAttempts(WriteFlashStep(c, a.accepted, a.revert, a.postVersion, a.isStockAfter, flashFwVersion),
                  attempts[1..], flashFwVersion)
  }

  /** However often a device is flashed, it adds at most one to the count
      of flashed devices, and none once it has been processed; the failure
      count never goes down. */
  lemma {:induction false} FlashedAtMostOnce(c: FlashCounters, attempts: seq<Attempt>, flashFwVersion: string)
    ensures var r := RunAttempts(c, attempts, flashFwVersion);
      c.flashed <= r.flashed <= c.flashed + (if c.processed then 0 else 1)
      && r.failed >= c.failed && (c.processed ==> r.processed)
    decreases |attempts|
  {
    if attempts != [] {
      var a := attempts[0];
      var c' := WriteFlashStep(c, a.accepted, a.revert, a.postVersion, a.isStockAfter, flashFwVersion);
      FlashedAtMostOnce(c', attempts[1..], flashFwVersion);
    }
  }

  /** Runs write_flash's bookkeeping for `device` after the flash request
      (`accepted`) and the reboot that followed. */
  method WriteFlash(device: Device, session: Session, accepted: bool, revert: bool,
                    postVersion: Option<string>, isStockAfter: bool)
    modifies session`flashedDevices, session`failedFlashedDevices, session`requiresUpgrade, device`alreadyProcessed
    ensures Counters(session, device) ==
      WriteFlashStep(old(Counters(session, device)), accepted, revert, postVersion, isStockAfter, device.flashFwVersion)
  {
    if accepted {
      var check := RebootCheck(revert, postVersion, isStockAfter);
      var goal := FlashGoal(revert, device.flashFwVersion);
      if check == goal || (revert && check == PyBool(true)) {
        if !device.alreadyProcessed {
          session.flashedDevices := session.flashedDevices + 1;
        }
        if session.requiresUpgrade == Required {
          session.requiresUpgrade := UpgradeDone;
        }
        device.alreadyProcessed := true;
      } else if check == PyStr("0.0.0") {
      } else {
        session.failedFlashedDevices := session.failedFlashedDevices + 1;
      }
    }
  }

  function Counters(session: Session, device: Device): FlashCounters
    reads session, device
  {
    FlashCounters(session.flashedDevices, session.failedFlashedDevices, session.requiresUpgrade, device.alreadyProcessed)
  }
}
