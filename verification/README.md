# Shelly-HomeKit, modelled in Dafny

Shelly-HomeKit is firmware that turns Shelly relays, dimmers, roller-shutter
and sensor devices into Apple HomeKit accessories, together with the host
tools that flash it and the web UI it serves. This project models the
decision-making core of that system and proves what it promises:

- **Firmware versions and releases** (`tools/flash-shelly.py`,
  `tools/flash_shelly.py`, `fs_src/script.js`,
  `tools/shelly_update_server/update_handler.go`). This covers version
  parsing and ordering, the stock-firmware version search, and the choice
  of the first matching release. It also covers the local-file name check,
  the flash success rule and the reboot wait, the stock device-ID to model
  mapping, and the update server's log pruning.
- **Event-driven components** (`src/shelly_input.cpp`,
  `src/shelly_input_pin.cpp`, the switch, stateless switch, sensor, light
  bulb, garage door opener and window covering). These are the click
  detector and the reset gesture, the handler slot table, the
  input-to-output rules and each component's `SetConfig`/`SetState`
  validation.
- **Wi-Fi configuration** (`src/shelly_wifi_config.cpp`,
  `src/wifi_config/shelly_wifi_config_impl.cpp`). This is the
  connect/revert state machine, the access-point rule, password screening
  and MAC formatting.
- **Drivers' encoders** (`src/BL0942/shelly_pm_bl0942.cpp`,
  `src/DS18XXX/shelly_temp_sensor_ow.cpp`). These are the BL0942 register
  frames and checksums, and the DS18XXX family check, scratchpad CRC and
  resolution/conversion tables.
- **HomeKit plumbing and the main loop** (`src/shelly_hap_service.cpp`,
  `src/shelly_hap_chars.cpp`, `src/shelly_hap_input.cpp`,
  `src/shelly_sys_led_btn.cpp`, `src/shelly_main.cpp`,
  `src/shelly_rpc_service.cpp`). This covers:
  - the null-terminated characteristic list and the zero-terminated link
    list, and the bounded string read;
  - the accessory-id bases, the system LED priority and the button's
    switch cycling;
  - service flags and overheat hysteresis, configuration migration, OTA
    file merging and HTTP routing;
  - the RPC handlers' validation and dispatch.

Objects whose fields the firmware updates in place are classes whose methods
state their whole new state. Most of those methods are tied to a pure
specification function on a snapshot of the fields, and lemmas prove the
invariants and the promised properties of that function. Hardware readings,
time, the HAP library's answers and the results of calls into other
components are parameters. Python's exceptions are result values.

Each module sits in its own file: `wrappers.dfy` (Option, Result, Status,
Byte), `text.dfy` (string helpers), then one file per source file or
closely related group.

## Model

| member | source | states |
|---|---|---|
| FlashTool.MatchVersionSound | tools/flash-shelly.py:975 | a match the version search reports spans the whole string in the shape of parse_version's anchored expression |
| FlashTool.MatchVersionComplete | tools/flash-shelly.py:975 | every string the anchored expression can match is matched |
| FlashTool.Groups | tools/flash-shelly.py:975-981 | major, minor, patch and pr_seq are digit strings; the pr and pr_seq groups exist exactly when the '-' part matched |
| FlashTool.ParseVersion | tools/flash-shelly.py:972-989 | a string the expression does not match parses as (0, 0, 0, '', 0); otherwise the variant is present exactly when the '-' part is, and a missing patch reads as 0 (the values read are stated by ParseNumbers, ParseNumbersTag and ParseVersionText) |
| FlashTool.BetaGroups | tools/flash-shelly.py:973-975 | "2.7.0-beta1" matches with groups 2, 7, 0, beta, 1 |
| FlashTool.ParseNumbers | tools/flash-shelly.py:975-981 | a text "A.B.C" of three digit strings parses as their decimal values, with no variant and sequence 0 |
| FlashTool.ParseNumbersTag | tools/flash-shelly.py:975-981 | a text "A.B.C-tagN" with a tag of letters and '_' parses as the three values, the tag as variant and the value of N as sequence (0 when N is empty) |
| FlashTool.ParseVersionText | tools/flash-shelly.py:972-989 | every three-number version, with or without a variant made of letters and '_', is read back from its text exactly |
| FlashTool.ParseBetaExample | tools/flash-shelly.py:973-981 | "2.7.0-beta1" parses as (2, 7, 0, beta, 1) |
| FlashTool.ParseReleaseExample | tools/flash-shelly.py:973-981 | "2.7.0" parses with no variant and sequence 0 |
| FlashTool.ParseShortExample | tools/flash-shelly.py:973-981 | "1.9" parses with patch 0 |
| FlashTool.IsNewerIrreflexive | tools/flash-shelly.py:991-1007 | no version is newer than itself |
| FlashTool.IsNewerByTriple | tools/flash-shelly.py:994-999 | when major, minor and patch differ, the first differing one decides |
| FlashTool.DifferentVariantsBothNewer | tools/flash-shelly.py:1000-1001 | two versions with equal numbers and different variants are each newer than the other |
| FlashTool.IsNewerNotAntisymmetric | tools/flash-shelly.py:1000-1001 | "2.7.0-beta1" and "2.7.0" are each newer than the other |
| FlashTool.SearchStockSound | tools/flash-shelly.py:360 | what the stock search finds after a '/' matches the stock version expression |
| FlashTool.SearchStockComplete | tools/flash-shelly.py:360 | a match after a '/' on the same line is always found |
| FlashTool.ParseStockVersion | tools/flash-shelly.py:351-364 | no match gives "0.0.0"; a match gives text in the version shape |
| FlashTool.ParseStockVersionFound | tools/flash-shelly.py:360-363 | the result is exactly the text the search matched as the version group |
| FlashTool.ParseStockVersionComplete | tools/flash-shelly.py:360-363 | a string holding a match yields a version-shaped result |
| FlashTool.StockWithoutDot | tools/flash-shelly.py:356 | a build id without '.' holds no version and gives "0.0.0" |
| FlashTool.StockExampleRelease | tools/flash-shelly.py:353 | a date, "/v1.9.0" and "@commit" give "1.9.0", whatever the date and commit |
| FlashTool.StockExampleTag | tools/flash-shelly.py:354 | "/v1.9.5-DM2_…" gives "1.9.5-DM2" |
| FlashTool.StockExampleShort | tools/flash-shelly.py:355 | "/1.9_…" gives "1.9" |
| FlashTool.StockExampleNoVersion | tools/flash-shelly.py:356 | "/1244-production-Shelly1L@…" gives "0.0.0" |
| FlashTool.StockExampleCandidate | tools/flash-shelly.py:357 | "/v1.10.0-rc2-…" gives "1.10.0-rc2" |
| FlashTool.StockExampleCommit | tools/flash-shelly.py:358 | "/v1.10.0-" and a commit id give "1.10.0" |
| FlashDevice.Session.constructor | tools/flash-shelly.py:150-162 | a run starts with no device flashed or failed, the upgrade flag unset and no device marked unsupported |
| FlashDevice.SelectHomekit | tools/flash-shelly.py:498-510 | no release entries choose nothing; a chosen version and URL are those of one of the entries |
| FlashDevice.SelectWithVariant | tools/flash-shelly.py:499-504 | with a variant the first entry decides: its version is taken if it contains the variant, otherwise the result is 'no_variant' |
| FlashDevice.SelectFirstMatch | tools/flash-shelly.py:505-510 | without a variant the first entry whose pattern matches the running version is chosen |
| FlashDevice.SelectNoneMatched | tools/flash-shelly.py:505-510 | without a variant nothing is chosen exactly when no pattern matches the running version |
| FlashDevice.StockTarget | tools/flash-shelly.py:513-533 | it fails exactly when no version is given and the stock list or the model's entry is missing; a given version is flashed from the archive; a listed version has the stock version shape |
| FlashDevice.ColorModeUrl | tools/flash-shelly.py:532-533 | replacing ".zip" in a URL with one ".zip" at its end inserts "-" and the colour before the extension |
| FlashDevice.StockColorTarget | tools/flash-shelly.py:518-533 | an RGBW2 in a colour mode, listed as SHRGBW2, is offered the colour's own stock image |
| FlashDevice.ComparedName | tools/flash-shelly.py:468-471 | a name holding "rgbw2" is compared by its prefix before the first '-'; other names are compared whole |
| FlashDevice.ManifestTarget | tools/flash-shelly.py:450-457 | a manifest is HomeKit exactly when its version is not "1.0"; a stock manifest's version has the stock version shape or is "0.0.0" |
| FlashDevice.Device.constructor | tools/flash-shelly.py:250-267 | a device starts with target version "0.0.0", no target type, no URL and not yet processed |
| FlashDevice.Device.UpdateHomekit | tools/flash-shelly.py:487-511 | an explicit version is flashed from its archive; no release list means revert to stock; otherwise the selection decides version and URL, and the session is marked unsupported whenever the scan was not cut short by the variant check |
| FlashDevice.Device.UpdateStock | tools/flash-shelly.py:513-533 | the target is exactly what StockTarget gives, and a missing list entry raises the error Python would raise, leaving the target unchanged |
| FlashDevice.Device.ParseLocalFile | tools/flash-shelly.py:433-485 | a missing file, a non-zip name or a zip without manifest returns False and clears the target; otherwise the manifest sets version and type, and a model that differs from the manifest's name clears the target |
| FlashDevice.WaitOutcome | tools/flash-shelly.py:1018-1035 | the wait only ends once a version has been read |
| FlashDevice.WaitForReboot | tools/flash-shelly.py:1010-1041 | the loop ends with the outcome WaitOutcome gives; in reboot-only mode it ends exactly when some poll reports an uptime of at least 3 |
| FlashDevice.WaitBounded | tools/flash-shelly.py:1019 | once 90 polls have been made and a version was read, the wait is over |
| FlashDevice.WaitNeedsVersion | tools/flash-shelly.py:1019 | a device that never reports a version keeps the wait going |
| FlashDevice.WaitSeesReboot | tools/flash-shelly.py:1019 | a poll that reports a version and an uptime below the one before the flash ends the wait |
| FlashDevice.FlashSuccess | tools/flash-shelly.py:1107-1117 | a flash counts as successful exactly when a revert came back as stock, or when the version after the reboot parses like the target version |
| FlashDevice.FailureAlwaysCounted | tools/flash-shelly.py:1124-1130 | an accepted flash that did not succeed always adds to the failed count: the check is a tuple or a bool, never the string '0.0.0' |
| FlashDevice.FlashedAtMostOnce | tools/flash-shelly.py:1118-1123 | over any sequence of attempts a device adds at most one to the flashed count, and failures never decrease |
| FlashDevice.WriteFlash | tools/flash-shelly.py:1094-1133 | the session counters and the device's processed flag change exactly as WriteFlashStep says |
| LegacyFlashTool.ShellyModel | tools/flash_shelly.py:100-126 | a model is found exactly when the kind is a key of the table the mode selects, and what is found is one of that table's models |
| LegacyFlashTool.ShellyModelTablesAgree | tools/flash_shelly.py:100-126 | for a stock app name, mapping to the stock id and then to the HomeKit model gives the app's own HomeKit model |
| LegacyFlashTool.ShellyModelUnknown | tools/flash_shelly.py:126 | a kind in neither table has no model: the dictionary lookup raises |
| LegacyFlashTool.StockIdsOnlyInHomekitTable | tools/flash_shelly.py:102-125 | stock ids are keys of the HomeKit table only |
| LegacyFlashTool.ToInts | tools/flash_shelly.py:150-151 | the loop converts every piece with int() (white space around, an optional sign, digits with single underscores between them), or fails on the first piece int() refuses |
| LegacyFlashTool.PyIntReadsDecimal | tools/flash_shelly.py:150-151 | int() reads back the decimal text of every number, with a '-' or a '+' in front |
| LegacyFlashTool.PyIntIgnoresSpace | tools/flash_shelly.py:150-151 | white space before and after the number is ignored |
| LegacyFlashTool.PyIntUnderscores | tools/flash_shelly.py:150-151 | "1_0" reads as 10; a doubled, leading or trailing underscore is refused |
| LegacyFlashTool.PyIntRefusesBlank | tools/flash_shelly.py:150-151 | an empty or blank piece, or a sign alone, is refused |
| LegacyFlashTool.AppendZeros | tools/flash_shelly.py:155-160 | the shorter list is padded with zeros to the longer one's length |
| LegacyFlashTool.CompareLoop | tools/flash_shelly.py:163-168 | the loop returns the lexicographic comparison of the two lists |
| LegacyFlashTool.PadAndCompare | tools/flash_shelly.py:153-168 | padding the shorter list with zeros and comparing position by position gives CompareInts: 1, -1 or 0 as the first differing component decides |
| LegacyFlashTool.VersionCompare | tools/flash_shelly.py:128-168 | the comparison equals CompareVersions, which is None exactly where Python would raise |
| LegacyFlashTool.LexRange | tools/flash_shelly.py:162-168 | the result is -1, 0 or 1, and 0 exactly for equal lists |
| LegacyFlashTool.LexFlip | tools/flash_shelly.py:163-168 | swapping the lists negates the result |
| LegacyFlashTool.CompareReflexive | tools/flash_shelly.py:128-168 | a version that parses compares equal to itself |
| LegacyFlashTool.CompareAntisymmetric | tools/flash_shelly.py:128-168 | swapping the versions negates the result, and one fails exactly when the other does |
| LegacyFlashTool.TrailingZerosIgnored | tools/flash_shelly.py:153-160 | zeros appended to a version do not change the comparison |
| LegacyFlashTool.ShortComponents | tools/flash_shelly.py:130-136 | "1.9" becomes [1, 9, 0] |
| LegacyFlashTool.ReleaseComponents | tools/flash_shelly.py:130-136 | "1.9.d" becomes [1, 9, d, 0] |
| LegacyFlashTool.ShortEqualsRelease | tools/flash_shelly.py:128-168 | "1.9" and "1.9.0" compare equal |
| LegacyFlashTool.BetaComponents | tools/flash_shelly.py:131-134 | "1.9.d-betae" becomes [1, 9, d, e] |
| LegacyFlashTool.BetaAfterPatch | tools/flash_shelly.py:128-168 | a beta of a patch release compares above that release and below any later patch |
| LegacyFlashTool.BetaBetweenReleases | tools/flash_shelly.py:163-168 | a non-zero beta number sorts between its release and the next patch |
| LegacyFlashTool.BetaWithoutPatchRaises | tools/flash_shelly.py:131-132 | a beta version with fewer than three dot-separated parts makes the comparison fail, since arr[2] does not exist |
| WebUi.CheckName | fs_src/script.js:50-52 | a name is accepted exactly when it has 1 to 63 characters, each a letter, a digit or '-' |
| WebUi.DateStringToMillis | fs_src/script.js:245-260 | "" is 0; otherwise the value is defined exactly when the string starts with "D:HH:MM:SS.mmm" and is that duration in milliseconds |
| WebUi.AutoOffDelayValid | fs_src/script.js:240-243 | fails exactly where the parse fails; otherwise accepts exactly the durations from 10 ms to 2147483.647 s |
| WebUi.AutoOffEmptyRefused | fs_src/script.js:240-246 | an empty delay parses as 0 and is refused |
| WebUi.NDigitString | fs_src/script.js:274-276 | the number's decimal text, left-padded with '0' to the width; the result reads back as the number |
| WebUi.SplitSeconds | fs_src/script.js:1267-1272 | days, hours, minutes and seconds as durationStr splits them add back up to the duration |
| WebUi.DurationRoundTrip | fs_src/script.js:1266-1277 | durationStr's text with ".000" appended parses back as the same duration |
| WebUi.AutoOffDuration | fs_src/script.js:240-243 | a durationStr text with ".000" is a valid auto-off delay exactly when it is between 1 and 2147483 seconds |
| WebUi.ValueAt | fs_src/script.js:1111-1117 | a value found at a position follows the prefix there; a quoted value is non-empty, holds no '"' and is followed by one; an unquoted one is letters, digits and '-' |
| WebUi.Exec | fs_src/script.js:1111-1117 | nothing is found exactly when the expression matches at no position |
| WebUi.ExecFirst | fs_src/script.js:1111-1117 | the leftmost position where the expression matches gives the value |
| WebUi.ExecFindsQuoted | fs_src/script.js:1111-1112 | a header holding prefix, value and '"', with no earlier match, yields that value |
| WebUi.AuthHeaderToReq | fs_src/script.js:1106-1120 | fails, as `null[1]` throws, exactly when realm, nonce or algorithm is missing; otherwise carries the method, URI, count and the first match of each field, with opaque optional |
| WebUi.NoOpaque | fs_src/script.js:1115-1118 | a header without `opaque="` gives a request without opaque |
| WebUi.MatchJsSound | fs_src/script.js:1339 | what the matcher finds is a match of parseVersion's expression |
| WebUi.MatchJsComplete | fs_src/script.js:1339 | every string the expression matches is found by the matcher |
| WebUi.JsParseVersionDefined | fs_src/script.js:1338-1346 | parseVersion is defined exactly when the expression matches; `.groups` of a failed match throws |
| WebUi.ParseVersionString | fs_src/script.js:1337-1346 | "major.minor.patch-tagN" parses back into its numbers, tag and sequence |
| WebUi.JsParseVersionText | fs_src/script.js:1337-1346 | a version's own text parses back as that version |
| WebUi.IsNewer | fs_src/script.js:1348-1356 | fails exactly when either version does not parse |
| WebUi.IsNewerIrreflexive | fs_src/script.js:1348-1356 | no version is newer than itself |
| WebUi.IsNewerDifferentTags | fs_src/script.js:1353 | equal numbers with different variants: each is newer than the other |
| WebUi.IsNewerSameTag | fs_src/script.js:1350-1355 | between distinct versions with the same variant exactly one is newer |
| WebUi.FirstMatchingSpec | fs_src/script.js:1399-1405 | the index found is the first entry whose pattern matches the running version, or the end of the list |
| WebUi.SelectEntry | fs_src/script.js:1399-1405 | the loop stops at the first matching entry, the index FirstMatching gives |
| WebUi.CheckUpdate | fs_src/script.js:1398-1426 | "update section not found" exactly when the first matching entry is missing or lacks a non-empty version or a non-empty URL for this model; otherwise "up to date" exactly when its version is not newer, a failure exactly when either version does not parse, and an offer of that version and URL exactly when it is newer |
| WebUi.CheckUpdateIgnoresLater | fs_src/script.js:1399-1405 | entries after the first match never change the outcome |
| UpdateServer.GetHomeKitModel | tools/shelly_update_server/update_handler.go:41-60 | a model is returned only for a device whose model key is listed with a real model, and it is that model |
| UpdateServer.DashVersionRefused | tools/shelly_update_server/update_handler.go:42-44 | a firmware version "-" is refused as carrying no model information |
| UpdateServer.DeviceIdNeedsTwoWords | tools/shelly_update_server/update_handler.go:45-48 | a device id that is not two space-separated words is refused |
| UpdateServer.GetHomeKitModelByKey | tools/shelly_update_server/update_handler.go:49-59 | the key is the id's first word up to '-'; a missing or empty entry is an unknown model, the unsupported marker is refused as not yet supported, any other entry is returned |
| UpdateServer.ExpiredPrefixSpec | tools/shelly_update_server/update_handler.go:153-159 | the counted prefix holds exactly the leading entries not newer than the threshold |
| UpdateServer.PrunedDropsLeadingExpired | tools/shelly_update_server/update_handler.go:160-166 | pruning keeps a suffix after dropping the leading expired entries, and removes a history only when every entry has expired |
| UpdateServer.PrunedLogsKeys | tools/shelly_update_server/update_handler.go:152-167 | an address stays exactly when its history is empty or holds an entry newer than the threshold |
| UpdateServer.PrunedIdempotent | tools/shelly_update_server/update_handler.go:148-168 | pruning twice with the same threshold is pruning once |
| UpdateServer.UpdateHandler.constructor | tools/shelly_update_server/update_handler.go:170-177 | the handler starts with no log |
| UpdateServer.UpdateHandler.AddLogEntry | tools/shelly_update_server/update_handler.go:111-116 | the entry is appended to this address's history and no other history changes |
| UpdateServer.UpdateHandler.CleanupLogs | tools/shelly_update_server/update_handler.go:148-168 | the logs become PrunedLogs of the old logs at now minus the maximum age |
| UpdateServer.Cutoff | tools/shelly_update_server/update_handler.go:153-159 | the loop ends with the index of the last entry of the expired prefix, -1 when there is none |
| Common.NameChangeAsWritten | src/shelly_switch.cpp:130 | as written, a request without a name reaches strcmp with a null pointer: the comparison is undefined exactly when the name is missing |
| Common.MissingNameUndefined | src/shelly_hap_light_bulb.cpp:328 | without a name the as-written comparison is undefined while the intended update keeps the stored name; with a name the two agree |
| Input.FirstEmptySpec | src/shelly_input.cpp:31-41 | the slot AddHandler picks is the first empty one, or the end of the table |
| Input.AddReusesRemovedSlot | src/shelly_input.cpp:31-46 | after a handler is removed, the next one added lands in that slot or an earlier one |
| Input.FirstEmptyAtMost | src/shelly_input.cpp:33-37 | an empty slot bounds the slot AddHandler picks |
| Input.DispatchAppend | src/shelly_input.cpp:48-52 | dispatching over two tables in a row is dispatching over their concatenation |
| Input.DispatchAfterRemove | src/shelly_input.cpp:43-52 | after a removal, dispatch calls the handlers before and after the removed slot, and nothing for it |
| Input.RemovedHandlerBreaksDispatch | src/shelly_input.cpp:43-52 | as written, any event after a RemoveHandler calls an empty function object |
| Input.NoneSlotBreaksDispatch | src/shelly_input.cpp:48-52 | as written, one empty slot anywhere makes dispatch fail |
| Input.DispatchAsWrittenAgrees | src/shelly_input.cpp:48-52 | with no empty slot, the as-written and the corrected dispatch make the same calls |
| Input.DispatchAllAppend | src/shelly_input.cpp:48-52 | the calls made for two event sequences in a row are the calls for their concatenation |
| Input.CountChangeSpec | src/shelly_input.cpp:90-99 | the count stays below 10; a reset fires exactly on a quick change after nine quick ones; otherwise the count restarts at 1 after a gap over the window or goes up by one |
| Input.TenthQuickChangeResets | src/shelly_input.cpp:90-99 | nine quick changes fire nothing; the tenth fires a reset and zeroes the count |
| Input.QuickChangesCount | src/shelly_input.cpp:94 | fewer than ten quick changes only add to the count |
| Input.Input.constructor | src/shelly_input.cpp:25-26 | an input starts with no handlers |
| Input.Input.AddHandler | src/shelly_input.cpp:31-41 | the handler takes the first empty slot, or is appended, and its slot is returned |
| Input.Input.RemoveHandler | src/shelly_input.cpp:43-46 | a negative id changes nothing; otherwise only that slot is emptied |
| Input.Input.CallHandlers | src/shelly_input.cpp:48-52 | every registered handler is called once, in slot order, with the event and the state; empty slots are skipped |
| Input.BasicInputPin.constructor | src/shelly_input.cpp:54-65 | a pin starts with no changes counted and no last change |
| Input.BasicInputPin.HandleGPIOInt | src/shelly_input.cpp:85-101 | a change event goes to the handlers first; with reset enabled the count steps as CountChange says over a 10 s window and a fired reset is dispatched after the change; the time of the change is recorded |
| InputPin.HandlersKeepValid | src/shelly_input_pin.cpp:71-156 | the interrupt and the timer keep the reset count below 10 and the timer count non-negative |
| InputPin.NoiseIgnored | src/shelly_input_pin.cpp:84-87 | an interrupt that reads the state last seen changes nothing and reports nothing |
| InputPin.ChangeReportedFirst | src/shelly_input_pin.cpp:84-92 | a real change is reported first, as a change event with the new state, and its time is recorded |
| InputPin.DoubleClick | src/shelly_input_pin.cpp:93-119 | press, release, press, release within the short-press time walks Idle, WaitOffSingle, WaitOnDouble, WaitOffDouble, Idle, stops the timer and reports a double press last |
| InputPin.SingleOnTimeout | src/shelly_input_pin.cpp:146-149 | when the timer expires after one press and release, a single press is reported and the detector goes idle |
| InputPin.LongPress | src/shelly_input_pin.cpp:95-99 | a press held through both timer expiries arms the short timer, then the rest of the long timer, reports a long press on the second expiry, and the release reports neither a single nor another long press |
| InputPin.ReleaseFromLongWait | src/shelly_input_pin.cpp:120-128 | a release while waiting for a long press stops the timer, goes idle, and reports a single press only if the timer expired once |
| InputPin.ResetGesture | src/shelly_input_pin.cpp:71-82 | outside the first 30 s or with reset disabled nothing changes; otherwise a reset fires exactly on the tenth change within 5 s gaps, zeroing the count, and a longer gap restarts the count at 1 |
| InputPin.InputPin.constructor | src/shelly_input_pin.cpp:34-36 | a pin starts idle, counts nothing, is not inverted, reads off and has no timer armed |
| InputPin.InputPin.GetState | src/shelly_input_pin.cpp:60-63 | the state is the level compared with the on value, flipped when inverted, and is remembered as the last state |
| InputPin.InputPin.SetInvert | src/shelly_input_pin.cpp:47-50 | the inversion is stored and the last state is re-read with it |
| InputPin.InputPin.DetectReset | src/shelly_input_pin.cpp:71-82 | the pin's state and the handler calls change exactly as ResetStep says |
| InputPin.InputPin.HandleGPIOInt | src/shelly_input_pin.cpp:84-131 | the pin's state and the handler calls change exactly as Interrupt says |
| InputPin.InputPin.ClickOnChange | src/shelly_input_pin.cpp:93-129 | the click detector's state and the events it reports change exactly as ClickStep says |
| InputPin.InputPin.HandleTimer | src/shelly_input_pin.cpp:133-156 | the pin's state and the handler calls change exactly as TimerFired says |
| Switch.SwValidateSpec | src/shelly_switch.cpp:98-128 | a request is accepted exactly when the name fits in 64 characters, svc_type is -1..3, valve_type is 0..3 for a valve and -1 otherwise, in_mode is absent or in range, initial_state is in range and not "input" for a switch without input, and state_led_en keeps its absent or 0/1 form |
| Switch.SwRestartSpec | src/shelly_switch.cpp:129-160 | a restart is asked for exactly when the name, service or valve type, inversion or LED setting changes, or the input mode enters or leaves detached; the output state is not touched and an absent in_mode keeps the stored one |
| Switch.SetOutputSpec | src/shelly_switch.cpp:219-241 | the output and the stored state take the new value, the state is dirty when it changed, the auto-off timer is armed exactly when switching on with auto-off, HomeKit is notified exactly when the output changed, and repeating the call changes nothing more |
| Switch.InputModes | src/shelly_switch.cpp:262-310 | detached ignores inputs; momentary toggles on press; toggle follows the input; edge toggles on each change; activation switches on; a long press in momentary mode cancels auto-off; other events leave output and configuration alone |
| Switch.AutoOffSpec | src/shelly_switch.cpp:243-254 | the fired one-shot timer is no longer pending: with auto-off disabled nothing else changes; in activation mode with the input and output on the timer is re-armed; otherwise the output goes off and the timer stays cleared |
| Switch.ShellySwitch.constructor | src/shelly_switch.cpp:28-37 | a switch starts with its configuration, not dirty, with no auto-off timer and no notification; the output starts off |
| Switch.ShellySwitch.SetOutputState | src/shelly_switch.cpp:219-241 | state and notifications change exactly as SetOutput says |
| Switch.ShellySwitch.SetConfig | src/shelly_switch.cpp:84-161 | the status is the validation result; an accepted request stores ApplySwConfig's configuration and restart flag; a rejected one changes nothing |
| Switch.ShellySwitch.SetState | src/shelly_switch.cpp:163-171 | a missing state is refused with "state is required"; otherwise the output is set as SetOutput says |
| Switch.ShellySwitch.IsIdle | src/shelly_switch.cpp:173-175 | idle exactly when no auto-off timer is pending |
| Switch.ShellySwitch.AutoOffTimerCB | src/shelly_switch.cpp:243-254 | state (including the fired timer, now cleared unless re-armed) and notifications change exactly as AutoOffFired says |
| Switch.ShellySwitch.InputEventHandler | src/shelly_switch.cpp:262-310 | state and notifications change exactly as OnInput says |
| StatelessSwitch.HapEventForSpec | src/shelly_hap_stateless_switch_base.cpp:126-161 | momentary mode passes single, double and long presses through as the matching HAP events and nothing else; toggle modes turn each change into a single press, or in short/long mode a release into a double press; every event is 0..2 |
| StatelessSwitch.StatelessSwitchBase.constructor | src/shelly_hap_stateless_switch_base.cpp:26-37 | a switch starts with no event recorded, not registered with its input and nothing notified |
| StatelessSwitch.StatelessSwitchBase.SetConfig | src/shelly_hap_stateless_switch_base.cpp:97-119 | the status is the validation (name up to 64, in_mode 0..2, a missing in_mode refused); an accepted request stores in_mode and a changed name, asking for a restart exactly when the name changed |
| StatelessSwitch.StatelessSwitchBase.SetState | src/shelly_hap_stateless_switch_base.cpp:121-124 | always "unimplemented" |
| StatelessSwitch.StatelessSwitchBase.RaiseEvent | src/shelly_hap_stateless_switch_base.cpp:163-171 | the event and its time are recorded; HomeKit is notified only once the input handler is registered |
| StatelessSwitch.StatelessSwitchBase.Register | src/shelly_hap_stateless_switch_base.cpp:70-71 | after Init the switch is registered, nothing else changes |
| StatelessSwitch.StatelessSwitchBase.InputEventHandler | src/shelly_hap_stateless_switch_base.cpp:126-161 | the event HapEventFor gives is raised; no event leaves everything unchanged |
| StatelessSwitch.StatelessSwitchBase.ReadEvent | src/shelly_hap_stateless_switch_base.cpp:61-66 | a read before any event fails with "invalid state"; afterwards it returns the last event |
| StatelessSwitch.EventReadAfterRaise | src/shelly_hap_stateless_switch_base.cpp:61-66 | a fresh switch's read fails, and after an event at a positive uptime returns that event |
| Sensor.SetInternalSpec | src/shelly_hap_sensor_base.cpp:139-154 | the state takes the new value; the event time moves only on an off-to-on change, to now; HomeKit is notified exactly on a change once registered; pulse mode re-arms the idle timer on every "on"; "off" leaves the timer alone |
| Sensor.SensorModes | src/shelly_hap_sensor_base.cpp:122-137 | only change events matter; level mode follows the input; pulse mode only switches on, and a release changes nothing |
| Sensor.IdleExpiredSpec | src/shelly_hap_sensor_base.cpp:156-159 | outside pulse mode the timer does nothing; in pulse mode it switches the sensor off |
| Sensor.SensorBase.constructor | src/shelly_hap_sensor_base.cpp:26-35 | a sensor starts off, with no event, no timer, not registered and nothing notified |
| Sensor.SensorBase.SetInternalState | src/shelly_hap_sensor_base.cpp:139-154 | state and notifications change exactly as SetInternal says |
| Sensor.ApplySensorConfigSpec | src/shelly_hap_sensor_base.cpp:102-114 | an accepted request stores the present fields; a new in_mode resets the state to the input's level in level mode and to off otherwise, stamps the time of an off-to-on change, notifies exactly a change once registered, and never arms the idle timer; without in_mode only the configuration changes and nothing is notified |
| Sensor.SensorBase.SetConfig | src/shelly_hap_sensor_base.cpp:82-115 | the status is the validation (name up to 64, in_mode in range, idle_time 1..10000 when present); a rejected request changes nothing; an accepted one changes the state and the notifications exactly as ApplySensorConfig says (name, then in_mode with SetInternalState, then idle_time), asks for a restart exactly when the name changes, and a new in_mode resets the state to the input's level in level mode and to off otherwise |
| Sensor.SensorBase.InputEventHandler | src/shelly_hap_sensor_base.cpp:122-137 | state and notifications change exactly as OnSensorInput says |
| Sensor.SensorBase.AutoOffTimerCB | src/shelly_hap_sensor_base.cpp:156-159 | state and notifications change exactly as IdleExpired says |
| LightBulb.SettersSpec | src/shelly_hap_light_bulb.cpp:194-268 | each setter stores its value and is a no-op exactly when the value is already stored; the hue and saturation characteristics are notified exactly when the value changes on a colour bulb, the colour temperature exactly when it changes on a CCT bulb; UpdateOnOff stores the new state, is a no-op exactly when not forced and unchanged, and marks the state dirty when it notifies |
| LightBulb.StagesKeepRange | src/shelly_hap_light_bulb.cpp:391-395 | each step of SetState keeps hue, saturation, brightness and colour temperature in range; only the hue step touches the hue and only the brightness step the brightness |
| LightBulb.SetStateKeepsRange | src/shelly_hap_light_bulb.cpp:360-398 | an accepted SetState keeps every value in range, stores a requested hue, keeps the brightness when none is requested, and notifies the hue characteristic exactly when a colour bulb is given a new hue (the hue setter as intended; as written it is undefined off colour bulbs, see Findings) |
| LightBulb.LbConfigSpec | src/shelly_hap_light_bulb.cpp:291-352 | a request is accepted exactly when a hidden service is optional, the name fits in 64 characters, in_mode is absent or in range and initial_state is in range and not "input" without an input; a restart is asked for exactly when the name, hiding, inversion changes or the input mode enters or leaves detached |
| LightBulb.LbInputModes | src/shelly_hap_light_bulb.cpp:425-479 | detached ignores inputs; momentary toggles on press; toggle follows the input; edge toggles; activation switches on; a long press in momentary mode cancels auto-off; other events leave the configuration alone |
| LightBulb.LbAutoOffSpec | src/shelly_hap_light_bulb.cpp:412-423 | the fired one-shot timer is no longer pending: with auto-off disabled nothing else changes; when activation mode holds the input and the light on the timer is re-armed and nothing is notified; otherwise the light goes off, the timer stays cleared, and a notification is sent exactly when the light was on |
| LightBulb.LightBulb.constructor | src/shelly_hap_light_bulb.cpp:30-43 | a bulb starts with its configuration and output values, clean, with no timer and no notification |
| LightBulb.LightBulb.UpdateOnOff | src/shelly_hap_light_bulb.cpp:194-210 | state and notifications change exactly as UpdateOnOffF says |
| LightBulb.SetHueAsWritten | src/shelly_hap_light_bulb.cpp:212-222 | the hue setter as written is undefined exactly when the hue changes on a bulb without the hue characteristic (a null dereference) |
| LightBulb.HueOnWhiteUndefined | src/shelly_hap_light_bulb.cpp:212-222 | off a colour bulb a changed hue is undefined as written and only updates the output as intended; on a colour bulb, or with an unchanged hue, the two agree |
| LightBulb.HueOnWhiteExample | src/shelly_hap_light_bulb.cpp:387-392 | a white bulb with hue 0 asked for hue 10 is undefined as written; as intended the hue is stored and only the output is updated |
| LightBulb.LightBulb.SetHue | src/shelly_hap_light_bulb.cpp:212-222 | state and notifications change exactly as SetHueF says: the hue is stored, and the hue characteristic is notified only on a colour bulb |
| LightBulb.LightBulb.SetSaturation | src/shelly_hap_light_bulb.cpp:240-253 | state and notifications change exactly as SetSaturationF says |
| LightBulb.LightBulb.SetBrightness | src/shelly_hap_light_bulb.cpp:255-268 | state and notifications change exactly as SetBrightnessF says |
| LightBulb.LightBulb.SetColorTemperature | src/shelly_hap_light_bulb.cpp:224-238 | state and notifications change exactly as SetColorTemperatureF says |
| LightBulb.LightBulb.SetState | src/shelly_hap_light_bulb.cpp:360-398 | the status is the range check of hue 0..360, saturation and brightness 0..100 and colour temperature 50..400; a rejected request changes nothing; an accepted one applies on/off, hue, saturation, brightness and temperature in that order, with the hue setter as intended (see Findings) |
| LightBulb.LightBulb.SetConfig | src/shelly_hap_light_bulb.cpp:291-352 | the status is the validation; an accepted request stores ApplyLbConfig's configuration and restart flag; a rejected one changes nothing |
| LightBulb.LightBulb.AutoOffTimerCB | src/shelly_hap_light_bulb.cpp:412-423 | state and notifications change exactly as LbAutoOff says |
| LightBulb.LightBulb.InputEventHandler | src/shelly_hap_light_bulb.cpp:425-479 | state and notifications change exactly as OnLbInput says |
| GarageDoor.SetConfigSpec | src/shelly_hap_garage_door_opener.cpp:127-178 | a request is accepted exactly when the name fits in 64 characters, close_sensor_mode is at most 1 and open_sensor_mode and out_mode at most 2; a positive move time is stored in ms, absent fields keep their value, and any out_mode asks for a restart |
| GarageDoor.InputsStateSpec | src/shelly_hap_garage_door_opener.cpp:211-221 | the door reads closed when the close input matches its sensor mode; the open reading is -1 exactly when there is no open input in mode 0 or 1, and otherwise follows the input in mode 0 and its inverse in mode 1 |
| GarageDoor.SpuriousObstructionNotice | src/shelly_hap_garage_door_opener.cpp:228-244 | as written an Open to Closing change can notify an obstruction change, which the intended rule never does; with the flag false the two agree |
| GarageDoor.SetCurSpec | src/shelly_hap_garage_door_opener.cpp:223-245 | an unchanged state does nothing; otherwise the new state is stored, leaving Stopped clears the obstruction and entering Stopped remembers the state it left |
| GarageDoor.ToggleTable | src/shelly_hap_garage_door_opener.cpp:247-285 | open starts closing, closed starts opening, opening stops, closing reverses to opening, stopped reverses the direction it moved before, and the target is always notified |
| GarageDoor.TargetWriteSpec | src/shelly_hap_garage_door_opener.cpp:287-307 | a HomeKit target write toggles the door unless it is already at or moving to that target; a stopped door always acts |
| GarageDoor.BothSensorsStop | src/shelly_hap_garage_door_opener.cpp:327-330 | both sensors active stops the door |
| GarageDoor.MoveTimeoutObstruction | src/shelly_hap_garage_door_opener.cpp:357-361 | opening with the open sensor reading "not open", or closing without reaching closed, for longer than move_time stops the door and reports an obstruction |
| GarageDoor.OpeningTimesOutOpen | src/shelly_hap_garage_door_opener.cpp:363-366 | without an open sensor an opening door counts as open once move_time has passed, with no obstruction |
| GarageDoor.StepsKeepValid | src/shelly_hap_garage_door_opener.cpp:223-409 | toggling and polling keep an obstruction reported only while stopped, and a stopped door remembers a state other than Stopped |
| GarageDoor.GarageDoorOpener.constructor | src/shelly_hap_garage_door_opener.cpp:101-102 | the door starts closed or open as the raw close input reads, with the target equal, no obstruction and no notification or pulse |
| GarageDoor.GarageDoorOpener.SetConfig | src/shelly_hap_garage_door_opener.cpp:127-178 | the status is the validation; an accepted request stores ApplyConfig's configuration and restart flag; a rejected one changes nothing; the door state is untouched |
| GarageDoor.GarageDoorOpener.IsIdle | src/shelly_hap_garage_door_opener.cpp:190-192 | idle exactly when the door is not opening or closing |
| GarageDoor.GarageDoorOpener.SetCurState | src/shelly_hap_garage_door_opener.cpp:223-245 | the door and notifications change exactly as SetCur says |
| GarageDoor.GarageDoorOpener.SetTgtState | src/shelly_hap_garage_door_opener.cpp:309-319 | the target is stored and notified even when unchanged |
| GarageDoor.GarageDoorOpener.ToggleState | src/shelly_hap_garage_door_opener.cpp:247-285 | one pulse on the output PulsedOutput names, then the door and notifications change as Toggle says |
| GarageDoor.GarageDoorOpener.HAPTgtStateWrite | src/shelly_hap_garage_door_opener.cpp:287-307 | a toggle is scheduled exactly when TargetWriteActs holds |
| GarageDoor.GarageDoorOpener.RunOnce | src/shelly_hap_garage_door_opener.cpp:321-409 | the door and notifications change exactly as RunOnceStep says for the inputs' reading |
| GarageDoor.GarageDoorOpener.RunSwitch | src/shelly_hap_garage_door_opener.cpp:331-408 | the door and notifications change exactly as RunCase says |
| GarageDoor.GarageDoorOpener.SetState | src/shelly_hap_garage_door_opener.cpp:180-188 | always OK; `toggle: true` toggles and then polls the door, anything else changes nothing |
| WindowCovering.StateStr | src/shelly_hap_window_covering.cpp:323-355 | a code prints as "???" exactly when it is not one of the state machine's codes |
| WindowCovering.StateCodesRoundTrip | src/shelly_hap_window_covering.cpp:323-355 | every state's code maps back to that state, and every known code is the code of the state it names |
| WindowCovering.TrimPos | src/shelly_hap_window_covering.cpp:358-365 | a trimmed position lies in [0, 100] |
| WindowCovering.TrimPosSpec | src/shelly_hap_window_covering.cpp:358-365 | trimming keeps positions already in range, clamps below 0 to 0 and above 100 to 100, and is idempotent |
| WindowCovering.SettersTrim | src/shelly_hap_window_covering.cpp:379-425 | each position and tilt setter stores the trimmed value, and does nothing (no notification) when the trimmed value equals the stored one |
| WindowCovering.EndpointAlignsTilt | src/shelly_hap_window_covering.cpp:386-390 | a current position that changes to fully open or fully closed also moves the current and target tilt there |
| WindowCovering.DesiredDirectionSpec | src/shelly_hap_window_covering.cpp:489-500 | no direction without a target; when calibrated and at least 0.5 away the direction follows the position difference; otherwise none exactly when the tilt target is reached or unset |
| WindowCovering.MoveOutputsSpec | src/shelly_hap_window_covering.cpp:502-516 | at most one output is driven, open exactly for a calibrated open move and close exactly for a calibrated close move |
| WindowCovering.SingleTargetSpec | src/shelly_hap_window_covering.cpp:824-844 | a stopped cover at 0 targets 100, at 100 or after an opening move targets 0, and otherwise an end position; a moving one targets one step past the current position in its direction |
| WindowCovering.ManualOutputsSpec | src/shelly_hap_window_covering.cpp:809-822 | manual control never drives both outputs, never reverses a driven output directly, drives only what is wanted, and follows a single unconflicting request |
| WindowCovering.WcSetConfigSpec | src/shelly_hap_window_covering.cpp:242-289 | a request is accepted exactly when the name fits in 64 characters and in_mode is at most 3; a changed swap_outputs clears calibration and asks for a restart, otherwise calibration is kept |
| WindowCovering.WindowCovering.constructor | src/shelly_hap_window_covering.cpp:28-61 | a new cover is Idle with target state None, current and target position equal to the stored position and current and target tilt equal to the stored tilt, no direction, both outputs off and nothing notified |
| WindowCovering.WindowCovering.SetInternalState | src/shelly_hap_window_covering.cpp:371-377 | the state is stored and its start time reset only when it changes; nothing else changes |
| WindowCovering.WindowCovering.SetTgtPos | src/shelly_hap_window_covering.cpp:396-403 | positions and notifications change as SetTgtPosF says; nothing else changes |
| WindowCovering.WindowCovering.SetTgtTilt | src/shelly_hap_window_covering.cpp:418-425 | positions and notifications change as SetTgtTiltF says; nothing else changes |
| WindowCovering.WindowCovering.SetCurTilt | src/shelly_hap_window_covering.cpp:405-416 | positions and notifications change as SetCurTiltF says, which also sets the target position to the current one; a changed tilt is stored in the configuration; nothing else changes |
| WindowCovering.WindowCovering.SetCurPos | src/shelly_hap_window_covering.cpp:379-394 | positions and notifications change as SetCurPosF says; a changed position and tilt are stored in the configuration; nothing else changes |
| WindowCovering.WindowCovering.SetConfig | src/shelly_hap_window_covering.cpp:242-289 | the status is ValidateWcConfig's; an accepted request stores ApplyWcConfig's configuration and restart flag, a rejected one changes nothing; positions and state are untouched |
| WindowCovering.WindowCovering.SetState | src/shelly_hap_window_covering.cpp:291-316 | an unknown state code is refused with nothing changed; a known code of 0 or more becomes the target state and stops a busy cover; otherwise tgt_pos sets the trimmed target (-1 stops at the current position) and tgt_tilt the tilt target |
| WindowCovering.WindowCovering.IsIdle | src/shelly_hap_window_covering.cpp:318-320 | idle exactly in state Idle |
| WindowCovering.WindowCovering.GetDesiredMoveDirection | src/shelly_hap_window_covering.cpp:489-500 | the direction DesiredDirection gives for the current positions and calibration |
| WindowCovering.WindowCovering.Move | src/shelly_hap_window_covering.cpp:502-524 | outputs as MoveOutputs says; the moving direction becomes `dir`, the last direction only for a real direction; a change of direction notifies the position state |
| WindowCovering.WindowCovering.HandleInputSingle | src/shelly_hap_window_covering.cpp:824-844 | the target position becomes SingleTarget's, through SetTgtPos |
| WindowCovering.WindowCovering.HandleInputEventNotCalibrated | src/shelly_hap_window_covering.cpp:809-822 | outside Idle nothing changes; in Idle the outputs become ManualOutputs of the inputs and the current outputs |
| ShellyWifiConfig.EqIsEquality | src/shelly_wifi_config.cpp:24-32 | the AP and station comparisons hold exactly when every field is equal |
| ShellyWifiConfig.Screened | src/shelly_wifi_config.cpp:34-40 | a screened password has the password's length |
| ShellyWifiConfig.ScreenPassword | src/shelly_wifi_config.cpp:34-40 | the loop's result is the screened password |
| ShellyWifiConfig.ScreenedSpec | src/shelly_wifi_config.cpp:34-40 | every character of a screened password is '*', passwords of equal length screen alike, and screening is idempotent |
| ShellyWifiConfig.ToJsonHidesPasswords | src/shelly_wifi_config.cpp:42-58 | two configurations that differ only in passwords of the same lengths print the same JSON, so the text reveals no password |
| ShellyWifiConfig.HexDigitValue | src/shelly_wifi_config.cpp:60-65 | a hexadecimal digit reads back as the value it was written from |
| ShellyWifiConfig.Hex2 | src/shelly_wifi_config.cpp:60-65 | a byte prints as two characters |
| ShellyWifiConfig.MacTextLength | src/shelly_wifi_config.cpp:60-65 | the text has two characters per byte plus one separator between bytes when delimited |
| ShellyWifiConfig.MacTextGroups | src/shelly_wifi_config.cpp:60-65 | byte i is written as its two digits at its group's start |
| ShellyWifiConfig.MacTextColons | src/shelly_wifi_config.cpp:61-62 | with delimiters a ':' follows every byte but the last |
| ShellyWifiConfig.FormatMacSpec | src/shelly_wifi_config.cpp:60-65 | a six-byte address prints as 17 characters with colons or 12 without, and every byte reads back from its position |
| WifiConfigImpl.RepeatedSetConfigLosesApChange | src/wifi_config/shelly_wifi_config_impl.cpp:132 | as written a second identical request while the AP change is still waiting clears the flag, so the access point keeps its old name although the configuration has the new one; as intended the change stays pending |
| WifiConfigImpl.SetConfigKeepsValid | src/wifi_config/shelly_wifi_config_impl.cpp:113-148 | SetConfig keeps the pending configuration in use only during an attempt, and never forgets an unapplied AP change |
| WifiConfigImpl.SetConfigSpec | src/wifi_config/shelly_wifi_config_impl.cpp:129-147 | a request that changes nothing changes nothing; a station change makes the request the active configuration and restarts from Disconnect; an AP change is copied into the current configuration at once |
| WifiConfigImpl.ResetDuringAttemptUndone | src/wifi_config/shelly_wifi_config_impl.cpp:154-171 | as written a reset during an attempt with a pending configuration leaves that configuration active, and the next successful connection commits it, undoing the reset; as intended no station stays enabled |
| WifiConfigImpl.ResetSpec | src/wifi_config/shelly_wifi_config_impl.cpp:154-171 | after a reset no station is enabled and the state is Disconnect; the AP keeps its settings if a station was enabled, otherwise it gets the default name and password and is marked changed; both invariants are kept |
| WifiConfigImpl.CheckApSpec | src/wifi_config/shelly_wifi_config_impl.cpp:429-455 | with no station enabled the AP is brought up once the driver accepts; an AP with client activity in the last 60 s is never taken down; both invariants are kept |
| WifiConfigImpl.ProcessKeepsValid | src/wifi_config/shelly_wifi_config_impl.cpp:232-326 | every Process step keeps both invariants |
| WifiConfigImpl.ProcessSpec | src/wifi_config/shelly_wifi_config_impl.cpp:251-316 | an acquired IP commits the configuration being tried; a connection timeout of twice the connect timeout marks the attempt failed and reverts to the current configuration; with no station enabled the pending configuration is committed and the manager goes idle |
| WifiConfigImpl.WifiEventKeepsValid | src/wifi_config/shelly_wifi_config_impl.cpp:465-472 | the driver's connecting event keeps both invariants and is ignored while a disconnect is due |
| WifiConfigImpl.InfoSpec | src/wifi_config/shelly_wifi_config_impl.cpp:173-216 | the status is the state's description, then " (reverted)" after a failed attempt and ", AP active" while the AP runs; connected and connecting follow the state |
| WifiConfigImpl.WifiConfigManager.constructor | src/wifi_config/shelly_wifi_config_impl.cpp:67-104 | the manager starts idle with the stored configuration current and active, an empty pending configuration with both stations disabled, no AP change pending, and the AP running as stored; both invariants hold |
| WifiConfigImpl.WifiConfigManager.SetState | src/wifi_config/shelly_wifi_config_impl.cpp:457-463 | the state and its start time change only when the state changes |
| WifiConfigImpl.WifiConfigManager.SaveConfig | src/wifi_config/shelly_wifi_config_impl.cpp:410-427 | the current configuration is written to the system configuration when it differs from the defaults |
| WifiConfigImpl.WifiConfigManager.SetConfig | src/wifi_config/shelly_wifi_config_impl.cpp:113-148 | the status is the first failing check (AP, STA, STA1, sta_ps_mode outside 0..2); a refused request changes nothing; an accepted one changes the manager as SetConfigF says |
| WifiConfigImpl.WifiConfigManager.GetConfig | src/wifi_config/shelly_wifi_config_impl.cpp:150-152 | the configuration in use: the pending one during an attempt, otherwise the current one |
| WifiConfigImpl.WifiConfigManager.ResetConfig | src/wifi_config/shelly_wifi_config_impl.cpp:154-171 | the manager changes as ResetF says |
| WifiConfigImpl.FreshResetDisconnects | src/wifi_config/shelly_wifi_config_impl.cpp:173-186 | after a reset on a freshly constructed manager, whose pending configuration is empty, the status reads "Disconnecting" |
| WifiConfigImpl.WifiConfigManager.GetInfo | src/wifi_config/shelly_wifi_config_impl.cpp:173-216 | the report is InfoF of the manager's state |
| WifiConfigImpl.WifiConfigManager.ReportClientRequest | src/wifi_config/shelly_wifi_config_impl.cpp:219-230 | a client whose address starts with the AP address less its last character marks AP activity now; nothing else changes |
| WifiConfigImpl.WifiConfigManager.CheckAPEnabled | src/wifi_config/shelly_wifi_config_impl.cpp:429-455 | the manager changes as CheckApF says |
| WifiConfigImpl.WifiConfigManager.Process | src/wifi_config/shelly_wifi_config_impl.cpp:232-326 | the manager changes as ProcessF says for the driver's answers |
| WifiConfigImpl.WifiConfigManager.WifiEvent | src/wifi_config/shelly_wifi_config_impl.cpp:465-472 | the manager changes as WifiEventF says |
| Bl0942.ChecksumCloses | src/BL0942/shelly_pm_bl0942.cpp:116-119 | the checksum byte completes a frame's byte-sum to 0xFF modulo 256, and it is the only byte that does |
| Bl0942.WriteFrameSpec | src/BL0942/shelly_pm_bl0942.cpp:108-119 | a write frame is six bytes: the write command, the register, the value's low 24 bits from the most significant byte, and a checksum that makes the bytes sum to 0xFF |
| Bl0942.InitFramesSpec | src/BL0942/shelly_pm_bl0942.cpp:91-95 | Init sends five well-formed write frames, the second unlocking the user registers with 0x550000 |
| Bl0942.ReadCheckRefusesCorrectFrames | src/BL0942/shelly_pm_bl0942.cpp:137-146 | as written the checksum sums the received checksum byte too, so a correct response passes exactly when its checksum byte is 0 |
| Bl0942.ZeroPacketRefused | src/BL0942/shelly_pm_bl0942.cpp:137-146 | an all-zero measurement packet with header 0x55 and checksum 168 is correct but refused as written |
| Bl0942.ReadDelaySpec | src/BL0942/shelly_pm_bl0942.cpp:131-133 | as written the wait is 0 ms for any response under 1200 bytes, the 22-byte packet included; the intended wait is the least whole number of ms that covers the transfer at 9600 baud (19 ms for the packet) |
| Bl0942.Bl0942PowerMeter.constructor | src/BL0942/shelly_pm_bl0942.cpp:41-49 | the pins and measurement time are stored; nothing is sent, received or scheduled yet |
| Bl0942.Bl0942PowerMeter.ByteSum | src/BL0942/shelly_pm_bl0942.cpp:116-118 | the uint8_t accumulator loop yields the byte-sum modulo 256 |
| Bl0942.Bl0942PowerMeter.WriteReg | src/BL0942/shelly_pm_bl0942.cpp:108-124 | always succeeds; exactly WriteFrame's frame is sent, followed by a 1 ms sleep |
| Bl0942.Bl0942PowerMeter.ReadReg | src/BL0942/shelly_pm_bl0942.cpp:126-148 | sends the read command and register, waits ReadDelayMs, and accepts exactly a full-length response whose last byte is the checksum of the command, register and preceding bytes |
| Bl0942.Bl0942PowerMeter.Init | src/BL0942/shelly_pm_bl0942.cpp:67-98 | no pins at all and a refused UART configuration are the two errors, in that order, and change nothing; otherwise reception is on, the timer runs every measTime s and the five Init frames are sent |
| Bl0942.Bl0942PowerMeter.MeasureTimerCB | src/BL0942/shelly_pm_bl0942.cpp:150-157 | a packet is taken exactly when ReadReg accepts it and its header is 0x55; the readings do not change |
| Bl0942.Bl0942PowerMeter.GetPowerW | src/BL0942/shelly_pm_bl0942.cpp:100-102 | returns the stored active power |
| Bl0942.Bl0942PowerMeter.GetEnergyWH | src/BL0942/shelly_pm_bl0942.cpp:104-106 | returns the stored energy |
| Ds18xxx.SupportedSpec | src/DS18XXX/shelly_temp_sensor_ow.cpp:54-80 | the sensors kept are exactly the supported devices on the bus |
| Ds18xxx.DiscoveryStopsEarly | src/DS18XXX/shelly_temp_sensor_ow.cpp:58-60 | as written an unsupported device ahead of a DS18B20 ends discovery with no sensor, while the supported devices are that DS18B20 |
| Ds18xxx.DiscoverAll | src/DS18XXX/shelly_temp_sensor_ow.cpp:54-80 | the sensors found are the supported devices in bus order |
| Ds18xxx.Crc8Residue | src/DS18XXX/shelly_temp_sensor_ow.cpp:137-143 | eight bytes followed by their CRC-8 have CRC zero, the property the scratchpad check relies on |
| Ds18xxx.LowerHexRoundTrip | src/DS18XXX/shelly_temp_sensor_ow.cpp:132-133 | the serial number printed with %llx reads back as the serial and has no leading zero |
| Ds18xxx.AltHexByteRoundTrip | src/DS18XXX/shelly_temp_sensor_ow.cpp:140-142 | a CRC byte printed with %#02x reads back as that byte |
| Ds18xxx.ReadScratchpadNamesSensor | src/DS18XXX/shelly_temp_sensor_ow.cpp:129-145 | every failed read starts with the sensor's serial number and ": ", and the serial reads back from it; a CRC mismatch reports the computed and the received CRC |
| Ds18xxx.ScratchpadRoundTrip | src/DS18XXX/shelly_temp_sensor_ow.cpp:129-145 | a scratchpad sent with its CRC reads back unchanged, and any nine bytes whose last is not the CRC of the others are refused with DATA_LOSS |
| Ds18xxx.ResolutionFieldMisread | src/DS18XXX/shelly_temp_sensor_ow.hpp:69-74 | as written the resolution is read from bits 0-1, which a sensor always reports as 1, so every sensor reads as 12 bits and 750 ms; bits 5-6 give back the resolution set (9 bits: 94 ms) |
| Ds18xxx.Resolution | src/DS18XXX/shelly_temp_sensor_ow.cpp:188-190 | the resolution is 9 to 12 bits |
| Ds18xxx.ConversionTimeSpec | src/DS18XXX/shelly_temp_sensor_ow.cpp:192-203 | conversion takes 94 to 750 ms, 750 exactly at 12 bits, grows with the resolution and doubles with each extra bit (94 standing for 93.75) |
| Ds18xxx.TempSensorDs18xxx.constructor | src/DS18XXX/shelly_temp_sensor_ow.cpp:82-90 | a new sensor reports UNAVAILABLE "<serial>: Not updated yet", with a 750 ms conversion time and no timer running |
| Ds18xxx.TempSensorDs18xxx.ReadScratchpadBytes | src/DS18XXX/shelly_temp_sensor_ow.cpp:129-145 | the result is ReadScratchpad's: UNAVAILABLE when the bus reset fails, DATA_LOSS on a CRC mismatch, otherwise the scratchpad; the read command is sent only after a reset |
| Ds18xxx.TempSensorDs18xxx.Init | src/DS18XXX/shelly_temp_sensor_ow.cpp:95-109 | a failed scratchpad read becomes the result and the returned status; a good one sets the conversion time from its configuration |
| Ds18xxx.TempSensorDs18xxx.StartUpdating | src/DS18XXX/shelly_temp_sensor_ow.cpp:111-114 | a pending read is cancelled and the measurement timer runs every `interval`; it also runs at once, so the first conversion starts immediately, or the reading becomes "bus reset failed" |
| Ds18xxx.TempSensorDs18xxx.GetTemperature | src/DS18XXX/shelly_temp_sensor_ow.cpp:116-118 | returns the last result |
| Ds18xxx.TempSensorDs18xxx.UpdateTemperatureCB | src/DS18XXX/shelly_temp_sensor_ow.cpp:177-186 | a failed bus reset becomes the result; otherwise a conversion is started and the read is scheduled after the conversion time |
| Ds18xxx.TempSensorDs18xxx.ReadTemperatureCB | src/DS18XXX/shelly_temp_sensor_ow.cpp:156-175 | the result is ReadScratchpad's; a good scratchpad sets the conversion time and tells the notifier when there is one |
| Ds18xxx.MeasurementCycle | src/DS18XXX/shelly_temp_sensor_ow.cpp:156-186 | on a healthy bus a new sensor schedules its read 750 ms after starting a conversion and then reports the scratchpad it was sent |
| Hap.Accessory.constructor | src/shelly_hap_chars.cpp:61-62 | an accessory with its id and whether its server exists, the two things an event needs from it |
| Hap.Characteristic.String | src/shelly_hap_chars.cpp:67-78 | a string characteristic with its iid, maximum length and initial value, not yet in a service |
| Hap.Characteristic.UInt8 | src/shelly_hap_chars.cpp:30-41 | an integer characteristic with its iid and value, not yet in a service |
| Hap.Characteristic.SetParent | src/shelly_hap_chars.cpp:50-52 | the parent service is set; the value is kept |
| Hap.Characteristic.SetValue | src/shelly_hap_chars.cpp:87-89 | the value is replaced; the parent is kept |
| Hap.Characteristic.Value | src/shelly_hap_chars.cpp:83-85 | returns the value |
| Hap.Characteristic.HandleRead | src/shelly_hap_chars.cpp:92-105 | as much of the value as fits before the terminating NUL is copied, then the NUL; the rest of the buffer is untouched |
| Hap.Characteristic.RaiseEvent | src/shelly_hap_chars.cpp:58-65 | an event is raised exactly when the characteristic has a parent service whose accessory has a server, naming the characteristic, the service (none for iid 0) and the accessory |
| Hap.Terminated | src/shelly_hap_service.cpp:42-48 | the library's characteristic list is one longer than the service's characteristics |
| Hap.Service.constructor | src/shelly_hap_service.cpp:27-33 | a service with its iid, no name, no characteristics and no links |
| Hap.Service.HapService | src/shelly_hap_service.cpp:66-69 | no HAP service for iid 0, otherwise the service with that iid |
| Hap.Service.AddChar | src/shelly_hap_service.cpp:42-48 | the characteristic is appended and the library's list is the characteristics followed by one null entry |
| Hap.Service.AddNameChar | src/shelly_hap_service.cpp:50-56 | a new 64-character string characteristic holding the name is appended and the name is recorded |
| Hap.Service.AddLink | src/shelly_hap_service.cpp:58-64 | a nonzero iid is appended to the links, which stay zero-terminated with no zero before the end; iid 0 is not linked |
| Hap.NewServiceLabelService | src/shelly_hap_service.cpp:71-84 | a new service label service at iid 0x1030 holding one integer characteristic at the next iid that reads the namespace |
| Hap.NameCharRoundTrip | src/shelly_hap_service.cpp:50-56 | a name characteristic added to a service with a server raises an event naming itself, its service and the accessory, and reads back as the name followed by NUL |
| HapInput.AidSpec | src/shelly_hap_input.cpp:194-211 | only the disabled type (and invalid ones) have AID base 0; the other bases are multiples of 0x100 from 0x400 up and distinct, so inputs with ids below 0x100 get distinct accessory ids |
| HapInput.TypeChangeBackIgnored | src/shelly_hap_input.cpp:173-180 | as written, changing a stateless switch to a motion sensor and back before the restart leaves the motion sensor stored, since the second request is compared with the running type; as intended the stateless switch is stored again |
| HapInput.SetInputConfigSpec | src/shelly_hap_input.cpp:168-187 | a type that is present and invalid is refused; otherwise the stored type stays valid, present fields are stored, and a restart is asked for exactly when the stored configuration changed |
| HapInput.ShellyInput.constructor | src/shelly_hap_input.cpp:74-85 | an invalid stored type (left by a downgrade) becomes a stateless switch, both running and stored; a valid one is kept |
| HapInput.ShellyInput.Init | src/shelly_hap_input.cpp:98-150 | without an input the error "input is required" and no component; otherwise the component of the running type is created, the input's inversion is set from the configuration and the component's own Init result is returned |
| HapInput.ShellyInput.GetAIDBase | src/shelly_hap_input.cpp:194-211 | the AID base of the running type |
| HapInput.ShellyInput.SetConfig | src/shelly_hap_input.cpp:168-187 | a refused type returns the error and changes nothing; otherwise the stored configuration becomes SetInputConfig's and the running component's status and restart flag are passed on |
| HapInput.ShellyInput.SetState | src/shelly_hap_input.cpp:189-192 | always UNIMPLEMENTED |
| SysLedBtn.Level | src/shelly_sys_led_btn.cpp:63-107 | the LED condition is one of eight priority levels |
| SysLedBtn.PatternsDistinct | src/shelly_sys_led_btn.cpp:63-107 | different conditions show different patterns; the LED is off only when there is nothing to show and steady on only while the button is held |
| SysLedBtn.PriorityOrder | src/shelly_sys_led_btn.cpp:63-90 | identify, then the held button, then Wi-Fi connecting, then OTA decide the pattern whatever the less urgent conditions are |
| SysLedBtn.FromBits | src/shelly_sys_led_btn.cpp:148-154 | writing the low n bits back gives n switch states |
| SysLedBtn.Inc | src/shelly_sys_led_btn.cpp:139-154 | one cycling step keeps the number of switches |
| SysLedBtn.IncSpec | src/shelly_sys_led_btn.cpp:139-154 | a single press adds one to the number the switch outputs show, all on wrapping to all off |
| SysLedBtn.FromBitsBits | src/shelly_sys_led_btn.cpp:139-154 | reading the switches as a number and writing its bits back changes nothing |
| SysLedBtn.FromBitsInc | src/shelly_sys_led_btn.cpp:139-154 | adding one to the number and writing its low bits back is the bit-level cycling step |
| SysLedBtn.SysLed.constructor | src/shelly_sys_led_btn.cpp:35-39 | no LED pin, LED disabled, no identify pending, no pattern cached and no button |
| SysLedBtn.SysLed.InitSysLED | src/shelly_sys_led_btn.cpp:49-54 | the LED pin and polarity are stored, the LED enabled and the identify callback registered |
| SysLedBtn.SysLed.InitSysBtn | src/shelly_sys_led_btn.cpp:167-184 | a negative pin sets up nothing; otherwise the button is an input with the given on level, pulled down when active high and up otherwise, with a 10 s long press |
| SysLedBtn.SysLed.CheckSysLED | src/shelly_sys_led_btn.cpp:56-129 | without an enabled LED nothing changes; otherwise one identify step is counted down, a blinking pattern is programmed (swapped for an active-low LED) only when it differs from the cached one, steady on clears the cache and drives the LED, and no pattern releases the pin |
| SysLedBtn.SysLed.Identify | src/shelly_sys_led_btn.cpp:41-47 | three identify blinks are requested and the first is shown at once when the LED is enabled |
| SysLedBtn.SysLed.ButtonHandler | src/shelly_sys_led_btn.cpp:131-165 | a change refreshes the LED exactly as one CheckSysLED step (LedRefreshed), a single press steps the switch outputs as Inc says, a long press starts the reset sequence; any other event leaves every LED field as it was, and no event touches the pin set-up, the button or the identify registration |
| SysLedBtn.CycleSwitches | src/shelly_sys_led_btn.cpp:138-156 | the new output states are Inc of the old ones |
| SysLedBtn.ReadSwitches | src/shelly_sys_led_btn.cpp:139-145 | the first loop reads the switches as the number with switch i as bit i |
| SysLedBtn.WriteSwitches | src/shelly_sys_led_btn.cpp:147-154 | the second loop gives switch i bit i of the number |
| ShellyMain.FlagsSpec | src/shelly_main.cpp:411-417 | setting service flags turns the given bits on and clearing turns them off, leaving every other bit as it was; clearing what was just set restores flags that did not have those bits |
| ShellyMain.Service.GetServiceFlags | src/shelly_main.cpp:407-409 | returns the current service flags |
| ShellyMain.Service.SetServiceFlags | src/shelly_main.cpp:411-413 | the flags become the old flags with the given bits set; the server state, accessories and outputs are unchanged |
| ShellyMain.Service.ClearServiceFlags | src/shelly_main.cpp:415-417 | the flags become the old flags with the given bits cleared; nothing else changes |
| ShellyMain.OverheatHysteresis | src/shelly_main.cpp:382-398 | only the overheat bit ever changes; between the off and on thresholds the flags stay as they are; at or above the on threshold the bit ends set and at or below the off threshold it ends cleared |
| ShellyMain.Service.CheckOverheat | src/shelly_main.cpp:382-398 | the flags follow the hysteresis; on entering overheat every output is switched off and the server is stopped (components destroyed if it was idle); otherwise outputs and server are untouched |
| ShellyMain.OverheatBlocksStart | src/shelly_main.cpp:282-284 | once overheat is entered the flags are non-zero, so StartService refuses, and they stay so for every later temperature above the off threshold |
| ShellyMain.Service.constructor | src/shelly_main.cpp:111-119 | the service starts with no flags (s_service_flags = 0), an idle server and no accessories |
| ShellyMain.Service.StopService | src/shelly_main.cpp:354-362 | an idle server has its accessories destroyed; a running one is told to stop and keeps its accessories until it reaches idle |
| ShellyMain.Service.ServerStopped | src/shelly_main.cpp:373-380 | when the server reports idle, all accessories are destroyed |
| ShellyMain.Service.StartService | src/shelly_main.cpp:281-344 | any service flag refuses the start; a server that is not idle counts as started; otherwise the accessories are created once (the primary plus the bridged ones), and the server starts exactly when the accessory is paired or provisioned, in single-server mode for one accessory and bridge mode otherwise |
| ShellyMain.FirstWithIdSpec | src/shelly_main.cpp:150-155 | the search finds nothing exactly when no component has the id, and otherwise the first component with it |
| ShellyMain.FindById | src/shelly_main.cpp:150-155 | the loop returns the first index whose component has the id, or nothing when none has it |
| ShellyMain.NewFsPath | src/shelly_main.cpp:667-668 | the path tested is "<new fs>/<file>" when it fits, and never longer than the 98 characters the buffer takes |
| ShellyMain.ShouldCopySpec | src/shelly_main.cpp:633-672 | a file on the skip list is never copied; any other file whose path fits is copied exactly when the new filesystem does not have it |
| ShellyMain.ShouldCopyFile | src/shelly_main.cpp:633-672 | the loop over the skip list and the existence test give the should-copy decision |
| ShellyMain.Step | src/shelly_main.cpp:519-600 | each migration step moves the configuration version up by exactly one and keeps the switch settings well formed; the first one resets every setting but Wi-Fi to the vendor's and then sets "initial state: last" exactly on the switches whose vendor setting persists the state |
| ShellyMain.FirstMigrationResets | src/shelly_main.cpp:522-540 | two configurations at version 0 migrate to the same result: the first migration keeps nothing of the stored settings but Wi-Fi |
| ShellyMain.MigrateSpec | src/shelly_main.cpp:519-602 | a stored version from 0 to 5 is migrated to version 6, any other version is left unchanged, and migrating a migrated configuration changes nothing |
| ShellyMain.MigrateKeepsNames | src/shelly_main.cpp:554-565 | the name, host name and device id are rewritten only when migrating from version 2 or below |
| ShellyMain.MigrateConfig | src/shelly_main.cpp:519-602 | the method's chain of version checks computes the migration; it reports a change exactly when the stored version was 0 to 5 and never asks for a reboot |
| ShellyMain.RouteSpec | src/shelly_main.cpp:676-692 | only GET (in any letter case) of "/", "/ota" or "/favicon.ico" is served: the first two give the gzipped web UI as text/html, the last the gzipped icon |
| ShellyMain.HTTPHandler | src/shelly_main.cpp:674-701 | non-request events are ignored; an unrouted request gets a 404; a routed one is served gzipped and reports the client address |
| RpcService.CheckName | src/shelly_rpc_service.cpp:254-263 | the loop accepts a name exactly when it has at most 64 characters, all ASCII letters, digits or '-' |
| RpcService.SystemSettingsSpec | src/shelly_rpc_service.cpp:231-276 | a system settings request is accepted exactly when its name (if any) is valid and its sys_mode is absent or in range; a rejected request changes nothing; an accepted one sets each field it carries, keeps the others, asks for a restart exactly when the mode or name changed, and agrees with the code as written |
| RpcService.RejectedModeSaved | src/shelly_rpc_service.cpp:241-273 | as written a request with a new mode and a bad name is refused with 400 but its mode is already live, and the next accepted request saves that mode without a restart; the corrected handler leaves the store unchanged |
| RpcService.FirstComponentSpec | src/shelly_rpc_service.cpp:279-289 | the addressed component is missing exactly when no component has that id and type, and otherwise it is the first one that does |
| RpcService.FindComponent | src/shelly_rpc_service.cpp:279-289 | the dispatch loop finds the first component with the id and type |
| RpcService.SetStateHandler | src/shelly_rpc_service.cpp:305-333 | a request without state fails with 400; otherwise it goes to the first matching component and replies with its result, or with "component not found" |
| RpcService.InjectInputEventSpec | src/shelly_rpc_service.cpp:335-368 | an event is injected exactly when the id is non-negative, the event is single, double or long, and an input has the id; it goes to the first such input, and change and reset are never injected; a missing id or event gets the "required" error |
| RpcService.UpdateEndpoints | src/shelly_rpc_service.cpp:417-435 | every endpoint except "/" and the RPC prefix gets the password file and domain, or loses them when the file name is empty; the others are untouched and none is added or removed |
| RpcService.AuthState.constructor | src/shelly_rpc_service.cpp:404-412 | the authentication state holds the given settings, password file and endpoints |
| RpcService.AuthState.SetAuthFileName | src/shelly_rpc_service.cpp:404-438 | both password file settings, both domains and the ACL are written; a failed save is reported before the endpoints are touched; otherwise every endpoint is updated and OK is returned |
| RpcService.AuthState.SetAuthHandler | src/shelly_rpc_service.cpp:440-488 | user, realm and ha1 are required in that order and the user must be "admin"; an empty ha1 turns authentication off and removes the password file when the save worked; a 64-character ha1 writes "admin:realm:ha1" and turns authentication and the ACL on; after a successful save every endpoint gets the new password file and realm (none for an empty ha1) as SetAuthFileName does, and a failed save leaves the endpoints alone; any other length, or a password file that cannot be opened, is refused with nothing changed |
| RpcService.ConfigService.constructor | src/shelly_rpc_service.cpp:216-230 | the live and saved settings start equal, with no restart done |
| RpcService.ConfigService.SetConfigHandler | src/shelly_rpc_service.cpp:216-303 | a request without config fails; id and type both -1 apply the system settings; otherwise the first matching component's result is replied, or "component not found"; a success saves the configuration and restarts the service exactly when a change needs it |

## Left out

- Network, process and file I/O are not modelled. This covers zeroconf discovery, HTTP requests and servers, sockets, UART and one-wire transfers, GPIO, timers and the file system. Their results are parameters and what is sent is recorded in the state.
- Logging, argument parsing and the YAML credential file of the flashing tools are not modelled. They feed no decision.
- The regular-expression engine is not part of this model. Where a pattern is fixed (parse_version, parse_stock_version, parseVersion, the digest header) it is written out as a matcher over index spans. Where the pattern comes from data (update_homekit's and checkUpdate's model patterns) the match is a parameter, and so is a RegExp constructor that throws on a bad pattern.
- Unicode case folding (IGNORECASE) and Unicode digits (`\d`) are not modelled: the matchers take ASCII letters and the ASCII digits 0-9.
- Floating point is not modelled bit for bit:
  - window-covering positions and tilts are `real`, and the motion and calibration maths of its RunOnce is left out;
  - the auto-off delays and event timestamps are `real`;
  - autoOffDelayValid's float comparison is stated on reals, and parseInt on numbers beyond double precision is not modelled;
  - the DS18XXX temperature scaling to °C is not modelled: a reading is kept as its scratchpad;
  - the BL0942 power and energy values are whatever the stored fields hold, since the source does not yet process the measurement packet.
- The write_flash uptime wait before flashing is not modelled. It is a timing loop that changes no decision.
- FlashDevice.WaitForReboot: the device's answers are a finite sequence, so running out of answers ends the wait. The source keeps polling instead.
- FlashDevice.Device.ParseLocalFile: requires a local file name, since the flashing tool calls it only when one is given.
- The HomeKit library (accessory server, pairing state, key-value store, configuration number) is not part of this model. Its answers are parameters.
- The server start is only recorded: the server mode and whether a bridge or a single accessory starts. Accessory creation (CreateComponents) is reduced to the number of bridged accessories it adds.
- SanitizeSysConfig's loading of the configuration levels and MAC-placeholder expansion are not part of this model. Their results, the vendor settings with the device id expanded and the expanded default device id, are parameters of the migration.
- ShellyMain.MigrateConfig: requires at most two switches (sw1, sw2), the most any device configures.
- ShellyMain.Step: when migrating from version 0, requires the vendor settings to have well-formed switch lists, since they come from the same firmware's configuration schema. MigrateConfig and Migrate have the same precondition.
- LegacyFlashTool.PyInt: int() also strips Unicode white space and reads Unicode decimal digits. Only the ASCII ones are modelled.
- ShellyWifiConfig.ScreenPassword: the source replaces every byte of the UTF-8 password with '*', the model every character. The two agree on ASCII passwords; a multi-byte character gives several '*' in the source and one in the model.
- JSON parsing with json_scanf and JSON output are not modelled. A request arrives as its parsed fields, with -1, -2 or None standing for an absent field as in the source.
- ShellyWifiConfig.Quote: %Q's escaping of quotes, backslashes and control characters is not modelled; the string is only put between double quotes, so the JSON text agrees with the source only for strings without such characters.
- RpcService.ConfigService.SetConfigHandler: Mode::kMax is a parameter, because it depends on the device. The component branch's own configuration change lives in that component's SetConfig.
- Input.Input.RemoveHandler: requires an index below the table size, since the source indexes the handler table without a check.
- WindowCovering.WindowCovering.SetState: the RunOnce calls it makes after stopping at target -1 are not modelled.
- RunOnce (the calibration and power-meter driven motion), HAPSetTgtPos/HAPSetTgtTilt and HandleInputEvent01/HandleInputEvent2 of the window covering are not part of this model.
- WifiConfigImpl.WifiConfigManager.SetState: the immediate re-run of Process that it schedules is not modelled. The next Process call is a separate step.
- WifiConfigImpl.WifiConfigManager.ReportClientRequest: requires a non-empty AP address, since the source's length-1 would underflow.
- The Wi-Fi driver calls (connect, disconnect, AP setup) are not modelled. Their verdicts are parameters.
- Bl0942.Bl0942PowerMeter.ReadReg: requires len >= 1, since the source reads rx_buf[len-1].
- Bl0942.Bl0942PowerMeter.WriteReg: requires a value below 2^32, the range of its uint32_t parameter.
- The one-wire library's CRC-8 is not part of this model. Ds18xxx uses the standard Maxim CRC-8 algorithm it implements.
- Ds18xxx.TempSensorDs18xxx.Init: takes the scratchpad as nine bytes, the size the read always fills. The same holds for ReadScratchpadBytes and ReadTemperatureCB.
- Ds18xxx.ReadScratchpad: the failed-read log line of ReadTemperatureCB is not modelled; the status messages follow C's printf for %llx and %#02x.
- Ds18xxx.DiscoverAll: each sensor's Init result is ignored, as in the source. The power-supply query feeds only a log line and is not modelled.
- Hap.Service.AddNameChar: the service's name is a copy of the characteristic's value. In the source it points into that value, so a later write to the name characteristic also renames the service; the model does not follow that aliasing.
- Hap.Characteristic.HandleRead: requires a buffer of at least one byte, since maxValueBytes-1 would underflow.
- The HAP characteristic kinds other than string and uint8 are not part of this model. Only the string read callback and the raise-event guard are modelled.
- SysLedBtn.SysLed.InitSysLED: requires that no pattern is cached yet, since it runs once at boot.
- SysLedBtn.SysLed.ButtonHandler: at most 32 switches, matching the 32-bit counter. SysLedBtn.CycleSwitches has the same bound.
- The long-press reset sequence of the system button is not part of this model.

## Findings

| source | as written | input that shows it | evidently intended | confidence | as-written member | corrected member |
|---|---|---|---|---|---|---|
| src/shelly_input.cpp:48-52 | CallHandlers calls every slot of the handler table. RemoveHandler leaves an empty callback in the slot. | Any event after one RemoveHandler: the empty slot is called and throws | empty slots are skipped | high, not executed | Input.DispatchAsWritten, Input.RemovedHandlerBreaksDispatch | Input.Dispatch, Input.Input.CallHandlers |
| src/shelly_hap_garage_door_opener.cpp:228-244 | SetCurState's `obst_notify` is never initialised. It is only set when leaving or entering Stopped. | A change from Open to Closing: the notification depends on stack garbage | notify only when leaving or entering Stopped | high, not executed | GarageDoor.ObstNoticeAsWritten, GarageDoor.SpuriousObstructionNotice | GarageDoor.NotifiesObstruction, GarageDoor.SetCur |
| src/shelly_switch.cpp:130, src/shelly_hap_light_bulb.cpp:328 | SetConfig compares the stored name with the requested name even when the request has none, so strcmp is given a null pointer | A SetConfig request without a `name` field | a missing name leaves the stored name alone | medium, not executed | Common.NameChangeAsWritten, Common.MissingNameUndefined | Common.NameChange, Common.NewName |
| src/wifi_config/shelly_wifi_config_impl.cpp:132 | SetConfig assigns `ap_config_changed_` rather than or-ing it | The same AP name change sent twice before Process runs: the second call clears the flag and the AP keeps its old name | a pending AP change stays pending | high, not executed | WifiConfigImpl.SetConfigAsWritten, WifiConfigImpl.RepeatedSetConfigLosesApChange | WifiConfigImpl.SetConfigF, WifiConfigImpl.SetConfigSpec |
| src/wifi_config/shelly_wifi_config_impl.cpp:154-171 | ResetConfig leaves `act_` pointing at the pending configuration | A reset during a connection attempt with a station enabled: the attempt succeeds and commits the pending configuration, undoing the reset | the reset configuration becomes the active one | medium, not executed | WifiConfigImpl.ResetAsWritten, WifiConfigImpl.ResetDuringAttemptUndone | WifiConfigImpl.ResetF, WifiConfigImpl.ResetSpec |
| src/BL0942/shelly_pm_bl0942.cpp:137-146 | ReadReg's checksum loop also adds the received checksum byte | The all-zero measurement packet with header 0x55 and its correct checksum 168 is refused | the checksum covers the command, the register and the bytes before the checksum | high, not executed | Bl0942.ReadAcceptedAsWritten, Bl0942.ReadCheckRefusesCorrectFrames, Bl0942.ZeroPacketRefused | Bl0942.ReadAccepted, Bl0942.Bl0942PowerMeter.ReadReg |
| src/BL0942/shelly_pm_bl0942.cpp:131-133 | The wait is `roundf(len * 8 / baud) * 1e3`, whose division is on integers | len = 22 gives 0 ms instead of about 19 ms | wait for the transfer time in milliseconds | high, not executed | Bl0942.ReadDelayAsWritten | Bl0942.ReadDelayMs, Bl0942.ReadDelaySpec |
| src/DS18XXX/shelly_temp_sensor_ow.cpp:54-80 | The discovery loop ends at the first device that is not a supported sensor | A bus with a DS2401 ID chip (family 0x01) ahead of a DS18B20: no sensor is found | every supported device is kept | medium, not executed | Ds18xxx.DiscoverAsWritten, Ds18xxx.DiscoveryStopsEarly | Ds18xxx.Supported, Ds18xxx.DiscoverAll |
| src/DS18XXX/shelly_temp_sensor_ow.hpp:69-74 | The configuration byte's bit-fields are members of a union, so each one reads from bit 0 | A sensor set to 9-bit resolution (configuration 0x1F) reads as 12-bit with a 750 ms conversion time | resolution taken from bits 5-6 | high, not executed | Ds18xxx.ResolutionBitsAsWritten, Ds18xxx.ResolutionFieldMisread | Ds18xxx.ResolutionBits, Ds18xxx.Resolution |
| src/shelly_hap_input.cpp:173-180 | SetConfig compares the requested type with the type the input started with, not with the stored type | A stateless switch (type 3) set to motion sensor (type 7), then back to type 3 before the restart: the second request is ignored and type 7 stays stored | compare with the stored type | high, not executed | HapInput.SetConfigAsWritten, HapInput.TypeChangeBackIgnored | HapInput.SetInputConfig, HapInput.SetInputConfigSpec |
| src/shelly_rpc_service.cpp:241-273 | sys_mode is written to the live configuration before the name is checked, and an invalid name returns 400 afterwards | Request {sys_mode: 1, name: "bad name"} then {debug_en: true}: the rejected mode is saved by the second request, with no restart | a rejected request changes nothing | high, not executed | RpcService.SystemAsWritten, RpcService.RejectedModeSaved | RpcService.SystemSettings, RpcService.SystemSettingsSpec |
| src/shelly_hap_light_bulb.cpp:212-222, src/shelly_hap_light_bulb.hpp:80 | SetHue raises the hue characteristic's event without checking the pointer, which is null unless the bulb is a colour bulb. The other setters check it | RPC SetState with `hue: 10` on a white or CCT bulb whose stored hue is 0: a null pointer is dereferenced | notify the hue only where the characteristic exists | high, not executed | LightBulb.SetHueAsWritten, LightBulb.HueOnWhiteExample | LightBulb.SetHueF, LightBulb.LightBulb.SetHue |
