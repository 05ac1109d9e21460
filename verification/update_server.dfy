/** The redirecting update server for stock Shelly devices: the mapping from
    a stock device ID to the HomeKit firmware model, and the per-address
    request log with its age-based pruning. */
module UpdateServer {
  import opened Wrappers
  import opened Text

  /** The model name that marks a stock model as not yet supported. */
  const UnsupportedModel := "x"

  /** Why no HomeKit model could be named for a request. */
  datatype ModelError =
    | NoModelInformation
    | UnsupportedDeviceId(deviceId: string)
    | NotYetSupported(model: string)
    | UnknownModel(model: string)

  /** Go's map index: a missing key reads as the empty string. */
  function Lookup(models: map<string, string>, key: string): string {
    if key in models then models[key] else ""
  }

  /** The stock model key of a device ID: the first space-separated word,
      up to its first '-'. */
  function DeviceModel(deviceId: string): string {
    Split(Split(deviceId, ' ')[0], '-')[0]
  }

  /** StockModelMap.GetHomeKitModel: the HomeKit model for the firmware
      version and device ID headers of a stock update request. */
  function GetHomeKitModel(models: map<string, string>, fwVersion: string, deviceId: string)
    : (r: Result<string, ModelError>)
    ensures r.Ok? ==> r.value != UnsupportedModel && r.value != ""
    ensures r.Ok? ==> DeviceModel(deviceId) in models && r.value == models[DeviceModel(deviceId)]
  {
    if fwVersion == "-" then Err(NoModelInformation)
    else
      var parts := Split(deviceId, ' ');
      if |parts| != 2 then Err(UnsupportedDeviceId(deviceId))
      else
        var devModel := Split(parts[0], '-')[0];
        var hkModel := Lookup(models, devModel);
        if hkModel == UnsupportedModel then Err(NotYetSupported(devModel))
        else if hkModel == "" then Err(UnknownModel(devModel))
        else Ok(hkModel)
  }

  /** A request without model information ("-" as firmware version) is
      refused whatever the device ID. */
  lemma {:induction false} DashVersionRefused(models: map<string, string>, deviceId: string)
    ensures GetHomeKitModel(models, "-", deviceId) == Err(NoModelInformation)
  {
  }

  /** The first piece of a split is the text before the first separator. */
  lemma {:induction false} SplitHead(s: string, c: char)
    ensures Split(s, c)[0] == BeforeFirst(s, c)
  {
  }

  /** A device ID of exactly two space-separated words `id model`, whose
      first word is `key` optionally followed by '-' and more text, is
      looked up under `key`: "x" refuses it as unsupported, a missing (or
      empty) entry as unknown, and any other entry is the answer. */
  lemma {:induction false} GetHomeKitModelByKey(
    models: map<string, string>, fwVersion: string, key: string, suffix: string, word: string)
    requires fwVersion != "-"
    requires ' ' !in key && ' ' !in suffix && ' ' !in word && '-' !in key
    requires suffix == [] || suffix[0] == '-'
    ensures DeviceModel(key + suffix + " " + word) == key
    ensures var r := GetHomeKitModel(models, fwVersion, key + suffix + " " + word);
      && (key !in models || models[key] == "" ==> r == Err(UnknownModel(key)))
      && (key in models && models[key] == UnsupportedModel ==> r == Err(NotYetSupported(key)))
      && (key in models && models[key] !in {"", UnsupportedModel} ==> r == Ok(models[key]))
  {
    var first := key + suffix;
    assert ' ' !in first by {
      forall i | 0 <= i < |first| ensures first[i] != ' ' {
        if i < |key| { assert first[i] == key[i]; } else { assert first[i] == suffix[i - |key|]; }
      }
    }
    assert key + suffix + " " + word == first + [' '] + word;
    SplitAt(first, ' ', word);
    SplitNone(word, ' ');
    assert Split(first + [' '] + word, ' ') == [first, word];
    if suffix == [] {
      assert first == key;
      SplitNone(key, '-');
    } else {
      assert first == key + ['-'] + suffix[1..];
      SplitAt(key, '-', suffix[1..]);
    }
  }

  /** A device ID that does not have exactly two space-separated words is
      refused as unsupported. */
  lemma {:induction false} DeviceIdNeedsTwoWords(models: map<string, string>, fwVersion: string, deviceId: string)
    requires fwVersion != "-" && |Split(deviceId, ' ')| != 2
    ensures GetHomeKitModel(models, fwVersion, deviceId) == Err(UnsupportedDeviceId(deviceId))
  {
  }

  /** One line of an address's log: when it was written and what it says. */
  datatype LogEntry = LogEntry(ts: int, msg: string)

  /** The entries logged for an address; a Go map yields an empty slice
      for a missing key. */
  function EntriesOf(logs: map<string, seq<LogEntry>>, addr: string): seq<LogEntry> {
    if addr in logs then logs[addr] else []
  }

  /** The number of leading entries that are not newer than `threshold`. */
  function ExpiredPrefix(he: seq<LogEntry>, threshold: int): (n: nat)
    ensures n <= |he|
    decreases |he|
  {
    if he == [] || threshold < he[0].ts then 0
    else 1 + ExpiredPrefix(he[1..], threshold)
  }

  /** ExpiredPrefix counts exactly the leading run of expired entries. */
  lemma {:induction false} ExpiredPrefixSpec(he: seq<LogEntry>, threshold: int)
    ensures forall i :: 0 <= i < ExpiredPrefix(he, threshold) ==> he[i].ts <= threshold
    ensures ExpiredPrefix(he, threshold) < |he| ==> threshold < he[ExpiredPrefix(he, threshold)].ts
    decreases |he|
  {
    if he != [] && he[0].ts <= threshold {
      ExpiredPrefixSpec(he[1..], threshold);
      var n := ExpiredPrefix(he, threshold);
      forall i | 0 <= i < n ensures he[i].ts <= threshold {
        if i > 0 { assert he[i] == he[1..][i - 1]; }
      }
    }
  }

  /** What cleanupLogs leaves for one address: None when the key is
      deleted, else the remaining entries. */
  function Pruned(he: seq<LogEntry>, threshold: int): Option<seq<LogEntry>> {
    var n := ExpiredPrefix(he, threshold);
    if n == 0 then Some(he)
    else if n < |he| then Some(he[n..])
    else None
  }

  /** The whole log after pruning every address with `threshold`. */
  function PrunedLogs(logs: map<string, seq<LogEntry>>, threshold: int): map<string, seq<LogEntry>> {
    map k | k in logs && Pruned(logs[k], threshold).Some? :: Pruned(logs[k], threshold).value
  }

  /** The log after pruning only the addresses in `done`. */
  function PrunedOn(logs: map<string, seq<LogEntry>>, threshold: int, done: set<string>)
    : map<string, seq<LogEntry>>
  {
    map k | k in logs && (k !in done || Pruned(logs[k], threshold).Some?)
      :: if k in done then Pruned(logs[k], threshold).value else logs[k]
  }

  /** Pruning drops exactly the leading run of expired entries: what is
      left is a suffix of the entries that starts with an entry newer than
      the threshold, unless nothing was expired to begin with. */
  lemma {:induction false} PrunedDropsLeadingExpired(he: seq<LogEntry>, threshold: int)
    ensures Pruned(he, threshold).Some? ==>
      var rest := Pruned(he, threshold).value;
      && rest == he[|he| - |rest|..]
      && (forall i :: 0 <= i < |he| - |rest| ==> he[i].ts <= threshold)
      && (|rest| < |he| ==> threshold < rest[0].ts)
    ensures Pruned(he, threshold).None? <==>
      (he != [] && forall i :: 0 <= i < |he| ==> he[i].ts <= threshold)
  {
    ExpiredPrefixSpec(he, threshold);
  }

  /** An address is removed exactly when it had entries and all of them
      expired; every other address keeps its key. */
  lemma {:induction false} PrunedLogsKeys(logs: map<string, seq<LogEntry>>, threshold: int, k: string)
    ensures k in PrunedLogs(logs, threshold) <==>
      k in logs && !(logs[k] != [] && forall i :: 0 <= i < |logs[k]| ==> logs[k][i].ts <= threshold)
  {
    if k in logs {
      PrunedDropsLeadingExpired(logs[k], threshold);
    }
  }

  /** Pruning twice with the same threshold changes nothing more. */
  lemma {:induction false} PrunedIdempotent(he: seq<LogEntry>, threshold: int)
    requires Pruned(he, threshold).Some?
    ensures Pruned(Pruned(he, threshold).value, threshold) == Pruned(he, threshold)
  {
    var rest := Pruned(he, threshold).value;
    PrunedDropsLeadingExpired(he, threshold);
    if |rest| < |he| {
      assert ExpiredPrefix(rest, threshold) == 0;
    } else {
      assert rest == he;
    }
  }

  /** The log of the update server: request messages per remote address. */
  class UpdateHandler {
    var logs: map<string, seq<LogEntry>>

    /** newUpdateHandler: an empty log. */
    constructor ()
      ensures logs == map[]
    {
      logs := map[];
    }

    /** addLogEntry: appends the message, stamped `now`, to the address's
        entries; every other address is unchanged. */
    method AddLogEntry(remoteAddr: string, msg: string, now: int)
      modifies this
      ensures logs == old(logs)[remoteAddr := EntriesOf(old(logs), remoteAddr) + [LogEntry(now, msg)]]
    {
      logs := logs[remoteAddr := EntriesOf(logs, remoteAddr) + [LogEntry(now, msg)]];
    }

    /** cleanupLogs: prunes every address's entries against `now - maxAge`. */
    method CleanupLogs(maxAge: int, now: int)
      modifies this
      ensures logs == PrunedLogs(old(logs), now - maxAge)
    {
      var threshold := now - maxAge;
      var todo := logs.Keys;
      ghost var done: set<string> := {};
      PrunedOnNone(logs, threshold);
      while todo != {}
        invariant todo + done == old(logs).Keys && todo !! done
        invariant logs == PrunedOn(old(logs), threshold, done)
        decreases |todo|
      {
        var remoteAddr :| remoteAddr in todo;
        PrunedOnStep(old(logs), threshold, done, remoteAddr);
        var he := logs[remoteAddr];
        ghost var before := logs;
        var cutoff := Cutoff(he, threshold);
        if cutoff >= 0 {
          if cutoff < |he| - 1 {
            logs := logs[remoteAddr := he[cutoff + 1..]];
          } else {
            logs := logs - {remoteAddr};
          }
        }
        CleanupStep(old(logs), threshold, done, remoteAddr, cutoff, before, logs);
        todo := todo - {remoteAddr};
        done := done + {remoteAddr};
      }
      PrunedOnAll(old(logs), threshold, done);
    }
  }

  /** How the cutoff index decides the address's remaining entries. */
  lemma {:induction false} CutoffPruned(he: seq<LogEntry>, threshold: int, cutoff: int)
    requires cutoff == ExpiredPrefix(he, threshold) - 1
    ensures cutoff < 0 ==> Pruned(he, threshold) == Some(he)
    ensures 0 <= cutoff < |he| - 1 ==> Pruned(he, threshold) == Some(he[cutoff + 1..])
    ensures 0 <= cutoff && cutoff >= |he| - 1 ==> Pruned(he, threshold) == None
  {
  }

  /** One round of cleanupLogs's outer loop prunes one more address. */
  lemma {:induction false} CleanupStep(
    logs: map<string, seq<LogEntry>>, threshold: int, done: set<string>, k: string, cutoff: int,
    before: map<string, seq<LogEntry>>, after: map<string, seq<LogEntry>>)
    requires k in logs && k !in done && before == PrunedOn(logs, threshold, done)
    requires cutoff == ExpiredPrefix(logs[k], threshold) - 1
    requires cutoff < 0 ==> after == before
    requires 0 <= cutoff < |logs[k]| - 1 ==> after == before[k := logs[k][cutoff + 1..]]
    requires 0 <= cutoff && cutoff >= |logs[k]| - 1 ==> after == before - {k}
    ensures after == PrunedOn(logs, threshold, done + {k})
  {
    PrunedOnStep(logs, threshold, done, k);
    CutoffPruned(logs[k], threshold, cutoff);
    if cutoff < 0 {
      assert before[k := logs[k]] == before;
    }
  }

  /** Before any address is visited the log is as it was. */
  lemma {:induction false} PrunedOnNone(logs: map<string, seq<LogEntry>>, threshold: int)
    ensures PrunedOn(logs, threshold, {}) == logs
  {
  }

  /** After every address is visited the log is fully pruned. */
  lemma {:induction false} PrunedOnAll(logs: map<string, seq<LogEntry>>, threshold: int, done: set<string>)
    requires done == logs.Keys
    ensures PrunedOn(logs, threshold, done) == PrunedLogs(logs, threshold)
  {
  }

  /** Visiting one more address replaces or deletes just its entry. */
  lemma {:induction false} PrunedOnStep(
    logs: map<string, seq<LogEntry>>, threshold: int, done: set<string>, k: string)
    requires k in logs && k !in done
    ensures k in PrunedOn(logs, threshold, done) && PrunedOn(logs, threshold, done)[k] == logs[k]
    ensures var m := PrunedOn(logs, threshold, done);
      PrunedOn(logs, threshold, done + {k}) ==
        match Pruned(logs[k], threshold)
        case None => m - {k}
        case Some(rest) => m[k := rest]
  {
  }

  /** The inner loop of cleanupLogs: the index of the last entry of the
      leading expired run, or -1 when the first entry is newer. */
  method Cutoff(he: seq<LogEntry>, threshold: int) returns (cutoff: int)
    ensures cutoff == ExpiredPrefix(he, threshold) - 1
  {
    cutoff := -1;
    var i := 0;
    assert he[0..] == he;
    while i < |he|
      invariant 0 <= i <= |he| && cutoff == i - 1
      invariant ExpiredPrefix(he, threshold) == i + ExpiredPrefix(he[i..], threshold)
    {
      if threshold < he[i].ts {
        assert he[i..][0] == he[i];
        break;
      }
      cutoff := i;
      assert he[i..][1..] == he[i + 1..];
      i := i + 1;
    }
  }
}
