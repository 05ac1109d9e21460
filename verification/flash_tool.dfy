/** The version rules of the host-side flashing tool `flash-shelly.py`:
    parsing of HomeKit and stock version strings, the "is newer" order, the
    choice of a release for a device, and the decisions taken while waiting
    for a flashed device to come back. */
module FlashTool {
  import opened Wrappers
  import opened Text

  // ---------------------------------------------------------------------
  // parse_version: the expression
  //   ^(\d+).(\d+)(?:.(\d+))?(?:-([a-zA-Z_]*)?(\d*))?$
  // matched with Python's backtracking order. In it `.` is any character
  // but '\n', and `$` matches at the end or before a final '\n'.
  // ---------------------------------------------------------------------

  predicate IsPrChar(c: char) { IsLetter(c) || c == '_' }

  /** Every character from `i` up to `j` may stand in the tag group. */
  predicate PrBetween(s: string, i: nat, j: nat)
    requires i <= j <= |s|
  {
    forall k :: i <= k < j ==> IsPrChar(s[k])
  }

  /** Length of the run of tag characters (`[a-zA-Z_]`) starting at `i`. */
  function PrRun(s: string, i: nat): (n: nat)
    requires i <= |s|
    ensures i + n <= |s|
    decreases |s| - i
  {
    if i == |s| || !IsPrChar(s[i]) then 0 else 1 + PrRun(s, i + 1)
  }

  /** The run holds tag characters only and stops at the end or at a
      character the tag group cannot take. */
  lemma {:induction false} PrRunSpec(s: string, i: nat)
    requires i <= |s|
    ensures PrBetween(s, i, i + PrRun(s, i))
    ensures i + PrRun(s, i) == |s| || !IsPrChar(s[i + PrRun(s, i)])
    decreases |s| - i
  {
    if i < |s| && IsPrChar(s[i]) {
      PrRunSpec(s, i + 1);
    }
  }

  /** `$` at index `u`. */
  predicate AtEnd(s: string, u: nat) {
    u == |s| || (u == |s| - 1 && s[u] == '\n')
  }

  /** A match is described by the lengths of its groups. After the minor
      number come the optional `.N` group (the length of N) and the optional
      `-tagN` group (the lengths of tag and N). */
  datatype Tail = Tail(patch: Option<nat>, dash: Option<(nat, nat)>)

  datatype VersionMatch = VersionMatch(majorLen: nat, minorLen: nat, tail: Tail)

  /** The dash group as `dash` describes it, then `$`, match `s` from `x`. */
  predicate DashAt(s: string, x: nat, dash: Option<(nat, nat)>) {
    x <= |s| &&
    match dash
    case None => AtEnd(s, x)
    case Some(d) =>
      x < |s| && s[x] == '-' && x + 1 + d.0 + d.1 <= |s|
      && PrBetween(s, x + 1, x + 1 + d.0) && DigitsBetween(s, x + 1 + d.0, x + 1 + d.0 + d.1)
      && AtEnd(s, x + 1 + d.0 + d.1)
  }

  /** The tail as `t` describes it matches `s` from `r` to the end. */
  predicate TailAt(s: string, r: nat, t: Tail) {
    r <= |s| &&
    match t.patch
    case None => DashAt(s, r, t.dash)
    case Some(p) =>
      r < |s| && s[r] != '\n' && p >= 1 && r + 1 + p <= |s|
      && DigitsBetween(s, r + 1, r + 1 + p) && DashAt(s, r + 1 + p, t.dash)
  }

  /** `m` is a way for the expression to match all of `s`: digits, any
      character but '\n', digits, then the tail. */
  predicate IsVersionMatch(s: string, m: VersionMatch) {
    var k, j := m.majorLen, m.minorLen;
    1 <= k < |s| && DigitsBetween(s, 0, k) && s[k] != '\n'
    && j >= 1 && k + 1 + j <= |s| && DigitsBetween(s, k + 1, k + 1 + j)
    && TailAt(s, k + 1 + j, m.tail)
  }

  // The search below follows the backtracking order of the regular
  // expression engine: each quantifier takes as much as it can and gives
  // back one character at a time. The functions only search; the lemmas
  // after each one say that what they find is a match.

  /** `(\d*)$` from `w` with at most `d` digits, longest first. */
  function TrySeq(s: string, w: nat, d: nat): (r: Option<nat>)
    requires w + d <= |s|
    ensures r.Some? ==> r.value <= d && AtEnd(s, w + r.value)
  {
    if AtEnd(s, w + d) then Some(d)
    else if d == 0 then None
    else TrySeq(s, w, d - 1)
  }

  /** `-([a-zA-Z_]*)(\d*)$` with the '-' at `x` and a tag of at most `a`
      characters, longest first. */
  function TryPr(s: string, x: nat, a: nat): (r: Option<(nat, nat)>)
    requires x + 1 + a <= |s|
  {
    var w := x + 1 + a;
    match TrySeq(s, w, DigitRun(s, w))
    case Some(e) => Some((a, e))
    case None => if a == 0 then None else TryPr(s, x, a - 1)
  }

  lemma {:induction false} TryPrSound(s: string, x: nat, a: nat)
    requires x < |s| && s[x] == '-'
    requires x + 1 + a <= |s| && PrBetween(s, x + 1, x + 1 + a)
    ensures TryPr(s, x, a).Some? ==> DashAt(s, x, TryPr(s, x, a))
    decreases a
  {
    var w := x + 1 + a;
    DigitRunSpec(s, w);
    if TrySeq(s, w, DigitRun(s, w)).None? && a > 0 {
      TryPrSound(s, x, a - 1);
    }
  }

  /** The optional dash group and `$` from `x`: the group is tried first. */
  function MatchDash(s: string, x: nat): (r: Option<Option<(nat, nat)>>)
    requires x <= |s|
  {
    if x < |s| && s[x] == '-' && TryPr(s, x, PrRun(s, x + 1)).Some? then
      Some(TryPr(s, x, PrRun(s, x + 1)))
    else if AtEnd(s, x) then Some(None)
    else None
  }

  lemma {:induction false} MatchDashSound(s: string, x: nat)
    requires x <= |s|
    ensures MatchDash(s, x).Some? ==> DashAt(s, x, MatchDash(s, x).value)
  {
    if x < |s| && s[x] == '-' {
      PrRunSpec(s, x + 1);
      TryPrSound(s, x, PrRun(s, x + 1));
    }
  }

  /** The patch group `.(\d+)` from `r` with at most `p` digits, longest
      first, followed by the dash group and `$`. */
  function TryPatch(s: string, r: nat, p: nat): (t: Option<Tail>)
    requires r + 1 + p <= |s|
  {
    if p == 0 then None
    else match MatchDash(s, r + 1 + p)
      case Some(dash) => Some(Tail(Some(p), dash))
      case None => TryPatch(s, r, p - 1)
  }

  lemma {:induction false} TryPatchSound(s: string, r: nat, p: nat)
    requires r < |s| && s[r] != '\n'
    requires r + 1 + p <= |s| && DigitsBetween(s, r + 1, r + 1 + p)
    ensures TryPatch(s, r, p).Some? ==> TailAt(s, r, TryPatch(s, r, p).value)
    decreases p
  {
    if p > 0 {
      MatchDashSound(s, r + 1 + p);
      if MatchDash(s, r + 1 + p).None? {
        TryPatchSound(s, r, p - 1);
      }
    }
  }

  /** Everything after the minor number, from `r`: the patch group is tried
      first, then its absence. */
  function MatchTail(s: string, r: nat): (t: Option<Tail>)
    requires r <= |s|
  {
    var withPatch :=
      if r < |s| && s[r] != '\n' then TryPatch(s, r, DigitRun(s, r + 1)) else None;
    if withPatch.Some? then withPatch
    else match MatchDash(s, r)
      case Some(dash) => Some(Tail(None, dash))
      case None => None
  }

  lemma {:induction false} MatchTailSound(s: string, r: nat)
    requires r <= |s|
    ensures MatchTail(s, r).Some? ==> TailAt(s, r, MatchTail(s, r).value)
  {
    if r < |s| && s[r] != '\n' {
      DigitRunSpec(s, r + 1);
      TryPatchSound(s, r, DigitRun(s, r + 1));
    }
    MatchDashSound(s, r);
  }

  /** The minor number after the separator at `k`, with at most `j` digits,
      longest first. */
  function TryMinor(s: string, k: nat, j: nat): (m: Option<VersionMatch>)
    requires k + 1 + j <= |s|
  {
    if j == 0 then None
    else match MatchTail(s, k + 1 + j)
      case Some(t) => Some(VersionMatch(k, j, t))
      case None => TryMinor(s, k, j - 1)
  }

  lemma {:induction false} TryMinorSound(s: string, k: nat, j: nat)
    requires 1 <= k < |s| && DigitsBetween(s, 0, k) && s[k] != '\n'
    requires k + 1 + j <= |s| && DigitsBetween(s, k + 1, k + 1 + j)
    ensures TryMinor(s, k, j).Some? ==>
      IsVersionMatch(s, TryMinor(s, k, j).value) && TryMinor(s, k, j).value.majorLen == k
    decreases j
  {
    if j > 0 {
      MatchTailSound(s, k + 1 + j);
      if MatchTail(s, k + 1 + j).None? {
        TryMinorSound(s, k, j - 1);
      }
    }
  }

  /** The major number with at most `k` digits, longest first. */
  function TryMajor(s: string, k: nat): (m: Option<VersionMatch>)
    requires k <= |s|
  {
    if k == 0 then None
    else
      var found :=
        if k < |s| && s[k] != '\n' then TryMinor(s, k, DigitRun(s, k + 1)) else None;
      if found.Some? then found else TryMajor(s, k - 1)
  }

  lemma {:induction false} TryMajorSound(s: string, k: nat)
    requires k <= |s| && DigitsBetween(s, 0, k)
    ensures TryMajor(s, k).Some? ==> IsVersionMatch(s, TryMajor(s, k).value)
    decreases k
  {
    if k > 0 {
      if k < |s| && s[k] != '\n' {
        DigitRunSpec(s, k + 1);
        TryMinorSound(s, k, DigitRun(s, k + 1));
      }
      TryMajorSound(s, k - 1);
    }
  }

  /** The match Python's `re.search` finds, if there is one. */
  function MatchVersion(s: string): (m: Option<VersionMatch>)
  {
    TryMajor(s, DigitRun(s, 0))
  }

  /** What the search finds is a match of the whole string. */
  lemma {:induction false} MatchVersionSound(s: string)
    ensures MatchVersion(s).Some? ==> IsVersionMatch(s, MatchVersion(s).value)
  {
    DigitRunSpec(s, 0);
    TryMajorSound(s, DigitRun(s, 0));
  }

  // Completeness: whenever the expression can match, the search above
  // finds a match. Only the longest tag, sequence and patch runs can be
  // followed by what the expression needs, so those levels need no search.

  lemma {:induction false} PrRunExactly(s: string, v: nat, n: nat)
    requires v + n <= |s| && PrBetween(s, v, v + n)
    requires v + n == |s| || !IsPrChar(s[v + n])
    ensures PrRun(s, v) == n
    decreases n
  {
    if n > 0 {
      PrRunExactly(s, v + 1, n - 1);
    }
  }

  lemma {:induction false} MatchDashComplete(s: string, x: nat, dash: Option<(nat, nat)>)
    requires DashAt(s, x, dash)
    ensures MatchDash(s, x).Some?
  {
    if dash.Some? {
      var a, d := dash.value.0, dash.value.1;
      var w := x + 1 + a;
      PrRunExactly(s, x + 1, a);
      DigitRunExactly(s, w, d);
      assert TrySeq(s, w, d).Some?;
    }
  }

  lemma {:induction false} MatchTailComplete(s: string, r: nat, t: Tail)
    requires TailAt(s, r, t)
    ensures MatchTail(s, r).Some?
  {
    if t.patch.Some? {
      var p := t.patch.value;
      assert r + 1 + p == |s| || !IsDigit(s[r + 1 + p]);
      DigitRunExactly(s, r + 1, p);
      MatchDashComplete(s, r + 1 + p, t.dash);
    } else {
      MatchDashComplete(s, r, t.dash);
    }
  }

  lemma {:induction false} TryMinorComplete(s: string, k: nat, j: nat, m: VersionMatch)
    requires 1 <= k < |s| && s[k] != '\n' && k + 1 + j <= |s|
    requires IsVersionMatch(s, m) && m.majorLen == k && m.minorLen <= j
    ensures TryMinor(s, k, j).Some?
    decreases j
  {
    if j == m.minorLen {
      MatchTailComplete(s, k + 1 + j, m.tail);
    } else {
      TryMinorComplete(s, k, j - 1, m);
    }
  }

  lemma {:induction false} TryMajorComplete(s: string, k: nat, m: VersionMatch)
    requires k <= |s|
    requires IsVersionMatch(s, m) && m.majorLen <= k
    ensures TryMajor(s, k).Some?
    decreases k
  {
    if k == m.majorLen {
      DigitRunAtLeast(s, k + 1, m.minorLen);
      TryMinorComplete(s, k, DigitRun(s, k + 1), m);
    } else if TryMajor(s, k).None? {
      TryMajorComplete(s, k - 1, m);
    }
  }

  /** The search is complete: a string the expression can match is matched. */
  lemma {:induction false} MatchVersionComplete(s: string, m: VersionMatch)
    requires IsVersionMatch(s, m)
    ensures MatchVersion(s).Some?
  {
    DigitRunAtLeast(s, 0, m.majorLen);
    TryMajorComplete(s, DigitRun(s, 0), m);
  }

  /** What parse_version returns: (major, minor, patch, variant, var_seq).
      `variant` is None when the string has no '-' group, as the regular
      expression's group is. */
  datatype VersionInfo = VersionInfo(major: nat, minor: nat, patch: nat, variant: Option<string>, varSeq: nat)

  /** The tuple parse_version returns when the expression does not match. */
  const Unparsed := VersionInfo(0, 0, 0, Some(""), 0)

  /** The named groups of a match, as `groupdict()` gives them: `pr` and
      `pr_seq` are None when the dash group did not take part. */
  datatype VersionGroups = VersionGroups(
    major: string, minor: string, patch: Option<string>, pr: Option<string>, prSeq: Option<string>)

  function Groups(s: string, m: VersionMatch): (g: VersionGroups)
    requires IsVersionMatch(s, m)
    ensures AllDigits(g.major) && AllDigits(g.minor)
    ensures g.patch.Some? ==> AllDigits(g.patch.value)
    ensures g.prSeq.Some? ==> AllDigits(g.prSeq.value)
    ensures g.pr.Some? == g.prSeq.Some? == m.tail.dash.Some?
  {
    var k, j := m.majorLen, m.minorLen;
    var r := k + 1 + j;
    var x := match m.tail.patch case None => r case Some(p) => r + 1 + p;
    DigitsSlice(s, 0, k);
    DigitsSlice(s, k + 1, r);
    var patch := if m.tail.patch.None? then None else (DigitsSlice(s, r + 1, x); Some(s[r + 1..x]));
    match m.tail.dash
    case None => VersionGroups(s[..k], s[k + 1..r], patch, None, None)
    case Some(d) =>
      DigitsSlice(s, x + 1 + d.0, x + 1 + d.0 + d.1);
      VersionGroups(s[..k], s[k + 1..r], patch, Some(s[x + 1..x + 1 + d.0]), Some(s[x + 1 + d.0..x + 1 + d.0 + d.1]))
  }

  /** parse_version: the integers of the groups, patch 0 when absent,
      var_seq 0 when its group is absent or empty; `Unparsed` when the
      expression does not match (the `int()` of a missing group raises and
      the `except` branch returns zeros). */
  function ParseVersion(vs: string): (v: VersionInfo)
    ensures MatchVersion(vs).None? ==> v == Unparsed
    ensures MatchVersion(vs).Some? ==> (v.variant.Some? <==> MatchVersion(vs).value.tail.dash.Some?)
    ensures MatchVersion(vs).Some? && MatchVersion(vs).value.tail.patch.None? ==> v.patch == 0
  {
    match MatchVersion(vs)
    case None => Unparsed
    case Some(m) =>
      MatchVersionSound(vs);
      var g := Groups(vs, m);
      VersionInfo(
        DigitsValue(g.major), DigitsValue(g.minor),
        match g.patch case None => 0 case Some(p) => DigitsValue(p),
        g.pr,
        match g.prSeq case Some(q) => (if q != "" then DigitsValue(q) else 0) case None => 0)
  }

  /** is_newer on parsed tuples: the first differing field of major, minor
      and patch decides; a differing variant makes the first one newer
      whatever it is; then var_seq decides. */
  predicate NewerInfo(a: VersionInfo, b: VersionInfo) {
    if a.major != b.major then a.major > b.major
    else if a.minor != b.minor then a.minor > b.minor
    else if a.patch != b.patch then a.patch > b.patch
    else if a.variant != b.variant then true
    else if a.varSeq != b.varSeq then a.varSeq > b.varSeq
    else false
  }

  predicate IsNewer(v1: string, v2: string) {
    NewerInfo(ParseVersion(v1), ParseVersion(v2))
  }


  lemma {:induction false} IsNewerIrreflexive(v: string)
    ensures !IsNewer(v, v)
  {
  }

  /** The first differing field of major, minor and patch decides. */
  lemma {:induction false} IsNewerByTriple(v1: string, v2: string)
    ensures var a, b := ParseVersion(v1), ParseVersion(v2);
      (a.major, a.minor, a.patch) != (b.major, b.minor, b.patch) ==>
        (IsNewer(v1, v2) <==>
          a.major > b.major
          || (a.major == b.major && a.minor > b.minor)
          || (a.major == b.major && a.minor == b.minor && a.patch > b.patch))
  {
  }

  /** With equal major, minor and patch, different variants make each
      version newer than the other. */
  lemma {:induction false} DifferentVariantsBothNewer(v1: string, v2: string)
    requires var a, b := ParseVersion(v1), ParseVersion(v2);
      (a.major, a.minor, a.patch) == (b.major, b.minor, b.patch) && a.variant != b.variant
    ensures IsNewer(v1, v2) && IsNewer(v2, v1)
  {
  }

  lemma {:induction false} BetaMatch()
    ensures MatchVersion("2.7.0-beta1") == Some(VersionMatch(1, 1, Tail(Some(1), Some((4, 1)))))
  {
    var s := "2.7.0-beta1";
    assert DigitRun(s, 10) == 1;
    assert TrySeq(s, 10, 1) == Some(1);
    assert PrRun(s, 6) == 4;
    assert MatchDash(s, 5) == Some(Some((4, 1)));
    assert DigitRun(s, 4) == 1;
    assert MatchTail(s, 3) == Some(Tail(Some(1), Some((4, 1))));
    assert DigitRun(s, 2) == 1;
    assert DigitRun(s, 0) == 1;
  }

  lemma {:induction false} ReleaseMatch()
    ensures MatchVersion("2.7.0") == Some(VersionMatch(1, 1, Tail(Some(1), None)))
  {
    var s := "2.7.0";
    assert MatchDash(s, 5) == Some(None);
    assert DigitRun(s, 4) == 1;
    assert MatchTail(s, 3) == Some(Tail(Some(1), None));
    assert DigitRun(s, 2) == 1;
    assert DigitRun(s, 0) == 1;
  }

  lemma {:induction false} ShortMatch()
    ensures MatchVersion("1.9") == Some(VersionMatch(1, 1, Tail(None, None)))
  {
    var s := "1.9";
    assert MatchDash(s, 3) == Some(None);
    assert MatchTail(s, 3) == Some(Tail(None, None));
    assert DigitRun(s, 2) == 1;
    assert DigitRun(s, 0) == 1;
  }

  /** Examples from parse_version's comment: a '-' part gives the variant
      and its sequence number. */
  lemma {:induction false} BetaGroups()
    ensures IsVersionMatch("2.7.0-beta1", VersionMatch(1, 1, Tail(Some(1), Some((4, 1)))))
    ensures Groups("2.7.0-beta1", VersionMatch(1, 1, Tail(Some(1), Some((4, 1)))))
      == VersionGroups("2", "7", Some("0"), Some("beta"), Some("1"))
  {
    var s := "2.7.0-beta1";
    var m := VersionMatch(1, 1, Tail(Some(1), Some((4, 1))));
    assert IsVersionMatch(s, m) by {
      BetaMatch();
      MatchVersionSound(s);
    }
    assert s[..1] == "2" && s[2..3] == "7" && s[4..5] == "0";
    assert s[6..10] == "beta" && s[10..11] == "1";
  }

  lemma {:induction false} ParseBetaExample()
    ensures ParseVersion("2.7.0-beta1") == VersionInfo(2, 7, 0, Some("beta"), 1)
  {
    BetaMatch();
    BetaGroups();
    assert DigitsValue("2") == 2 && DigitsValue("7") == 7 && DigitsValue("0") == 0 && DigitsValue("1") == 1;
  }

  /** Without a '-' part the variant is None. */
  lemma {:induction false} ParseReleaseExample()
    ensures ParseVersion("2.7.0") == VersionInfo(2, 7, 0, None, 0)
  {
    ReleaseMatch();
    var s := "2.7.0";
    assert s[..1] == "2" && s[2..3] == "7" && s[4..5] == "0";
    assert Groups(s, VersionMatch(1, 1, Tail(Some(1), None))) == VersionGroups("2", "7", Some("0"), None, None);
    assert DigitsValue("2") == 2 && DigitsValue("7") == 7 && DigitsValue("0") == 0;
  }

  /** A missing patch number reads as 0. */
  lemma {:induction false} ParseShortExample()
    ensures ParseVersion("1.9") == VersionInfo(1, 9, 0, None, 0)
  {
    ShortMatch();
    var s := "1.9";
    assert s[..1] == "1" && s[2..3] == "9";
    assert Groups(s, VersionMatch(1, 1, Tail(None, None))) == VersionGroups("1", "9", None, None, None);
    assert DigitsValue("1") == 1 && DigitsValue("9") == 9;
  }

  // ---------------------------------------------------------------------
  // parse_version reads back the three-number versions releases are
  // named with, variant and sequence included.
  // ---------------------------------------------------------------------

  /** The text of a three-number version, with `-variant` and the sequence
      when there is a variant; no sequence is written for 0. */
  function VersionText(v: VersionInfo): string {
    var tail := match v.variant
      case None => ""
      case Some(tag) => "-" + tag + (if v.varSeq == 0 then "" else NatToString(v.varSeq));
    NatToString(v.major) + "." + NatToString(v.minor) + "." + NatToString(v.patch) + tail
  }

  /** A `-tag` part followed by digits up to the end is taken by the dash
      group at its first try, with the lengths of its parts. */
  lemma {:induction false} DashRoundTrip(s: string, x: nat, tag: string, seqText: string)
    requires forall k :: 0 <= k < |tag| ==> IsPrChar(tag[k])
    requires AllDigits(seqText)
    requires x <= |s| && s[x..] == "-" + tag + seqText
    ensures MatchDash(s, x) == Some(Some((|tag|, |seqText|)))
    ensures s[x + 1..x + 1 + |tag|] == tag && s[x + 1 + |tag|..] == seqText
  {
    var w := x + 1 + |tag|;
    DashSlices(s, x, tag, seqText);
    assert PrBetween(s, x + 1, w) by {
      forall k | x + 1 <= k < w
        ensures IsPrChar(s[k])
      {
        assert s[k] == s[x + 1..w][k - x - 1];
      }
    }
    assert w == |s| || !IsPrChar(s[w]) by {
      if w < |s| {
        assert s[w] == s[w..][0] == seqText[0];
      }
    }
    PrRunExactly(s, x + 1, |tag|);
    assert s[w..w + |seqText|] == seqText;
    NumberAt(s, w, seqText);
    DashFirstTry(s, x, |tag|, |seqText|);
  }

  /** Where `-tag seq` ends the text, the slices after the '-' are the tag
      and the sequence. */
  lemma {:induction false} DashSlices(s: string, x: nat, tag: string, seqText: string)
    requires x <= |s| && s[x..] == "-" + tag + seqText
    ensures |s| == x + 1 + |tag| + |seqText| && s[x] == '-'
    ensures s[x + 1..x + 1 + |tag|] == tag && s[x + 1 + |tag|..] == seqText
  {
    var w := x + 1 + |tag|;
    assert s[x] == s[x..][0] == '-';
    assert s[x + 1..w] == s[x..][1..1 + |tag|] == tag;
    assert s[w..] == s[x..][1 + |tag|..] == seqText;
  }

  /** A '-' followed by the longest tag run and then digits to the end is
      taken by the dash group at its first try. */
  lemma {:induction false} DashFirstTry(s: string, x: nat, a: nat, e: nat)
    requires x < |s| && s[x] == '-' && x + 1 + a + e == |s|
    requires PrRun(s, x + 1) == a && DigitRun(s, x + 1 + a) == e
    ensures MatchDash(s, x) == Some(Some((a, e)))
  {
    assert AtEnd(s, x + 1 + a + e);
    assert TryPr(s, x, a) == Some((a, e));
  }

  /** The search on a three-number text `A.B.C` followed by a dash part
      the dash group reads as `d` stops at its first try. */
  lemma {:induction false} TextMatch(A: string, B: string, C: string, T: string, d: Option<(nat, nat)>)
    requires |A| >= 1 && AllDigits(A) && |B| >= 1 && AllDigits(B) && |C| >= 1 && AllDigits(C)
    requires T == [] || T[0] == '-'
    requires var s := A + "." + B + "." + C + T; MatchDash(s, |A| + 2 + |B| + |C|) == Some(d)
    ensures var s := A + "." + B + "." + C + T;
      MatchVersion(s) == Some(VersionMatch(|A|, |B|, Tail(Some(|C|), d)))
  {
    var s := A + "." + B + "." + C + T;
    VersionMajor(A, B, C, T);
    VersionMinor(A, B, C, T);
    VersionPatch(A, B, C, T);
    FirstTry(s, |A|, |B|, |C|, d);
  }

  /** When the longest major, minor and patch runs are followed by a dash
      part the dash group takes, the search stops at its first try. */
  lemma {:induction false} FirstTry(s: string, k: nat, j: nat, c: nat, d: Option<(nat, nat)>)
    requires 1 <= k < |s| && DigitRun(s, 0) == k && s[k] == '.'
    requires j >= 1 && k + 1 + j < |s| && DigitRun(s, k + 1) == j && s[k + 1 + j] == '.'
    requires c >= 1 && k + 2 + j + c <= |s| && DigitRun(s, k + 2 + j) == c
    requires MatchDash(s, k + 2 + j + c) == Some(d)
    ensures MatchVersion(s) == Some(VersionMatch(k, j, Tail(Some(c), d)))
  {
    assert TryPatch(s, k + 1 + j, c) == Some(Tail(Some(c), d));
    assert MatchTail(s, k + 1 + j) == Some(Tail(Some(c), d));
    assert TryMinor(s, k, j) == Some(VersionMatch(k, j, Tail(Some(c), d)));
  }

  /** The groups of that match are the parts of the text. */
  lemma {:induction false} TextGroups(A: string, B: string, C: string, T: string, m: VersionMatch)
    requires |A| >= 1 && AllDigits(A) && |B| >= 1 && AllDigits(B) && |C| >= 1 && AllDigits(C)
    requires T == [] || T[0] == '-'
    requires m.majorLen == |A| && m.minorLen == |B| && m.tail.patch == Some(|C|)
    requires IsVersionMatch(A + "." + B + "." + C + T, m)
    ensures var g := Groups(A + "." + B + "." + C + T, m);
      g.major == A && g.minor == B && g.patch == Some(C)
  {
    VersionMajor(A, B, C, T);
    VersionMinor(A, B, C, T);
    VersionPatch(A, B, C, T);
  }

  /** A three-number text without a dash part parses as its numbers, with
      no variant. */
  lemma {:induction false} ParseNumbers(A: string, B: string, C: string)
    requires |A| >= 1 && AllDigits(A) && |B| >= 1 && AllDigits(B) && |C| >= 1 && AllDigits(C)
    ensures ParseVersion(A + "." + B + "." + C + "")
      == VersionInfo(DigitsValue(A), DigitsValue(B), DigitsValue(C), None, 0)
  {
    var s := A + "." + B + "." + C + "";
    assert MatchDash(s, |A| + 2 + |B| + |C|) == Some(None);
    TextMatch(A, B, C, "", None);
    var m := VersionMatch(|A|, |B|, Tail(Some(|C|), None));
    MatchVersionSound(s);
    TextGroups(A, B, C, "", m);
  }

  /** The variant groups of a match whose dash part is `-tag seqText` at
      the end of the text are that tag and that sequence text. */
  lemma {:induction false} DashGroups(s: string, m: VersionMatch, tag: string, seqText: string)
    requires IsVersionMatch(s, m) && m.tail.patch.Some? && m.tail.dash == Some((|tag|, |seqText|))
    requires var x := m.majorLen + 2 + m.minorLen + m.tail.patch.value; x <= |s| && s[x..] == "-" + tag + seqText
    ensures Groups(s, m).pr == Some(tag) && Groups(s, m).prSeq == Some(seqText)
  {
    var x := m.majorLen + 2 + m.minorLen + m.tail.patch.value;
    var w := x + 1 + |tag|;
    assert |s| == w + |seqText|;
    assert s[x + 1..w] == s[x..][1..1 + |tag|] == tag;
    assert s[w..|s|] == s[x..][1 + |tag|..] == seqText;
  }

  /** A three-number text with a dash part parses as its numbers, its tag
      and the value of its sequence (0 when there is none). */
  lemma {:induction false} ParseNumbersTag(A: string, B: string, C: string, tag: string, seqText: string)
    requires |A| >= 1 && AllDigits(A) && |B| >= 1 && AllDigits(B) && |C| >= 1 && AllDigits(C)
    requires forall k :: 0 <= k < |tag| ==> IsPrChar(tag[k])
    requires AllDigits(seqText)
    ensures ParseVersion(A + "." + B + "." + C + ("-" + tag + seqText))
      == VersionInfo(DigitsValue(A), DigitsValue(B), DigitsValue(C), Some(tag),
                     if seqText == "" then 0 else DigitsValue(seqText))
  {
    var T := "-" + tag + seqText;
    var s := A + "." + B + "." + C + T;
    var x := |A| + 2 + |B| + |C|;
    assert s[x..] == T;
    DashRoundTrip(s, x, tag, seqText);
    var d := Some((|tag|, |seqText|));
    TextMatch(A, B, C, T, d);
    var m := VersionMatch(|A|, |B|, Tail(Some(|C|), d));
    MatchVersionSound(s);
    TextGroups(A, B, C, T, m);
    DashGroups(s, m, tag, seqText);
  }

  /** parse_version reads back every version VersionText writes, provided
      the variant is made of the characters its group takes and a sequence
      comes only with a variant. */
  lemma {:induction false} ParseVersionText(v: VersionInfo)
    requires v.variant.Some? ==> forall k :: 0 <= k < |v.variant.value| ==> IsPrChar(v.variant.value[k])
    requires v.variant.None? ==> v.varSeq == 0
    ensures ParseVersion(VersionText(v)) == v
  {
    var A, B, C := NatToString(v.major), NatToString(v.minor), NatToString(v.patch);
    if v.variant.None? {
      assert VersionText(v) == A + "." + B + "." + C + "";
      ParseNumbers(A, B, C);
    } else {
      var seqText := if v.varSeq == 0 then "" else NatToString(v.varSeq);
      assert VersionText(v) == A + "." + B + "." + C + ("-" + v.variant.value + seqText);
      ParseNumbersTag(A, B, C, v.variant.value, seqText);
    }
  }

  /** is_newer is not antisymmetric: a release and a prerelease of the same
      number are each newer than the other. */
  lemma {:induction false} IsNewerNotAntisymmetric()
    ensures IsNewer("2.7.0-beta1", "2.7.0") && IsNewer("2.7.0", "2.7.0-beta1")
  {
    ParseBetaExample();
    ParseReleaseExample();
  }

  // ---------------------------------------------------------------------
  // parse_stock_version: `re.search` for
  //   /.*?(?P<ver>([0-9]+\.)([0-9]+)(\.[0-9]+)?(-[a-z0-9]*)?)(?P<rest>([@\-_])[a-z0-9\-]*)
  // ignoring case, so the letters are [a-zA-Z].
  // ---------------------------------------------------------------------

  predicate IsRestChar(c: char) { c == '@' || c == '-' || c == '_' }

  /** Every character from `i` up to `j` is an ASCII letter or digit. */
  predicate AlnumBetween(s: string, i: nat, j: nat)
    requires i <= j <= |s|
  {
    forall k :: i <= k < j ==> IsAlnum(s[k])
  }

  /** Length of the run of ASCII letters and digits starting at `i`. */
  function AlnumRun(s: string, i: nat): (n: nat)
    requires i <= |s|
    ensures i + n <= |s|
    decreases |s| - i
  {
    if i == |s| || !IsAlnum(s[i]) then 0 else 1 + AlnumRun(s, i + 1)
  }

  lemma {:induction false} AlnumRunSpec(s: string, i: nat)
    requires i <= |s|
    ensures AlnumBetween(s, i, i + AlnumRun(s, i))
    ensures i + AlnumRun(s, i) == |s| || !IsAlnum(s[i + AlnumRun(s, i)])
    decreases |s| - i
  {
    if i < |s| && IsAlnum(s[i]) {
      AlnumRunSpec(s, i + 1);
    }
  }

  /** The lengths of the groups of `ver`: the major and minor digits, the
      digits of the optional `.N` group and the letters and digits of the
      optional `-x` group. */
  datatype StockMatch = StockMatch(major: nat, minor: nat, patch: Option<nat>, dash: Option<nat>)

  /** Index just past the minor digits, the patch group and the dash group. */
  function MinorEnd(j: nat, m: StockMatch): nat { j + m.major + 1 + m.minor }

  function VerEnd(j: nat, m: StockMatch): nat { GroupsEnd(MinorEnd(j, m), m.patch, m.dash) }

  /** Index just past the optional `.N` group of `patch` digits and the
      optional `-x` group of `dash` letters and digits that start at `x`. */
  function GroupsEnd(x: nat, patch: Option<nat>, dash: Option<nat>): nat {
    var y := match patch case None => x case Some(c) => x + 1 + c;
    match dash case None => y case Some(e) => y + 1 + e
  }

  /** The optional groups from `x`, just past the minor digits. */
  predicate StockGroupsAt(s: string, x: nat, patch: Option<nat>, dash: Option<nat>) {
    var y := match patch case None => x case Some(c) => x + 1 + c;
    GroupsEnd(x, patch, dash) <= |s|
    && (patch.Some? ==> s[x] == '.' && patch.value >= 1 && DigitsBetween(s, x + 1, y))
    && (dash.Some? ==> s[y] == '-' && AlnumBetween(s, y + 1, GroupsEnd(x, patch, dash)))
  }

  /** The groups from `x`, then a `rest` character. */
  predicate StockTailAt(s: string, x: nat, patch: Option<nat>, dash: Option<nat>) {
    StockGroupsAt(s, x, patch, dash) && GroupsEnd(x, patch, dash) < |s| && IsRestChar(s[GroupsEnd(x, patch, dash)])
  }

  /** `ver` as `m` describes it matches from `j`, ending at VerEnd(j, m). */
  predicate IsStockVer(s: string, j: nat, m: StockMatch) {
    var x := MinorEnd(j, m);
    m.major >= 1 && m.minor >= 1 && x <= |s|
    && DigitsBetween(s, j, j + m.major) && s[j + m.major] == '.'
    && DigitsBetween(s, j + m.major + 1, x)
    && StockGroupsAt(s, x, m.patch, m.dash)
  }

  /** `ver` matches from `j` and a `rest` character follows. */
  predicate IsStockMatch(s: string, j: nat, m: StockMatch) {
    IsStockVer(s, j, m) && VerEnd(j, m) < |s| && IsRestChar(s[VerEnd(j, m)])
  }

  /** The dash group and the `rest` character from `y`. The tag can only be
      followed by a `rest` character when it takes the whole run of letters
      and digits, so only that length is tried before the group is skipped. */
  function MatchStockDash(s: string, y: nat): (d: Option<Option<nat>>)
    requires y <= |s|
  {
    if y < |s| && s[y] == '-' && y + 1 + AlnumRun(s, y + 1) < |s| && IsRestChar(s[y + 1 + AlnumRun(s, y + 1)]) then
      Some(Some(AlnumRun(s, y + 1)))
    else if y < |s| && IsRestChar(s[y]) then Some(None)
    else None
  }

  lemma {:induction false} MatchStockDashSound(s: string, y: nat)
    requires y <= |s|
    ensures MatchStockDash(s, y).Some? ==> StockTailAt(s, y, None, MatchStockDash(s, y).value)
  {
    if y < |s| && s[y] == '-' {
      AlnumRunSpec(s, y + 1);
    }
  }

  /** The patch and dash groups from `x`, the patch group tried before its
      absence. As with the tag, a digit run can only be followed by what the
      expression needs when it is taken whole. */
  function MatchStockTail(s: string, x: nat): (r: Option<(Option<nat>, Option<nat>)>)
    requires x <= |s|
  {
    var c := if x < |s| && s[x] == '.' then DigitRun(s, x + 1) else 0;
    var withPatch := if c >= 1 then MatchStockDash(s, x + 1 + c) else None;
    if withPatch.Some? then Some((Some(c), withPatch.value))
    else match MatchStockDash(s, x)
      case Some(d) => Some((None, d))
      case None => None
  }

  lemma {:induction false} MatchStockTailSound(s: string, x: nat)
    requires x <= |s|
    ensures MatchStockTail(s, x).Some? ==>
      StockTailAt(s, x, MatchStockTail(s, x).value.0, MatchStockTail(s, x).value.1)
  {
    if x < |s| && s[x] == '.' && DigitRun(s, x + 1) >= 1 {
      var c := DigitRun(s, x + 1);
      DigitRunSpec(s, x + 1);
      MatchStockDashSound(s, x + 1 + c);
      if MatchStockDash(s, x + 1 + c).Some? {
        assert GroupsEnd(x + 1 + c, None, MatchStockDash(s, x + 1 + c).value)
          == GroupsEnd(x, Some(c), MatchStockDash(s, x + 1 + c).value);
        return;
      }
    }
    MatchStockDashSound(s, x);
  }

  /** `ver` and `rest` from `j`. */
  function MatchStockAt(s: string, j: nat): (m: Option<StockMatch>)
    requires j <= |s|
  {
    var a := DigitRun(s, j);
    if a == 0 || j + a == |s| || s[j + a] != '.' then None
    else
      var b := DigitRun(s, j + a + 1);
      if b == 0 then None
      else match MatchStockTail(s, j + a + 1 + b)
        case Some((p, d)) => Some(StockMatch(a, b, p, d))
        case None => None
  }

  lemma {:induction false} MatchStockAtSound(s: string, j: nat)
    requires j <= |s|
    ensures MatchStockAt(s, j).Some? ==> IsStockMatch(s, j, MatchStockAt(s, j).value)
  {
    var a := DigitRun(s, j);
    if a > 0 && j + a < |s| && s[j + a] == '.' {
      var b := DigitRun(s, j + a + 1);
      var x := j + a + 1 + b;
      MatchStockTailSound(s, x);
      if b > 0 && MatchStockTail(s, x).Some? {
        var m := StockMatch(a, b, MatchStockTail(s, x).value.0, MatchStockTail(s, x).value.1);
        assert MatchStockAt(s, j) == Some(m);
        assert MinorEnd(j, m) == x;
        DigitRunSpec(s, j);
        DigitRunSpec(s, j + a + 1);
      }
    }
  }

  /** The lazy `.*?` after a '/': the match is tried at `j`, then one
      character further, as long as no '\n' is skipped. */
  function LazyFrom(s: string, j: nat): (r: Option<(nat, StockMatch)>)
    requires j <= |s|
    ensures r.Some? ==> j <= r.value.0 <= |s|
    decreases |s| - j
  {
    match MatchStockAt(s, j)
    case Some(m) => Some((j, m))
    case None => if j < |s| && s[j] != '\n' then LazyFrom(s, j + 1) else None
  }

  lemma {:induction false} LazyFromSound(s: string, j: nat)
    requires j <= |s|
    ensures LazyFrom(s, j).Some? ==> IsStockMatch(s, LazyFrom(s, j).value.0, LazyFrom(s, j).value.1)
    decreases |s| - j
  {
    MatchStockAtSound(s, j);
    if MatchStockAt(s, j).None? && j < |s| && s[j] != '\n' {
      LazyFromSound(s, j + 1);
    }
  }

  /** `re.search`: every '/' from `i` on, in order, as the start of a match. */
  function SearchStock(s: string, i: nat): (r: Option<(nat, StockMatch)>)
    requires i <= |s|
    ensures r.Some? ==> i < r.value.0 <= |s|
    decreases |s| - i
  {
    if i == |s| then None
    else if s[i] == '/' && LazyFrom(s, i + 1).Some? then LazyFrom(s, i + 1)
    else SearchStock(s, i + 1)
  }

  lemma {:induction false} SearchStockSound(s: string, i: nat)
    requires i <= |s|
    ensures SearchStock(s, i).Some? ==> IsStockMatch(s, SearchStock(s, i).value.0, SearchStock(s, i).value.1)
    decreases |s| - i
  {
    if i < |s| {
      if s[i] == '/' {
        LazyFromSound(s, i + 1);
      }
      SearchStockSound(s, i + 1);
    }
  }

  /** The shape of a stock version: digits '.' digits, an optional '.' and
      digits, an optional '-' and letters or digits. */
  ghost predicate IsStockVersionText(v: string) {
    exists m :: IsStockVer(v, 0, m) && VerEnd(0, m) == |v|
  }

  /** The text a match spans has the shape on its own. */
  lemma {:induction false} StockVerSlice(s: string, j: nat, m: StockMatch)
    requires IsStockVer(s, j, m)
    ensures IsStockVersionText(s[j..VerEnd(j, m)])
  {
    var v := s[j..VerEnd(j, m)];
    assert forall k :: 0 <= k < |v| ==> v[k] == s[j + k];
    assert IsStockVer(v, 0, m);
  }

  function ParseStockVersion(version: string): (v: string)
    ensures SearchStock(version, 0).None? ==> v == "0.0.0"
    ensures SearchStock(version, 0).Some? ==> IsStockVersionText(v)
  {
    match SearchStock(version, 0)
    case None => "0.0.0"
    case Some((j, m)) =>
      SearchStockSound(version, 0);
      StockVerSlice(version, j, m);
      version[j..VerEnd(j, m)]
  }

  /** A stock build id without a '.' holds no version. */
  lemma {:induction false} StockWithoutDot(s: string)
    requires forall p :: 0 <= p < |s| ==> s[p] != '.'
    ensures ParseStockVersion(s) == "0.0.0"
  {
    SearchStockSound(s, 0);
  }

  /** The version is the text the search found. */
  lemma {:induction false} ParseStockVersionFound(s: string, j: nat, m: StockMatch)
    requires SearchStock(s, 0) == Some((j, m))
    ensures j <= VerEnd(j, m) < |s| && ParseStockVersion(s) == s[j..VerEnd(j, m)]
  {
    SearchStockSound(s, 0);
  }

  lemma {:induction false} AlnumRunExactly(s: string, y: nat, n: nat)
    requires y + n <= |s| && AlnumBetween(s, y, y + n)
    requires y + n == |s| || !IsAlnum(s[y + n])
    ensures AlnumRun(s, y) == n
    decreases n
  {
    if n > 0 {
      AlnumRunExactly(s, y + 1, n - 1);
    }
  }

  lemma {:induction false} MatchStockDashComplete(s: string, y: nat, d: Option<nat>)
    requires y <= |s| && StockTailAt(s, y, None, d)
    ensures MatchStockDash(s, y).Some?
  {
    if d.Some? {
      AlnumRunExactly(s, y + 1, d.value);
    }
  }

  lemma {:induction false} MatchStockTailComplete(s: string, x: nat, p: Option<nat>, d: Option<nat>)
    requires x <= |s| && StockTailAt(s, x, p, d)
    ensures MatchStockTail(s, x).Some?
  {
    if p.Some? {
      var y := x + 1 + p.value;
      DigitRunExactly(s, x + 1, p.value);
      assert GroupsEnd(y, None, d) == GroupsEnd(x, p, d);
      MatchStockDashComplete(s, y, d);
    } else {
      MatchStockDashComplete(s, x, d);
    }
  }

  /** Every way the expression can match from `j` is found: the backtracking
      over shorter digit and tag runs that the regular expression engine
      performs cannot succeed where the longest runs fail. */
  lemma {:induction false} MatchStockAtComplete(s: string, j: nat, m: StockMatch)
    requires j <= |s| && IsStockMatch(s, j, m)
    ensures MatchStockAt(s, j).Some?
  {
    var x := MinorEnd(j, m);
    DigitRunExactly(s, j, m.major);
    assert x < |s| && !IsDigit(s[x]);
    DigitRunExactly(s, j + m.major + 1, m.minor);
    MatchStockTailComplete(s, x, m.patch, m.dash);
  }

  lemma {:induction false} LazyFromComplete(s: string, j: nat, k: nat, m: StockMatch)
    requires j <= k <= |s| && IsStockMatch(s, k, m)
    requires forall p :: j <= p < k ==> s[p] != '\n'
    ensures LazyFrom(s, j).Some? && LazyFrom(s, j).value.0 <= k
    decreases k - j
  {
    if j == k {
      MatchStockAtComplete(s, k, m);
    } else if MatchStockAt(s, j).None? {
      LazyFromComplete(s, j + 1, k, m);
    }
  }

  lemma {:induction false} SearchStockComplete(s: string, i: nat, slash: nat, k: nat, m: StockMatch)
    requires i <= slash < k <= |s| && s[slash] == '/' && IsStockMatch(s, k, m)
    requires forall p :: slash < p < k ==> s[p] != '\n'
    ensures SearchStock(s, i).Some?
    decreases slash - i
  {
    if i == slash {
      LazyFromComplete(s, slash + 1, k, m);
    } else if !(s[i] == '/' && LazyFrom(s, i + 1).Some?) {
      SearchStockComplete(s, i + 1, slash, k, m);
    }
  }

  /** A version after a '/' on the same line is always found, so the
      fallback "0.0.0" only stands for a build id without one. */
  lemma {:induction false} ParseStockVersionComplete(s: string, slash: nat, k: nat, m: StockMatch)
    requires slash < k <= |s| && s[slash] == '/' && IsStockMatch(s, k, m)
    requires forall p :: slash < p < k ==> s[p] != '\n'
    ensures SearchStock(s, 0).Some? && IsStockVersionText(ParseStockVersion(s))
  {
    SearchStockComplete(s, 0, slash, k, m);
  }

  // Examples from the docstring of parse_stock_version. The build date in
  // front of the '/' is any text without a '/' or a line break.

  lemma {:induction false} SearchStockSkip(s: string, i: nat, k: nat)
    requires i <= k <= |s|
    requires forall p :: i <= p < k ==> s[p] != '/'
    ensures SearchStock(s, i) == SearchStock(s, k)
    decreases k - i
  {
    if i < k {
      SearchStockSkip(s, i + 1, k);
    }
  }

  lemma {:induction false} LazyFromStep(s: string, j: nat)
    requires j < |s| && s[j] != '\n' && MatchStockAt(s, j).None?
    ensures LazyFrom(s, j) == LazyFrom(s, j + 1)
  {
  }

  /** The version found right after the first '/'. */
  lemma {:induction false} StockFoundAfterSlash(s: string, slash: nat, m: StockMatch)
    requires slash < |s| && s[slash] == '/'
    requires forall p :: 0 <= p < slash ==> s[p] != '/'
    requires MatchStockAt(s, slash + 1) == Some(m)
    ensures slash + 1 <= VerEnd(slash + 1, m) < |s| && ParseStockVersion(s) == s[slash + 1..VerEnd(slash + 1, m)]
  {
    SearchStockSkip(s, 0, slash);
    assert LazyFrom(s, slash + 1) == Some((slash + 1, m));
    ParseStockVersionFound(s, slash + 1, m);
  }

  /** As StockFoundAfterSlash, with a 'v' between the '/' and the version. */
  lemma {:induction false} StockFoundAfterV(s: string, slash: nat, m: StockMatch)
    requires slash + 2 <= |s| && s[slash] == '/' && s[slash + 1] == 'v'
    requires forall p :: 0 <= p < slash ==> s[p] != '/'
    requires MatchStockAt(s, slash + 2) == Some(m)
    ensures slash + 2 <= VerEnd(slash + 2, m) < |s| && ParseStockVersion(s) == s[slash + 2..VerEnd(slash + 2, m)]
  {
    assert DigitRun(s, slash + 1) == 0;
    LazyFromStep(s, slash + 1);
    assert LazyFrom(s, slash + 2) == Some((slash + 2, m));
    SearchStockSkip(s, 0, slash);
    ParseStockVersionFound(s, slash + 2, m);
  }

  lemma {:induction false} MiddleSlice(date: string, mid: string, rest: string, i: nat, j: nat)
    requires i <= j <= |mid|
    ensures (date + mid + rest)[|date| + i..|date| + j] == mid[i..j]
  {
    var s := date + mid + rest;
    assert forall k :: 0 <= k < j - i ==> s[|date| + i..|date| + j][k] == mid[i..j][k];
  }

  /** A '/' ends the build date when the date holds none. */
  lemma {:induction false} FirstSlash(date: string, s: string)
    requires '/' !in date && |date| < |s| && s[..|date|] == date
    ensures forall p :: 0 <= p < |date| ==> s[p] != '/'
  {
    forall p | 0 <= p < |date| ensures s[p] != '/' {
      assert s[p] == s[..|date|][p];
    }
  }

  /** "1.9.0" at `n + 2`, then '@'. */
  lemma {:induction false} StockReleaseMatch(s: string, n: nat)
    requires n + 8 <= |s|
    requires s[n + 2] == '1' && s[n + 3] == '.' && s[n + 4] == '9' && s[n + 5] == '.'
    requires s[n + 6] == '0' && s[n + 7] == '@'
    ensures MatchStockAt(s, n + 2) == Some(StockMatch(1, 1, Some(1), None))
  {
    DigitRunExactly(s, n + 2, 1);
    DigitRunExactly(s, n + 4, 1);
    DigitRunExactly(s, n + 6, 1);
    assert MatchStockDash(s, n + 7) == Some(None);
  }

  lemma {:induction false} StockReleaseFound(date: string, rest: string)
    requires '/' !in date && |rest| >= 1 && rest[0] == '@'
    ensures ParseStockVersion(date + "/v1.9.0" + rest) == (date + "/v1.9.0" + rest)[|date| + 2..|date| + 7]
  {
    var s, n := date + "/v1.9.0" + rest, |date|;
    assert s[n] == '/' && s[n + 1] == 'v' && s[n + 2] == '1' && s[n + 3] == '.';
    assert s[n + 4] == '9' && s[n + 5] == '.' && s[n + 6] == '0' && s[n + 7] == '@';
    StockReleaseMatch(s, n);
    FirstSlash(date, s);
    StockFoundAfterV(s, n, StockMatch(1, 1, Some(1), None));
  }

  /** '20201124-092159/v1.9.0@57ac4ad8' gives '1.9.0'. */
  lemma {:induction false} StockExampleRelease(date: string, rest: string)
    requires '/' !in date && |rest| >= 1 && rest[0] == '@'
    ensures ParseStockVersion(date + "/v1.9.0" + rest) == "1.9.0"
  {
    StockReleaseFound(date, rest);
    MiddleSlice(date, "/v1.9.0", rest, 2, 7);
    assert "/v1.9.0"[2..7] == "1.9.0";
  }

  /** "1.9.5-DM2" at `n + 2`, then '_'. */
  lemma {:induction false} StockTagMatch(s: string, n: nat)
    requires n + 12 <= |s|
    requires s[n + 2] == '1' && s[n + 3] == '.' && s[n + 4] == '9' && s[n + 5] == '.'
    requires s[n + 6] == '5' && s[n + 7] == '-' && s[n + 8] == 'D' && s[n + 9] == 'M'
    requires s[n + 10] == '2' && s[n + 11] == '_'
    ensures MatchStockAt(s, n + 2) == Some(StockMatch(1, 1, Some(1), Some(3)))
  {
    DigitRunExactly(s, n + 2, 1);
    DigitRunExactly(s, n + 4, 1);
    DigitRunExactly(s, n + 6, 1);
    AlnumRunExactly(s, n + 8, 3);
    assert MatchStockDash(s, n + 7) == Some(Some(3));
  }

  lemma {:induction false} StockTagFound(date: string, rest: string)
    requires '/' !in date && |rest| >= 1 && rest[0] == '_'
    ensures ParseStockVersion(date + "/v1.9.5-DM2" + rest) == (date + "/v1.9.5-DM2" + rest)[|date| + 2..|date| + 11]
  {
    var s, n := date + "/v1.9.5-DM2" + rest, |date|;
    assert s[n] == '/' && s[n + 1] == 'v' && s[n + 2] == '1' && s[n + 3] == '.';
    assert s[n + 4] == '9' && s[n + 5] == '.' && s[n + 6] == '5' && s[n + 7] == '-';
    assert s[n + 8] == 'D' && s[n + 9] == 'M' && s[n + 10] == '2' && s[n + 11] == '_';
    StockTagMatch(s, n);
    FirstSlash(date, s);
    StockFoundAfterV(s, n, StockMatch(1, 1, Some(1), Some(3)));
  }

  /** '20201124-092854/v1.9.5-DM2_autocheck' gives '1.9.5-DM2'. */
  lemma {:induction false} StockExampleTag(date: string, rest: string)
    requires '/' !in date && |rest| >= 1 && rest[0] == '_'
    ensures ParseStockVersion(date + "/v1.9.5-DM2" + rest) == "1.9.5-DM2"
  {
    StockTagFound(date, rest);
    MiddleSlice(date, "/v1.9.5-DM2", rest, 2, 11);
    assert "/v1.9.5-DM2"[2..11] == "1.9.5-DM2";
  }

  /** "1.9" at `n + 1`, then '_'. */
  lemma {:induction false} StockShortMatch(s: string, n: nat)
    requires n + 5 <= |s|
    requires s[n + 1] == '1' && s[n + 2] == '.' && s[n + 3] == '9' && s[n + 4] == '_'
    ensures MatchStockAt(s, n + 1) == Some(StockMatch(1, 1, None, None))
  {
    DigitRunExactly(s, n + 1, 1);
    DigitRunExactly(s, n + 3, 1);
    assert MatchStockDash(s, n + 4) == Some(None);
  }

  /** '20210107-122133/1.9_GU10_RGBW@07531e29' gives '1.9'. */
  lemma {:induction false} StockExampleShort(date: string, rest: string)
    requires '/' !in date && |rest| >= 1 && rest[0] == '_'
    ensures ParseStockVersion(date + "/1.9" + rest) == "1.9"
  {
    var s, n := date + "/1.9" + rest, |date|;
    assert s[n] == '/' && s[n + 1] == '1' && s[n + 2] == '.' && s[n + 3] == '9' && s[n + 4] == '_';
    StockShortMatch(s, n);
    FirstSlash(date, s);
    StockFoundAfterSlash(s, n, StockMatch(1, 1, None, None));
    MiddleSlice(date, "/1.9", rest, 1, 4);
    assert "/1.9"[1..4] == "1.9";
  }

  /** '20201014-165335/1244-production-Shelly1L@6a254598' gives '0.0.0'. */
  lemma {:induction false} StockExampleNoVersion(date: string)
    requires '.' !in date
    ensures ParseStockVersion(date + "/1244-production-Shelly1L@6a254598") == "0.0.0"
  {
    var s := date + "/1244-production-Shelly1L@6a254598";
    forall p | 0 <= p < |s| ensures s[p] != '.' {
      if p < |date| { assert s[p] == date[p]; }
    }
    StockWithoutDot(s);
  }

  /** "1.10.0-rc2" at `n + 2`, then '-'. */
  lemma {:induction false} StockCandidateMatch(s: string, n: nat)
    requires n + 13 <= |s|
    requires s[n + 2] == '1' && s[n + 3] == '.' && s[n + 4] == '1' && s[n + 5] == '0' && s[n + 6] == '.'
    requires s[n + 7] == '0' && s[n + 8] == '-' && s[n + 9] == 'r' && s[n + 10] == 'c'
    requires s[n + 11] == '2' && s[n + 12] == '-'
    ensures MatchStockAt(s, n + 2) == Some(StockMatch(1, 2, Some(1), Some(3)))
  {
    DigitRunExactly(s, n + 2, 1);
    DigitRunExactly(s, n + 4, 2);
    DigitRunExactly(s, n + 7, 1);
    AlnumRunExactly(s, n + 9, 3);
    assert MatchStockDash(s, n + 8) == Some(Some(3));
  }

  lemma {:induction false} StockCandidateFound(date: string, rest: string)
    requires '/' !in date && |rest| >= 1 && rest[0] == '-'
    ensures ParseStockVersion(date + "/v1.10.0-rc2" + rest) == (date + "/v1.10.0-rc2" + rest)[|date| + 2..|date| + 12]
  {
    var s, n := date + "/v1.10.0-rc2" + rest, |date|;
    assert s[n] == '/' && s[n + 1] == 'v' && s[n + 2] == '1' && s[n + 3] == '.';
    assert s[n + 4] == '1' && s[n + 5] == '0' && s[n + 6] == '.' && s[n + 7] == '0';
    assert s[n + 8] == '-' && s[n + 9] == 'r' && s[n + 10] == 'c' && s[n + 11] == '2' && s[n + 12] == '-';
    StockCandidateMatch(s, n);
    FirstSlash(date, s);
    StockFoundAfterV(s, n, StockMatch(1, 2, Some(1), Some(3)));
  }

  /** '20210226-091047/v1.10.0-rc2-89-g623b41ec0-master' gives '1.10.0-rc2'. */
  lemma {:induction false} StockExampleCandidate(date: string, rest: string)
    requires '/' !in date && |rest| >= 1 && rest[0] == '-'
    ensures ParseStockVersion(date + "/v1.10.0-rc2" + rest) == "1.10.0-rc2"
  {
    StockCandidateFound(date, rest);
    MiddleSlice(date, "/v1.10.0-rc2", rest, 2, 12);
    assert "/v1.10.0-rc2"[2..12] == "1.10.0-rc2";
  }

  /** "1.10.0-" at `n + 2`, then letters and digits up to the end. */
  lemma {:induction false} StockCommitMatch(s: string, n: nat)
    requires n + 9 <= |s|
    requires s[n + 2] == '1' && s[n + 3] == '.' && s[n + 4] == '1' && s[n + 5] == '0' && s[n + 6] == '.'
    requires s[n + 7] == '0' && s[n + 8] == '-' && AlnumBetween(s, n + 9, |s|)
    ensures MatchStockAt(s, n + 2) == Some(StockMatch(1, 2, Some(1), None))
  {
    DigitRunExactly(s, n + 2, 1);
    DigitRunExactly(s, n + 4, 2);
    DigitRunExactly(s, n + 7, 1);
    AlnumRunExactly(s, n + 9, |s| - (n + 9));
    assert MatchStockDash(s, n + 8) == Some(None);
  }

  lemma {:induction false} StockCommitFound(date: string, commit: string)
    requires '/' !in date
    requires forall p :: 0 <= p < |commit| ==> IsAlnum(commit[p])
    ensures ParseStockVersion(date + "/v1.10.0-" + commit) == (date + "/v1.10.0-" + commit)[|date| + 2..|date| + 8]
  {
    var s, n := date + "/v1.10.0-" + commit, |date|;
    assert s[n] == '/' && s[n + 1] == 'v' && s[n + 2] == '1' && s[n + 3] == '.' && s[n + 4] == '1';
    assert s[n + 5] == '0' && s[n + 6] == '.' && s[n + 7] == '0' && s[n + 8] == '-';
    assert AlnumBetween(s, n + 9, |s|) by {
      forall p | n + 9 <= p < |s| ensures IsAlnum(s[p]) { assert s[p] == commit[p - n - 9]; }
    }
    StockCommitMatch(s, n);
    FirstSlash(date, s);
    StockFoundAfterV(s, n, StockMatch(1, 2, Some(1), None));
  }

  /** '20210318-141537/v1.10.0-geba262d' gives '1.10.0': the tag runs to
      the end, where no `rest` character follows it. */
  lemma {:induction false} StockExampleCommit(date: string, commit: string)
    requires '/' !in date
    requires forall p :: 0 <= p < |commit| ==> IsAlnum(commit[p])
    ensures ParseStockVersion(date + "/v1.10.0-" + commit) == "1.10.0"
  {
    StockCommitFound(date, commit);
    MiddleSlice(date, "/v1.10.0-", commit, 2, 8);
    assert "/v1.10.0-"[2..8] == "1.10.0";
  }
}
