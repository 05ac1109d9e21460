/** The pure helpers of the device's web interface (`script.js`): the
    device-name check, the auto-off delay format, durations, the HTTP digest
    challenge parser, version parsing and ordering, and the choice of an
    entry of the update list. A JavaScript exception is `None`. */
module WebUi {
  import opened Wrappers
  import opened Text

  // ---------------------------------------------------------------------
  // checkName: /^[a-z0-9\-]{1,63}$/i
  // ---------------------------------------------------------------------

  /** `[a-z0-9\-]` under the `i` flag; without the `u` flag only ASCII
      letters fold onto `a`-`z`. */
  predicate IsAlnumOrDash(c: char) { IsAlnum(c) || c == '-' }

  /** `[^"]` when `quoted`, `[a-z0-9\-]` under the `i` flag otherwise. */
  predicate ValueChar(c: char, quoted: bool) {
    if quoted then c != '"' else IsAlnumOrDash(c)
  }

  /** Length of the run of value characters starting at `i`. */
  function ValueRun(s: string, i: nat, quoted: bool): (n: nat)
    requires i <= |s|
    ensures i + n <= |s|
    decreases |s| - i
  {
    if i == |s| || !ValueChar(s[i], quoted) then 0 else 1 + ValueRun(s, i + 1, quoted)
  }

  /** The run holds only value characters and stops at the end or at a
      character that is not one. */
  lemma {:induction false} ValueRunSpec(s: string, i: nat, quoted: bool)
    requires i <= |s|
    ensures forall k :: i <= k < i + ValueRun(s, i, quoted) ==> ValueChar(s[k], quoted)
    ensures i + ValueRun(s, i, quoted) == |s| || !ValueChar(s[i + ValueRun(s, i, quoted)], quoted)
    decreases |s| - i
  {
    if i < |s| && ValueChar(s[i], quoted) {
      ValueRunSpec(s, i + 1, quoted);
    }
  }

  lemma {:induction false} ValueRunExactly(s: string, i: nat, n: nat, quoted: bool)
    requires i + n <= |s| && forall k :: i <= k < i + n ==> ValueChar(s[k], quoted)
    requires i + n == |s| || !ValueChar(s[i + n], quoted)
    ensures ValueRun(s, i, quoted) == n
    decreases n
  {
    if n > 0 {
      ValueRunExactly(s, i + 1, n - 1, quoted);
    }
  }

  /** A device name is accepted exactly when it has 1 to 63 characters, each
      a letter, a digit or '-'. */
  function CheckName(name: string): (ok: bool)
    ensures ok <==> 1 <= |name| <= 63 && forall i :: 0 <= i < |name| ==> IsAlnumOrDash(name[i])
  {
    ValueRunSpec(name, 0, false);
    1 <= |name| <= 63 && ValueRun(name, 0, false) == |name|
  }

  // ---------------------------------------------------------------------
  // dateStringToSeconds: "" or /^(\d+):(\d{2}):(\d{2}):(\d{2})\.(\d{3})/
  // (no `$`: anything may follow the milliseconds). The result is kept in
  // integer milliseconds.
  // ---------------------------------------------------------------------

  /** The expression matches the start of `s` with `n` day digits. */
  predicate DurationAt(s: string, n: nat) {
    1 <= n && n + 13 <= |s| && DigitsBetween(s, 0, n)
    && s[n] == ':' && DigitsBetween(s, n + 1, n + 3)
    && s[n + 3] == ':' && DigitsBetween(s, n + 4, n + 6)
    && s[n + 6] == ':' && DigitsBetween(s, n + 7, n + 9)
    && s[n + 9] == '.' && DigitsBetween(s, n + 10, n + 13)
  }

  /** `parseInt` of the digits from `i` to `j`. */
  function Field(s: string, i: nat, j: nat): nat
    requires i <= j <= |s| && DigitsBetween(s, i, j)
  {
    DigitsSlice(s, i, j);
    DigitsValue(s[i..j])
  }

  /** days * 86400 s + hours * 3600 s + minutes * 60 s + seconds, plus the
      milliseconds, all in milliseconds. */
  function DurationMillis(days: nat, hours: nat, minutes: nat, seconds: nat, millis: nat): nat {
    days * 86400000 + hours * 3600000 + minutes * 60000 + seconds * 1000 + millis
  }

  /** The duration the fields of a match stand for. */
  function Millis(s: string, n: nat): nat
    requires DurationAt(s, n)
  {
    DurationMillis(Field(s, 0, n), Field(s, n + 1, n + 3), Field(s, n + 4, n + 6),
                   Field(s, n + 7, n + 9), Field(s, n + 10, n + 13))
  }

  /** dateStringToSeconds, in milliseconds: 0 for "", the sum of the fields
      when the expression matches, and `None` (the `.groups` of a failed
      match raises a TypeError) otherwise. */
  function DateStringToMillis(s: string): (ms: Option<nat>)
    ensures s == "" ==> ms == Some(0)
    ensures s != "" ==> forall n :: DurationAt(s, n) ==> ms == Some(Millis(s, n))
    ensures s != "" && ms.Some? ==> exists n :: DurationAt(s, n) && ms.value == Millis(s, n)
  {
    if s == "" then Some(0)
    else
      var n := DigitRun(s, 0);
      DigitRunSpec(s, 0);
      if DurationAt(s, n) then Some(Millis(s, n)) else None
  }

  /** autoOffDelayValid: from 10 ms to 2147483647 ms (2^31 - 1). `None` when
      dateStringToSeconds raises. */
  function AutoOffDelayValid(s: string): (r: Option<bool>)
    ensures r.None? <==> DateStringToMillis(s).None?
    ensures r.Some? ==> (r.value <==> 10 <= DateStringToMillis(s).value <= 0x7fff_ffff)
  {
    match DateStringToMillis(s)
    case None => None
    case Some(ms) => Some(10 <= ms <= 0x7fff_ffff)
  }

  /** An empty delay reads as 0 and is refused. */
  lemma {:induction false} AutoOffEmptyRefused()
    ensures AutoOffDelayValid("") == Some(false)
  {
  }

  // ---------------------------------------------------------------------
  // nDigitString and durationStr
  // ---------------------------------------------------------------------

  /** nDigitString: the decimal digits of `num` left-padded with '0' to
      `digits` characters; never cut. */
  function NDigitString(num: nat, digits: nat): (r: string)
    ensures |r| == if |NatToString(num)| >= digits then |NatToString(num)| else digits
    ensures EndsWith(r, NatToString(num))
    ensures forall k :: 0 <= k < |r| - |NatToString(num)| ==> r[k] == '0'
    ensures AllDigits(r) && DigitsValue(r) == num
  {
    var t := NatToString(num);
    var r := PadStart(t, digits, '0');
    assert r == r[..|r| - |t|] + t;
    LeadingZeros(r[..|r| - |t|], t);
    r
  }

  /** A number below 100 takes at most two digits. */
  lemma {:induction false} TwoDigitsAtMost(x: nat)
    requires x < 100
    ensures |NatToString(x)| <= 2
  {
    if x >= 10 {
      assert NatToString(x) == NatToString(x / 10) + [('0' as int + x % 10) as char];
    }
  }

  /** durationStr of a whole number of seconds: "D:HH:MM:SS". */
  function DurationStr(d: nat): (r: string)
  {
    var days := d / 86400;
    var d1 := d % 86400;
    var hours := d1 / 3600;
    var d2 := d1 % 3600;
    var mins := d2 / 60;
    var secs := d2 % 60;
    NatToString(days) + ":" + NDigitString(hours, 2) + ":" + NDigitString(mins, 2) + ":" + NDigitString(secs, 2)
  }

  /** Where the parts of "D:HH:MM:SS.mmm" sit: the days and the hours. */
  lemma {:induction false} DurationTextHead(dd: string, hh: string, mm: string, ss: string, ms: string)
    requires |hh| == 2
    ensures var s := dd + ":" + hh + ":" + mm + ":" + ss + "." + ms;
      var n := |dd|;
      n + 4 <= |s| && s[0..n] == dd && s[n] == ':' && s[n + 1..n + 3] == hh && s[n + 3] == ':'
  {
    var p := dd + ":" + hh + ":";
    var s := p + mm + ":" + ss + "." + ms;
    var n := |dd|;
    assert s[..|p|] == p;
    assert s[0..n] == p[0..n] == dd;
    assert s[n + 1..n + 3] == p[n + 1..n + 3] == hh;
  }

  /** Where the parts of "D:HH:MM:SS.mmm" sit: the minutes, the seconds and
      the milliseconds. */
  lemma {:induction false} DurationTextTail(dd: string, hh: string, mm: string, ss: string, ms: string)
    requires |hh| == 2 && |mm| == 2 && |ss| == 2 && |ms| == 3
    ensures var s := dd + ":" + hh + ":" + mm + ":" + ss + "." + ms;
      var n := |dd|;
      n + 13 == |s| && s[n + 4..n + 6] == mm && s[n + 6] == ':'
      && s[n + 7..n + 9] == ss && s[n + 9] == '.' && s[n + 10..n + 13] == ms
  {
    var p := dd + ":" + hh + ":";
    var q := p + mm + ":" + ss + ".";
    var s := q + ms;
    var n := |dd|;
    assert s[..|q|] == q;
    assert s[n + 4..n + 6] == q[n + 4..n + 6] == mm;
    assert s[n + 7..n + 9] == q[n + 7..n + 9] == ss;
  }

  /** The digits `x` from `i` to `j`, as a field. */
  lemma {:induction false} DigitsField(s: string, i: nat, j: nat, x: string)
    requires i <= j <= |s| && s[i..j] == x && AllDigits(x)
    ensures DigitsBetween(s, i, j) && Field(s, i, j) == DigitsValue(x)
  {
    DigitsFromSlice(s, i, j);
  }

  /** A string whose fields are the digit texts `dd`, `hh`, `mm`, `ss` and
      `ms` matches with `|dd|` day digits and stands for their sum. */
  lemma {:induction false} DurationFields(s: string, dd: string, hh: string, mm: string, ss: string, ms: string)
    requires |dd| >= 1 && AllDigits(dd)
    requires |hh| == 2 && AllDigits(hh) && |mm| == 2 && AllDigits(mm) && |ss| == 2 && AllDigits(ss)
    requires |ms| == 3 && AllDigits(ms)
    requires var n := |dd|;
      n + 13 <= |s| && s[0..n] == dd && s[n] == ':' && s[n + 1..n + 3] == hh && s[n + 3] == ':'
      && s[n + 4..n + 6] == mm && s[n + 6] == ':'
      && s[n + 7..n + 9] == ss && s[n + 9] == '.' && s[n + 10..n + 13] == ms
    ensures DurationAt(s, |dd|) && DigitRun(s, 0) == |dd|
    ensures Millis(s, |dd|)
      == DurationMillis(DigitsValue(dd), DigitsValue(hh), DigitsValue(mm), DigitsValue(ss), DigitsValue(ms))
  {
    var n := |dd|;
    DigitsField(s, 0, n, dd);
    DigitsField(s, n + 1, n + 3, hh);
    DigitsField(s, n + 4, n + 6, mm);
    DigitsField(s, n + 7, n + 9, ss);
    DigitsField(s, n + 10, n + 13, ms);
    assert DurationAt(s, n);
    var f1, f2, f3, f4, f5 := Field(s, 0, n), Field(s, n + 1, n + 3), Field(s, n + 4, n + 6),
      Field(s, n + 7, n + 9), Field(s, n + 10, n + 13);
    assert Millis(s, n) == DurationMillis(f1, f2, f3, f4, f5);
    assert !IsDigit(s[n]);
    DigitRunExactly(s, 0, n);
  }

  /** Days, hours, minutes and seconds as durationStr splits them add up to
      the whole. */
  lemma {:induction false} SplitSeconds(d: nat)
    ensures var d1 := d % 86400;
      var d2 := d1 % 3600;
      DurationMillis(d / 86400, d1 / 3600, d2 / 60, d2 % 60, 0) == d * 1000
  {
    var d1 := d % 86400;
    var d2 := d1 % 3600;
    assert d == 86400 * (d / 86400) + d1;
    assert d1 == 3600 * (d1 / 3600) + d2;
    assert d2 == 60 * (d2 / 60) + d2 % 60;
  }

  /** durationStr followed by ".000" reads back, through
      dateStringToSeconds, as the same number of seconds. */
  lemma {:induction false} DurationRoundTrip(d: nat)
    ensures DateStringToMillis(DurationStr(d) + ".000") == Some(d * 1000)
  {
    var d1 := d % 86400;
    var d2 := d1 % 3600;
    TwoDigitsAtMost(d1 / 3600);
    TwoDigitsAtMost(d2 / 60);
    TwoDigitsAtMost(d2 % 60);
    var dd := NatToString(d / 86400);
    var hh, mm, ss := NDigitString(d1 / 3600, 2), NDigitString(d2 / 60, 2), NDigitString(d2 % 60, 2);
    var s := DurationStr(d) + ".000";
    assert s == dd + ":" + hh + ":" + mm + ":" + ss + "." + "000";
    DurationTextHead(dd, hh, mm, ss, "000");
    DurationTextTail(dd, hh, mm, ss, "000");
    assert DigitsValue("000") == 0 by {
      assert "000"[..2] == "00" && "00"[..1] == "0" && "0"[..0] == "";
    }
    DurationFields(s, dd, hh, mm, ss, "000");
    SplitSeconds(d);
  }

  /** A whole number of seconds written by durationStr is a valid auto-off
      delay exactly when it is from 1 s to 2147483 s. */
  lemma {:induction false} AutoOffDuration(d: nat)
    ensures AutoOffDelayValid(DurationStr(d) + ".000") == Some(1 <= d <= 2147483)
  {
    DurationRoundTrip(d);
  }

  // ---------------------------------------------------------------------
  // authHeaderToReq: the parameters of an HTTP digest challenge (section
  // 3.3 of RFC 7616), each read with the first match of its expression.
  // ---------------------------------------------------------------------

  /** The expression `prefix([^"]+)"` (quoted) or `prefix([A-Za-z0-9-]+)`
      tried at index `i`: the captured group, if it matches there. */
  function ValueAt(hdr: string, prefix: string, quoted: bool, i: nat): (v: Option<string>)
    ensures v.Some? ==> OccursAt(hdr, prefix, i) && |v.value| >= 1
    ensures v.Some? && quoted ==> OccursAt(hdr, prefix + v.value + "\"", i) && '"' !in v.value
    ensures v.Some? && !quoted ==> forall k :: 0 <= k < |v.value| ==> IsAlnumOrDash(v.value[k])
  {
    if !OccursAt(hdr, prefix, i) then None
    else
      var b := i + |prefix|;
      var n := ValueRun(hdr, b, quoted);
      ValueRunSpec(hdr, b, quoted);
      if n == 0 || (quoted && b + n == |hdr|) then None
      else
        var v := hdr[b..b + n];
        assert quoted ==> hdr[i..i + |prefix + v + "\""|] == prefix + v + "\"" by {
          if quoted {
            assert hdr[i..i + |prefix + v + "\""|] == hdr[i..b] + hdr[b..b + n] + [hdr[b + n]];
          }
        }
        Some(v)
  }

  /** The index `RegExp.exec` tries with success, searching from `i`;
      |hdr| + 1 when no index from `i` on matches. */
  function ExecAt(hdr: string, prefix: string, quoted: bool, i: nat): (k: nat)
    requires i <= |hdr|
    ensures i <= k <= |hdr| + 1
    ensures forall j :: i <= j < k ==> ValueAt(hdr, prefix, quoted, j).None?
    ensures k <= |hdr| ==> ValueAt(hdr, prefix, quoted, k).Some?
    decreases |hdr| - i
  {
    if ValueAt(hdr, prefix, quoted, i).Some? then i
    else if i == |hdr| then |hdr| + 1
    else ExecAt(hdr, prefix, quoted, i + 1)
  }

  /** `/prefix(...)/.exec(hdr)[1]`: the group of the leftmost match, `None`
      when `exec` returns null. */
  function Exec(hdr: string, prefix: string, quoted: bool): (v: Option<string>)
    ensures v.None? <==> forall k :: 0 <= k <= |hdr| ==> ValueAt(hdr, prefix, quoted, k).None?
  {
    var k := ExecAt(hdr, prefix, quoted, 0);
    if k <= |hdr| then ValueAt(hdr, prefix, quoted, k) else None
  }

  /** The request fields the digest answer is computed from. */
  datatype AuthRequest = AuthRequest(
    httpMethod: string, uri: string, nc: nat,
    realm: string, nonce: string, algorithm: string, opaqueParam: Option<string>)

  /** authHeaderToReq: realm, nonce and algorithm must be present (`[1]` of
      a null match raises); opaque is set only when present. */
  function AuthHeaderToReq(httpMethod: string, uri: string, hdr: string, nc: nat): (r: Option<AuthRequest>)
    ensures r.None? <==> Exec(hdr, "realm=\"", true).None? || Exec(hdr, "nonce=\"", true).None?
                         || Exec(hdr, "algorithm=", false).None?
    ensures r.Some? ==> r.value.httpMethod == httpMethod && r.value.uri == uri && r.value.nc == nc
    ensures r.Some? ==> Some(r.value.realm) == Exec(hdr, "realm=\"", true)
                        && Some(r.value.nonce) == Exec(hdr, "nonce=\"", true)
                        && Some(r.value.algorithm) == Exec(hdr, "algorithm=", false)
                        && r.value.opaqueParam == Exec(hdr, "opaque=\"", true)
  {
    var realm := Exec(hdr, "realm=\"", true);
    var nonce := Exec(hdr, "nonce=\"", true);
    var algorithm := Exec(hdr, "algorithm=", false);
    if realm.None? || nonce.None? || algorithm.None? then None
    else Some(AuthRequest(httpMethod, uri, nc, realm.value, nonce.value, algorithm.value,
                          Exec(hdr, "opaque=\"", true)))
  }

  /** `exec` returns the group at the first index where the expression
      matches. */
  lemma {:induction false} ExecFirst(hdr: string, prefix: string, quoted: bool, k: nat)
    requires k <= |hdr| && ValueAt(hdr, prefix, quoted, k).Some?
    requires forall j :: 0 <= j < k ==> ValueAt(hdr, prefix, quoted, j).None?
    ensures Exec(hdr, prefix, quoted) == ValueAt(hdr, prefix, quoted, k)
  {
    var e := ExecAt(hdr, prefix, quoted, 0);
    assert e == k;
  }

  /** `prefix([^"]+)"` matches `prefix"v"` with the whole of `v`. */
  lemma {:induction false} QuotedValueAt(pre: string, prefix: string, v: string, post: string)
    requires |v| >= 1 && '"' !in v
    ensures ValueAt(pre + prefix + v + "\"" + post, prefix, true, |pre|) == Some(v)
  {
    var hdr := pre + prefix + v + "\"" + post;
    var b := |pre| + |prefix|;
    assert hdr[|pre|..b] == prefix;
    assert hdr[b..b + |v|] == v;
    assert hdr[b + |v|] == '"';
    ValueRunExactly(hdr, b, |v|, true);
  }

  /** A quoted parameter `prefix"v"` is read whole when no earlier index
      matches. */
  lemma {:induction false} ExecFindsQuoted(pre: string, prefix: string, v: string, post: string)
    requires |v| >= 1 && '"' !in v
    requires forall j :: 0 <= j < |pre| ==> ValueAt(pre + prefix + v + "\"" + post, prefix, true, j).None?
    ensures Exec(pre + prefix + v + "\"" + post, prefix, true) == Some(v)
  {
    QuotedValueAt(pre, prefix, v, post);
    ExecFirst(pre + prefix + v + "\"" + post, prefix, true, |pre|);
  }

  /** A challenge without `opaque="…"` leaves opaque unset. */
  lemma {:induction false} NoOpaque(httpMethod: string, uri: string, hdr: string, nc: nat)
    requires !Contains(hdr, "opaque=\"")
    requires AuthHeaderToReq(httpMethod, uri, hdr, nc).Some?
    ensures AuthHeaderToReq(httpMethod, uri, hdr, nc).value.opaqueParam.None?
  {
  }

  // ---------------------------------------------------------------------
  // parseVersion: /^(\d+).(\d+).(\d+)-?([a-z]*)(\d*)$/ with JavaScript's
  // backtracking order. In it `.` is any character but a line terminator
  // and `$` matches only at the end.
  // ---------------------------------------------------------------------

  predicate IsLineTerminator(c: char) {
    c == '\n' || c == '\r' || c == '\U{2028}' || c == '\U{2029}'
  }

  /** `-?([a-z]*)(\d*)$`: whether the dash was taken and the lengths of the
      two groups. */
  datatype JsTail = JsTail(dash: bool, tagLen: nat, seqLen: nat)

  /** Length of the run of lower-case letters (`[a-z]*`) starting at `i`. */
  function LowerRun(s: string, i: nat): (n: nat)
    requires i <= |s|
    ensures i + n <= |s|
    decreases |s| - i
  {
    if i == |s| || !IsLower(s[i]) then 0 else 1 + LowerRun(s, i + 1)
  }

  /** The run is all lower-case letters and stops at the end or at a
      character that is not one. */
  lemma {:induction false} LowerRunSpec(s: string, i: nat)
    requires i <= |s|
    ensures forall k :: i <= k < i + LowerRun(s, i) ==> IsLower(s[k])
    ensures i + LowerRun(s, i) == |s| || !IsLower(s[i + LowerRun(s, i)])
    decreases |s| - i
  {
    if i < |s| && IsLower(s[i]) {
      LowerRunSpec(s, i + 1);
    }
  }

  lemma {:induction false} LowerRunExactly(s: string, i: nat, n: nat)
    requires i + n <= |s| && forall k :: i <= k < i + n ==> IsLower(s[k])
    requires i + n == |s| || !IsLower(s[i + n])
    ensures LowerRun(s, i) == n
    decreases n
  {
    if n > 0 {
      LowerRunExactly(s, i + 1, n - 1);
    }
  }

  /** The tail as `t` describes it matches `s` from `z` to the end. */
  predicate JsTailAt(s: string, z: nat, t: JsTail) {
    var y := if t.dash then z + 1 else z;
    z <= |s| && y + t.tagLen + t.seqLen == |s|
    && (t.dash ==> z < |s| && s[z] == '-')
    && (forall k :: y <= k < y + t.tagLen ==> IsLower(s[k]))
    && DigitsBetween(s, y + t.tagLen, |s|)
  }

  /** A match is described by the lengths of its groups. */
  datatype JsMatch = JsMatch(majorLen: nat, minorLen: nat, patchLen: nat, tail: JsTail) {
    /** Where the patch group, the tail, the tag and the sequence start. */
    function PatchStart(): nat { majorLen + 2 + minorLen }
    function TailStart(): nat { PatchStart() + patchLen }
    function TagStart(): nat { if tail.dash then TailStart() + 1 else TailStart() }
    function SeqStart(): nat { TagStart() + tail.tagLen }
  }

  /** `^(\d+).(\d+).` with `a` and `b` digits. */
  predicate JsHeadAt(s: string, a: nat, b: nat) {
    1 <= a && 1 <= b && a + 1 + b < |s|
    && DigitsBetween(s, 0, a) && !IsLineTerminator(s[a])
    && DigitsBetween(s, a + 1, a + 1 + b) && !IsLineTerminator(s[a + 1 + b])
  }

  /** `(\d+)` with `c` digits from `x`, then the tail `t`. */
  predicate JsPatchAt(s: string, x: nat, c: nat, t: JsTail) {
    1 <= c && x + c <= |s| && DigitsBetween(s, x, x + c) && JsTailAt(s, x + c, t)
  }

  predicate IsJsMatch(s: string, m: JsMatch) {
    JsHeadAt(s, m.majorLen, m.minorLen)
    && JsPatchAt(s, m.majorLen + 2 + m.minorLen, m.patchLen, m.tail)
  }

  /** The tail from `z`: the dash is taken when present and the tag takes
      every lower-case letter; no other choice can reach the end. */
  function MatchJsTail(s: string, z: nat): Option<JsTail>
    requires z <= |s|
  {
    var dash := z < |s| && s[z] == '-';
    var y := if dash then z + 1 else z;
    var l := LowerRun(s, y);
    var d := DigitRun(s, y + l);
    if y + l + d == |s| then Some(JsTail(dash, l, d)) else None
  }

  /** The patch group from `x` takes the whole digit run: a shorter one
      leaves a digit the tail can only take if the whole run could. */
  function MatchJsPatch(s: string, x: nat): Option<(nat, JsTail)>
    requires x <= |s|
  {
    var c := DigitRun(s, x);
    if c == 0 then None
    else match MatchJsTail(s, x + c)
      case None => None
      case Some(t) => Some((c, t))
  }

  /** The minor number after the separator at `a`, with at most `b` digits,
      longest first. */
  function JsTryMinor(s: string, a: nat, b: nat): Option<JsMatch>
    requires a + 1 + b <= |s|
  {
    if b == 0 then None
    else
      var found :=
        if a + 1 + b < |s| && !IsLineTerminator(s[a + 1 + b]) then MatchJsPatch(s, a + 2 + b) else None;
      match found
      case Some(p) => Some(JsMatch(a, b, p.0, p.1))
      case None => JsTryMinor(s, a, b - 1)
  }

  /** The major number with at most `a` digits, longest first. */
  function JsTryMajor(s: string, a: nat): Option<JsMatch>
    requires a <= |s|
  {
    if a == 0 then None
    else
      var found :=
        if a < |s| && !IsLineTerminator(s[a]) then JsTryMinor(s, a, DigitRun(s, a + 1)) else None;
      if found.Some? then found else JsTryMajor(s, a - 1)
  }

  /** The match `String.prototype.match` finds, if there is one. */
  function MatchJs(s: string): Option<JsMatch> {
    JsTryMajor(s, DigitRun(s, 0))
  }

  // Soundness: what the search returns is a match.

  lemma {:induction false} MatchJsTailSound(s: string, z: nat)
    requires z <= |s|
    ensures MatchJsTail(s, z).Some? ==> JsTailAt(s, z, MatchJsTail(s, z).value)
  {
    var y := if z < |s| && s[z] == '-' then z + 1 else z;
    LowerRunSpec(s, y);
    DigitRunSpec(s, y + LowerRun(s, y));
  }

  lemma {:induction false} MatchJsPatchSound(s: string, x: nat)
    requires x <= |s|
    ensures MatchJsPatch(s, x).Some? ==> JsPatchAt(s, x, MatchJsPatch(s, x).value.0, MatchJsPatch(s, x).value.1)
  {
    var c := DigitRun(s, x);
    DigitRunSpec(s, x);
    if c != 0 {
      MatchJsTailSound(s, x + c);
    }
  }

  /** A patch found after `b` minor digits completes a match. */
  lemma {:induction false} MinorFoundSound(s: string, a: nat, b: nat)
    requires 1 <= a < |s| && DigitsBetween(s, 0, a) && !IsLineTerminator(s[a])
    requires 1 <= b && a + 1 + b < |s| && DigitsBetween(s, a + 1, a + 1 + b)
    requires !IsLineTerminator(s[a + 1 + b]) && MatchJsPatch(s, a + 2 + b).Some?
    ensures JsTryMinor(s, a, b).Some? && IsJsMatch(s, JsTryMinor(s, a, b).value)
    ensures JsTryMinor(s, a, b).value.majorLen == a
  {
    var p := MatchJsPatch(s, a + 2 + b).value;
    var m := JsMatch(a, b, p.0, p.1);
    assert JsTryMinor(s, a, b) == Some(m);
    assert IsJsMatch(s, m) by {
      MatchJsPatchSound(s, a + 2 + b);
    }
  }

  lemma {:induction false} JsTryMinorSound(s: string, a: nat, b: nat)
    requires 1 <= a < |s| && DigitsBetween(s, 0, a) && !IsLineTerminator(s[a])
    requires a + 1 + b <= |s| && DigitsBetween(s, a + 1, a + 1 + b)
    ensures JsTryMinor(s, a, b).Some? ==> IsJsMatch(s, JsTryMinor(s, a, b).value)
    ensures JsTryMinor(s, a, b).Some? ==> JsTryMinor(s, a, b).value.majorLen == a
    decreases b
  {
    if b > 0 {
      var found :=
        if a + 1 + b < |s| && !IsLineTerminator(s[a + 1 + b]) then MatchJsPatch(s, a + 2 + b) else None;
      if found.Some? {
        MinorFoundSound(s, a, b);
      } else {
        assert JsTryMinor(s, a, b) == JsTryMinor(s, a, b - 1);
        assert DigitsBetween(s, a + 1, a + 1 + (b - 1));
        JsTryMinorSound(s, a, b - 1);
      }
    }
  }

  lemma {:induction false} JsTryMajorSound(s: string, a: nat)
    requires a <= |s| && DigitsBetween(s, 0, a)
    ensures JsTryMajor(s, a).Some? ==> IsJsMatch(s, JsTryMajor(s, a).value)
    decreases a
  {
    if a > 0 {
      if a < |s| && !IsLineTerminator(s[a]) {
        DigitRunSpec(s, a + 1);
        JsTryMinorSound(s, a, DigitRun(s, a + 1));
      }
      JsTryMajorSound(s, a - 1);
    }
  }

  /** What the search returns is a match of the expression. */
  lemma {:induction false} MatchJsSound(s: string)
    ensures MatchJs(s).Some? ==> IsJsMatch(s, MatchJs(s).value)
  {
    DigitRunSpec(s, 0);
    JsTryMajorSound(s, DigitRun(s, 0));
  }

  // Completeness: whenever the expression can match, the search finds a
  // match.

  /** The tail, when it matches, matches in one way only. */
  lemma {:induction false} JsTailUnique(s: string, z: nat, t: JsTail)
    requires JsTailAt(s, z, t)
    ensures MatchJsTail(s, z) == Some(t)
  {
    var y := if t.dash then z + 1 else z;
    if y + t.tagLen < |s| {
      assert IsDigit(s[y + t.tagLen]);
    }
    LowerRunExactly(s, y, t.tagLen);
    DigitRunExactly(s, y + t.tagLen, t.seqLen);
  }

  /** When a digit follows the patch group, the tail holds only digits. */
  lemma {:induction false} JsTailAfterDigit(s: string, z: nat, t: JsTail)
    requires JsTailAt(s, z, t) && z < |s| && IsDigit(s[z])
    ensures DigitsBetween(s, z, |s|)
  {
    assert !t.dash && t.tagLen == 0;
  }

  lemma {:induction false} JsPatchComplete(s: string, x: nat, c: nat, t: JsTail)
    requires JsPatchAt(s, x, c, t)
    ensures MatchJsPatch(s, x).Some?
  {
    DigitRunAtLeast(s, x, c);
    DigitRunSpec(s, x);
    if DigitRun(s, x) == c {
      JsTailUnique(s, x + c, t);
    } else {
      JsTailAfterDigit(s, x + c, t);
      assert DigitsBetween(s, x, |s|);
      DigitRunExactly(s, x, |s| - x);
      JsTailUnique(s, |s|, JsTail(false, 0, 0));
    }
  }

  /** The minor number tried at a length the patch group can follow. */
  lemma {:induction false} JsMinorAt(s: string, a: nat, b: nat)
    requires JsHeadAt(s, a, b) && MatchJsPatch(s, a + 2 + b).Some?
    ensures JsTryMinor(s, a, b).Some?
  {
  }

  /** A success with a shorter minor number is kept by a longer try. */
  lemma {:induction false} JsMinorStep(s: string, a: nat, b: nat)
    requires 1 <= a < |s| && DigitsBetween(s, 0, a) && !IsLineTerminator(s[a])
    requires 1 <= b && a + 1 + b <= |s| && DigitsBetween(s, a + 1, a + 1 + b)
    requires JsTryMinor(s, a, b - 1).Some?
    ensures JsTryMinor(s, a, b).Some?
  {
  }

  /** The minor number of a match, tried at its own length, succeeds. */
  lemma {:induction false} JsMinorAtMatch(s: string, m: JsMatch)
    requires IsJsMatch(s, m)
    ensures JsTryMinor(s, m.majorLen, m.minorLen).Some?
  {
    var a, b := m.majorLen, m.minorLen;
    JsPatchComplete(s, a + 2 + b, m.patchLen, m.tail);
    JsMinorAt(s, a, b);
  }

  lemma {:induction false} JsTryMinorComplete(s: string, a: nat, b: nat, m: JsMatch)
    requires 1 <= a < |s| && DigitsBetween(s, 0, a) && !IsLineTerminator(s[a])
    requires a + 1 + b <= |s| && DigitsBetween(s, a + 1, a + 1 + b)
    requires IsJsMatch(s, m) && m.majorLen == a && m.minorLen <= b
    ensures JsTryMinor(s, a, b).Some?
    decreases b
  {
    if b == m.minorLen {
      JsMinorAtMatch(s, m);
    } else {
      assert DigitsBetween(s, a + 1, a + b);
      JsTryMinorComplete(s, a, b - 1, m);
      JsMinorStep(s, a, b);
    }
  }

  /** The major number of a match, tried at its own length, succeeds. */
  lemma {:induction false} JsMajorAtMatch(s: string, m: JsMatch)
    requires IsJsMatch(s, m)
    ensures JsTryMajor(s, m.majorLen).Some?
  {
    var a := m.majorLen;
    DigitRunAtLeast(s, a + 1, m.minorLen);
    DigitRunSpec(s, a + 1);
    JsTryMinorComplete(s, a, DigitRun(s, a + 1), m);
  }

  /** A success with a shorter major number is kept by a longer try. */
  lemma {:induction false} JsMajorStep(s: string, a: nat)
    requires 1 <= a <= |s| && DigitsBetween(s, 0, a)
    requires JsTryMajor(s, a - 1).Some?
    ensures JsTryMajor(s, a).Some?
  {
  }

  lemma {:induction false} JsTryMajorComplete(s: string, a: nat, m: JsMatch)
    requires a <= |s| && DigitsBetween(s, 0, a)
    requires IsJsMatch(s, m) && m.majorLen <= a
    ensures JsTryMajor(s, a).Some?
    decreases a
  {
    if a == m.majorLen {
      JsMajorAtMatch(s, m);
    } else {
      JsTryMajorComplete(s, a - 1, m);
      JsMajorStep(s, a);
    }
  }

  /** The search is complete: a string the expression can match is matched. */
  lemma {:induction false} MatchJsComplete(s: string, m: JsMatch)
    requires IsJsMatch(s, m)
    ensures MatchJs(s).Some?
  {
    DigitRunAtLeast(s, 0, m.majorLen);
    DigitRunSpec(s, 0);
    JsTryMajorComplete(s, DigitRun(s, 0), m);
  }

  /** What parseVersion returns. */
  datatype JsVersion = JsVersion(major: nat, minor: nat, patch: nat, variant: string, varSeq: nat)

  /** The groups of `m` lie within `s` and the number groups are digits. */
  predicate JsBounds(s: string, m: JsMatch) {
    m.SeqStart() <= |s| && DigitsBetween(s, 0, m.majorLen)
    && DigitsBetween(s, m.majorLen + 1, m.majorLen + 1 + m.minorLen)
    && DigitsBetween(s, m.PatchStart(), m.TailStart()) && DigitsBetween(s, m.SeqStart(), |s|)
  }

  lemma {:induction false} MatchJsBounds(s: string)
    ensures MatchJs(s).Some? ==> JsBounds(s, MatchJs(s).value)
  {
    MatchJsSound(s);
  }

  /** The groups of a match: `parseInt` of the numbers, the tag as it
      stands, and 0 for an empty sequence (`NaN || 0`). */
  function JsGroups(s: string, m: JsMatch): (v: JsVersion)
    requires JsBounds(s, m)
  {
    JsVersion(Field(s, 0, m.majorLen), Field(s, m.majorLen + 1, m.majorLen + 1 + m.minorLen),
              Field(s, m.PatchStart(), m.TailStart()), s[m.TagStart()..m.SeqStart()], Field(s, m.SeqStart(), |s|))
  }

  /** parseVersion: `None` where `.groups` of a failed match raises. */
  function JsParseVersion(s: string): (v: Option<JsVersion>)
  {
    match MatchJs(s)
    case None => None
    case Some(m) => MatchJsBounds(s); Some(JsGroups(s, m))
  }

  /** parseVersion raises exactly when the expression cannot match. */
  lemma {:induction false} JsParseVersionDefined(s: string)
    ensures JsParseVersion(s).Some? <==> exists m :: IsJsMatch(s, m)
  {
    MatchJsSound(s);
    if m :| IsJsMatch(s, m) {
      MatchJsComplete(s, m);
    }
  }

  /** "major.minor.patch", then "-tag" and the sequence when there is a
      tag, from the texts of the parts. */
  function VersionString(major: string, minor: string, patch: string, tag: string, seqText: string): string {
    major + "." + minor + "." + patch + (if tag == "" then "" else "-" + tag + seqText)
  }

  /** The text of a version; no sequence is written for 0. */
  function JsVersionText(v: JsVersion): string {
    VersionString(NatToString(v.major), NatToString(v.minor), NatToString(v.patch), v.variant,
                  if v.varSeq == 0 then "" else NatToString(v.varSeq))
  }

  /** The shape of the tail written for `tag` and `seqText`. */
  function TailShape(tag: string, seqText: string): JsTail {
    if tag == "" then JsTail(false, 0, 0) else JsTail(true, |tag|, |seqText|)
  }

  /** The tail is read back by the tail matcher, groups and all. */
  lemma {:induction false} TailRoundTrip(s: string, z: nat, tag: string, seqText: string)
    requires forall k :: 0 <= k < |tag| ==> IsLower(tag[k])
    requires AllDigits(seqText) && (tag == "" ==> seqText == "")
    requires z <= |s| && s[z..] == (if tag == "" then "" else "-" + tag + seqText)
    ensures var t := TailShape(tag, seqText);
      var y := if t.dash then z + 1 else z;
      MatchJsTail(s, z) == Some(t)
      && y + t.tagLen <= |s| && s[y..y + t.tagLen] == tag && s[y + t.tagLen..] == seqText
  {
    var t := TailShape(tag, seqText);
    if tag == "" {
      assert z == |s|;
      JsTailUnique(s, z, t);
    } else {
      var e := z + 1 + |tag|;
      assert s[z] == s[z..][0] == '-';
      assert s[z + 1..e] == s[z..][1..1 + |tag|] == tag;
      assert s[e..] == s[z..][1 + |tag|..] == seqText;
      DigitsFromSlice(s, e, |s|);
      JsTailUnique(s, z, t);
    }
  }

  /** The steps of the search that succeed at their first try. */
  lemma {:induction false} PatchFound(s: string, x: nat, c: nat, z: nat, t: JsTail)
    requires 1 <= c && z == x + c && z <= |s| && DigitRun(s, x) == c && MatchJsTail(s, z) == Some(t)
    ensures MatchJsPatch(s, x) == Some((c, t))
  {
  }

  lemma {:induction false} MinorFound(s: string, a: nat, b: nat, c: nat, t: JsTail)
    requires JsHeadAt(s, a, b) && MatchJsPatch(s, a + 2 + b) == Some((c, t))
    ensures JsTryMinor(s, a, b) == Some(JsMatch(a, b, c, t))
  {
  }

  lemma {:induction false} MajorFound(s: string, a: nat, m: JsMatch)
    requires 1 <= a < |s| && DigitsBetween(s, 0, a) && !IsLineTerminator(s[a])
    requires JsTryMinor(s, a, DigitRun(s, a + 1)) == Some(m)
    ensures JsTryMajor(s, a) == Some(m)
  {
  }

  /** The minor try at the whole digit run succeeds when the patch group
      and the tail follow it. */
  lemma {:induction false} MinorFromTail(s: string, a: nat, b: nat, c: nat, z: nat, t: JsTail)
    requires JsHeadAt(s, a, b)
    requires 1 <= c && z == a + 2 + b + c && z <= |s| && DigitRun(s, a + 2 + b) == c
    requires MatchJsTail(s, z) == Some(t)
    ensures JsTryMinor(s, a, b) == Some(JsMatch(a, b, c, t))
  {
    PatchFound(s, a + 2 + b, c, z, t);
    MinorFound(s, a, b, c, t);
  }

  /** The search returns what the first minor try finds. */
  lemma {:induction false} MatchFromMinor(s: string, a: nat, b: nat, m: JsMatch)
    requires JsHeadAt(s, a, b) && DigitRun(s, 0) == a && DigitRun(s, a + 1) == b
    requires JsTryMinor(s, a, b) == Some(m)
    ensures MatchJs(s) == Some(m)
  {
    MajorFound(s, a, m);
  }

  /** When the longest runs of digits are followed by what the expression
      needs, the search stops at its first try. */
  lemma {:induction false} FirstTryMatch(s: string, a: nat, b: nat, c: nat, z: nat, t: JsTail)
    requires JsHeadAt(s, a, b) && DigitRun(s, 0) == a && DigitRun(s, a + 1) == b
    requires 1 <= c && z == a + 2 + b + c && z <= |s| && DigitRun(s, a + 2 + b) == c
    requires MatchJsTail(s, z) == Some(t)
    ensures MatchJs(s) == Some(JsMatch(a, b, c, t))
  {
    MinorFromTail(s, a, b, c, z, t);
    MatchFromMinor(s, a, b, JsMatch(a, b, c, t));
  }

  /** The three numbers of a version text are the longest digit runs the
      expression looks for. */
  lemma {:induction false} VersionHead(A: string, B: string, C: string, T: string)
    requires |A| >= 1 && AllDigits(A) && |B| >= 1 && AllDigits(B) && |C| >= 1 && AllDigits(C)
    requires T == [] || T[0] == '-'
    ensures var s := A + "." + B + "." + C + T;
      JsHeadAt(s, |A|, |B|) && DigitRun(s, 0) == |A| && DigitRun(s, |A| + 1) == |B|
      && |A| + 2 + |B| + |C| <= |s| && DigitRun(s, |A| + 2 + |B|) == |C|
  {
    VersionMajor(A, B, C, T);
    VersionMinor(A, B, C, T);
    VersionPatch(A, B, C, T);
  }

  /** The match found in a version text has the lengths of its parts. */
  lemma {:induction false} VersionMatch(A: string, B: string, C: string, tag: string, seqText: string)
    requires |A| >= 1 && AllDigits(A) && |B| >= 1 && AllDigits(B) && |C| >= 1 && AllDigits(C)
    requires forall k :: 0 <= k < |tag| ==> IsLower(tag[k])
    requires AllDigits(seqText) && (tag == "" ==> seqText == "")
    ensures var s := VersionString(A, B, C, tag, seqText);
      MatchJs(s) == Some(JsMatch(|A|, |B|, |C|, TailShape(tag, seqText)))
  {
    var T := if tag == "" then "" else "-" + tag + seqText;
    var s := A + "." + B + "." + C + T;
    var z := |A| + 2 + |B| + |C|;
    var t := TailShape(tag, seqText);
    VersionHead(A, B, C, T);
    assert MatchJsTail(s, z) == Some(t) by {
      assert s[z..] == T;
      TailRoundTrip(s, z, tag, seqText);
    }
    FirstTryMatch(s, |A|, |B|, |C|, z, t);
  }

  /** parseVersion returns the groups of the match it finds. */
  lemma {:induction false} JsParseVersionIs(s: string, m: JsMatch)
    requires MatchJs(s) == Some(m)
    ensures JsBounds(s, m) && JsParseVersion(s) == Some(JsGroups(s, m))
  {
    MatchJsBounds(s);
  }

  /** Where the texts of the parts stand at the positions of the groups of
      `m`, the groups are the values of the texts. */
  lemma {:induction false} GroupsAt(s: string, m: JsMatch, A: string, B: string, C: string, tag: string, seqText: string)
    requires AllDigits(A) && AllDigits(B) && AllDigits(C) && AllDigits(seqText)
    requires m.SeqStart() <= |s| && s[0..m.majorLen] == A && s[m.majorLen + 1..m.majorLen + 1 + m.minorLen] == B
    requires s[m.PatchStart()..m.TailStart()] == C
    requires s[m.TagStart()..m.SeqStart()] == tag && s[m.SeqStart()..] == seqText
    ensures JsBounds(s, m)
    ensures JsGroups(s, m) == JsVersion(DigitsValue(A), DigitsValue(B), DigitsValue(C), tag, DigitsValue(seqText))
  {
    BoundsAt(s, m, A, B, C, seqText);
    FieldOf(s, 0, m.majorLen, A);
    FieldOf(s, m.majorLen + 1, m.majorLen + 1 + m.minorLen, B);
    FieldOf(s, m.PatchStart(), m.TailStart(), C);
    assert s[m.SeqStart()..|s|] == seqText;
    FieldOf(s, m.SeqStart(), |s|, seqText);
  }

  /** Digit texts at the positions of the number groups make them digits. */
  lemma {:induction false} BoundsAt(s: string, m: JsMatch, A: string, B: string, C: string, seqText: string)
    requires AllDigits(A) && AllDigits(B) && AllDigits(C) && AllDigits(seqText)
    requires m.SeqStart() <= |s| && s[0..m.majorLen] == A && s[m.majorLen + 1..m.majorLen + 1 + m.minorLen] == B
    requires s[m.PatchStart()..m.TailStart()] == C && s[m.SeqStart()..] == seqText
    ensures JsBounds(s, m)
  {
    DigitsFromSlice(s, 0, m.majorLen);
    DigitsFromSlice(s, m.majorLen + 1, m.majorLen + 1 + m.minorLen);
    DigitsFromSlice(s, m.PatchStart(), m.TailStart());
    assert s[m.SeqStart()..|s|] == seqText;
    DigitsFromSlice(s, m.SeqStart(), |s|);
  }

  /** A field whose characters are the text `x` has the value of `x`. */
  lemma {:induction false} FieldOf(s: string, i: nat, j: nat, x: string)
    requires i <= j <= |s| && DigitsBetween(s, i, j) && AllDigits(x) && s[i..j] == x
    ensures Field(s, i, j) == DigitsValue(x)
  {
  }

  /** Where the parts stand in a version text: at the positions of the
      groups of the match with their lengths. */
  lemma {:induction false} VersionLayout(A: string, B: string, C: string, tag: string, seqText: string, m: JsMatch)
    requires |A| >= 1 && AllDigits(A) && |B| >= 1 && AllDigits(B) && |C| >= 1 && AllDigits(C)
    requires forall k :: 0 <= k < |tag| ==> IsLower(tag[k])
    requires AllDigits(seqText) && (tag == "" ==> seqText == "")
    requires m == JsMatch(|A|, |B|, |C|, TailShape(tag, seqText))
    ensures var s := VersionString(A, B, C, tag, seqText);
      m.SeqStart() <= |s| && s[0..m.majorLen] == A && s[m.majorLen + 1..m.majorLen + 1 + m.minorLen] == B
      && s[m.PatchStart()..m.TailStart()] == C
      && s[m.TagStart()..m.SeqStart()] == tag && s[m.SeqStart()..] == seqText
  {
    var T := if tag == "" then "" else "-" + tag + seqText;
    var s := VersionString(A, B, C, tag, seqText);
    assert m.majorLen == |A| && m.minorLen == |B| && m.patchLen == |C|;
    assert m.tail == TailShape(tag, seqText);
    var z := |A| + 2 + |B| + |C|;
    assert s[0..|A|] == A && s[|A| + 1..|A| + 1 + |B|] == B && s[|A| + 2 + |B|..z] == C by {
      VersionMajor(A, B, C, T);
      VersionMinor(A, B, C, T);
      VersionPatch(A, B, C, T);
    }
    assert s[z..] == T;
    TailRoundTrip(s, z, tag, seqText);
  }

  /** parseVersion reads the parts of a version text back. */
  lemma {:induction false} ParseVersionString(A: string, B: string, C: string, tag: string, seqText: string)
    requires |A| >= 1 && AllDigits(A) && |B| >= 1 && AllDigits(B) && |C| >= 1 && AllDigits(C)
    requires forall k :: 0 <= k < |tag| ==> IsLower(tag[k])
    requires AllDigits(seqText) && (tag == "" ==> seqText == "")
    ensures JsParseVersion(VersionString(A, B, C, tag, seqText))
      == Some(JsVersion(DigitsValue(A), DigitsValue(B), DigitsValue(C), tag, DigitsValue(seqText)))
  {
    var s := VersionString(A, B, C, tag, seqText);
    var m := JsMatch(|A|, |B|, |C|, TailShape(tag, seqText));
    VersionMatch(A, B, C, tag, seqText);
    VersionLayout(A, B, C, tag, seqText, m);
    JsParseVersionIs(s, m);
    GroupsAt(s, m, A, B, C, tag, seqText);
  }

  /** parseVersion reads back every version JsVersionText writes, provided
      the tag is lower case and a sequence comes only with a tag. */
  lemma {:induction false} JsParseVersionText(v: JsVersion)
    requires forall k :: 0 <= k < |v.variant| ==> IsLower(v.variant[k])
    requires v.variant == "" ==> v.varSeq == 0
    ensures JsParseVersion(JsVersionText(v)) == Some(v)
  {
    var seqText := if v.varSeq == 0 then "" else NatToString(v.varSeq);
    ParseVersionString(NatToString(v.major), NatToString(v.minor), NatToString(v.patch), v.variant, seqText);
  }

  /** isNewer on parsed versions: field by field, and any two different
      tags make the first one newer. */
  predicate NewerThan(x: JsVersion, y: JsVersion) {
    if x.major != y.major then x.major > y.major
    else if x.minor != y.minor then x.minor > y.minor
    else if x.patch != y.patch then x.patch > y.patch
    else if x.variant != y.variant then true
    else if x.varSeq != y.varSeq then x.varSeq > y.varSeq
    else false
  }

  /** isNewer: `None` when either version does not parse (v1 is parsed
      first, and either failure raises). */
  function IsNewer(v1: string, v2: string): (r: Option<bool>)
    ensures r.None? <==> JsParseVersion(v1).None? || JsParseVersion(v2).None?
  {
    match JsParseVersion(v1)
    case None => None
    case Some(x) =>
      match JsParseVersion(v2)
      case None => None
      case Some(y) => Some(NewerThan(x, y))
  }

  /** No version is newer than itself. */
  lemma {:induction false} IsNewerIrreflexive(v: string)
    requires JsParseVersion(v).Some?
    ensures IsNewer(v, v) == Some(false)
  {
  }

  /** Same numbers and different tags: each is "newer" than the other. */
  lemma {:induction false} IsNewerDifferentTags(v1: string, v2: string)
    requires JsParseVersion(v1).Some? && JsParseVersion(v2).Some?
    requires var x, y := JsParseVersion(v1).value, JsParseVersion(v2).value;
      x.major == y.major && x.minor == y.minor && x.patch == y.patch && x.variant != y.variant
    ensures IsNewer(v1, v2) == Some(true) && IsNewer(v2, v1) == Some(true)
  {
  }

  /** With equal tags the order is strict and total: of two different
      versions exactly one is newer. */
  lemma {:induction false} IsNewerSameTag(x: JsVersion, y: JsVersion)
    requires x.variant == y.variant && x != y
    ensures NewerThan(x, y) != NewerThan(y, x)
  {
  }

  // ---------------------------------------------------------------------
  // checkUpdate: the first entry whose expression matches the running
  // version gives the version and the per-model URL.
  // ---------------------------------------------------------------------

  /** One entry's configuration: `version` and `urls` may be missing. */
  datatype UpdateCfg = UpdateCfg(version: Option<string>, urls: Option<map<string, string>>)

  datatype UpdateEntry = UpdateEntry(pattern: string, cfg: UpdateCfg)

  /** What the update check shows: nothing found (the error message), up to
      date, an offer to install, or a failure (a raised exception, caught). */
  datatype UpdateCheck = UpdateNotFound | UpToDate | UpdateAvailable(version: string, url: string) | CheckFailed

  /** Index of the first entry whose expression matches `cur`, |entries|
      when none does. The expression engine is the parameter `matches`. */
  function FirstMatching(entries: seq<UpdateEntry>, cur: string, matches: (string, string) -> bool): (i: nat)
    ensures i <= |entries|
  {
    if entries == [] then 0
    else if matches(entries[0].pattern, cur) then 0
    else 1 + FirstMatching(entries[1..], cur, matches)
  }

  /** No entry before the index matches, and the entry at it does. */
  lemma {:induction false} FirstMatchingSpec(entries: seq<UpdateEntry>, cur: string, matches: (string, string) -> bool)
    ensures var i := FirstMatching(entries, cur, matches);
      (forall k :: 0 <= k < i ==> !matches(entries[k].pattern, cur))
      && (i < |entries| ==> matches(entries[i].pattern, cur))
  {
    if entries != [] && !matches(entries[0].pattern, cur) {
      FirstMatchingSpec(entries[1..], cur, matches);
      var i := FirstMatching(entries, cur, matches);
      forall k | 0 <= k < i
        ensures !matches(entries[k].pattern, cur)
      {
        if k > 0 {
          assert entries[k] == entries[1..][k - 1];
        }
      }
    }
  }

  /** The selection loop of the update check: the entries are tried in
      order and the first whose expression matches `cur` is taken. */
  method SelectEntry(entries: seq<UpdateEntry>, cur: string, matches: (string, string) -> bool) returns (i: nat)
    ensures i <= |entries|
    ensures forall k :: 0 <= k < i ==> !matches(entries[k].pattern, cur)
    ensures i < |entries| ==> matches(entries[i].pattern, cur)
    ensures i == FirstMatching(entries, cur, matches)
  {
    i := 0;
    while i < |entries| && !matches(entries[i].pattern, cur)
      invariant i <= |entries|
      invariant forall k :: 0 <= k < i ==> !matches(entries[k].pattern, cur)
      invariant FirstMatching(entries, cur, matches) == i + FirstMatching(entries[i..], cur, matches)
    {
      assert entries[i..][1..] == entries[i + 1..];
      i := i + 1;
    }
  }

  /** An empty string is as good as a missing one. */
  predicate Truthy(o: Option<string>) { o.Some? && o.value != "" }

  /** The update section is found: the first entry matching the running
      version gives a non-empty version and a non-empty URL for this model. */
  predicate SectionFound(entries: seq<UpdateEntry>, model: string, cur: string, matches: (string, string) -> bool) {
    var i := FirstMatching(entries, cur, matches);
    && i < |entries| && Truthy(entries[i].cfg.version)
    && entries[i].cfg.urls.Some? && model in entries[i].cfg.urls.value
    && entries[i].cfg.urls.value[model] != ""
  }

  /** The offer of the update check, from the update list it downloaded:
      nothing is found exactly when the section is missing; otherwise the
      comparison of the section's version with the running one decides
      between up to date, an offer and a failure. */
  function CheckUpdate(entries: seq<UpdateEntry>, model: string, cur: string,
                       matches: (string, string) -> bool): (r: UpdateCheck)
    ensures r == UpdateNotFound <==> !SectionFound(entries, model, cur, matches)
    ensures SectionFound(entries, model, cur, matches) ==>
      var latest := entries[FirstMatching(entries, cur, matches)].cfg.version.value;
      && (r == UpToDate <==> IsNewer(latest, cur) == Some(false))
      && (r == CheckFailed <==> IsNewer(latest, cur).None?)
      && (r.UpdateAvailable? <==> IsNewer(latest, cur) == Some(true))
    ensures r.UpdateAvailable? ==>
      var i := FirstMatching(entries, cur, matches);
      i < |entries| && entries[i].cfg.version == Some(r.version)
      && entries[i].cfg.urls.Some? && model in entries[i].cfg.urls.value
      && entries[i].cfg.urls.value[model] == r.url && r.url != ""
      && IsNewer(r.version, cur) == Some(true)
    ensures FirstMatching(entries, cur, matches) == |entries| ==> r == UpdateNotFound
  {
    var i := FirstMatching(entries, cur, matches);
    if i == |entries| then UpdateNotFound
    else
      var cfg := entries[i].cfg;
      var url := if cfg.urls.Some? && model in cfg.urls.value then Some(cfg.urls.value[model]) else None;
      if !Truthy(cfg.version) || !Truthy(url) then UpdateNotFound
      else match IsNewer(cfg.version.value, cur)
        case None => CheckFailed
        case Some(true) => UpdateAvailable(cfg.version.value, url.value)
        case Some(false) => UpToDate
  }

  /** Entries after the first match are never looked at. */
  lemma {:induction false} FirstMatchingPrefix(entries: seq<UpdateEntry>, more: seq<UpdateEntry>, cur: string,
                                               matches: (string, string) -> bool)
    requires FirstMatching(entries, cur, matches) < |entries|
    ensures FirstMatching(entries + more, cur, matches) == FirstMatching(entries, cur, matches)
  {
    if !matches(entries[0].pattern, cur) {
      assert (entries + more)[1..] == entries[1..] + more;
      FirstMatchingPrefix(entries[1..], more, cur, matches);
    }
  }

  lemma {:induction false} CheckUpdateIgnoresLater(entries: seq<UpdateEntry>, more: seq<UpdateEntry>, model: string, cur: string,
                                matches: (string, string) -> bool)
    requires FirstMatching(entries, cur, matches) < |entries|
    ensures CheckUpdate(entries + more, model, cur, matches) == CheckUpdate(entries, model, cur, matches)
  {
    FirstMatchingPrefix(entries, more, cur, matches);
    var i := FirstMatching(entries, cur, matches);
    assert (entries + more)[i] == entries[i];
  }
}
