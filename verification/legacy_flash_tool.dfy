/** The older flashing script `flash_shelly.py`: the table from a device's
    reported type to a model name, and the dotted version comparison it
    uses to decide whether a release is newer than the installed one. */
module LegacyFlashTool {
  import opened Wrappers
  import opened Text

  // ---------------------------------------------------------------------
  // shelly_model
  // ---------------------------------------------------------------------

  /** Model names for the HomeKit firmware, keyed by stock device id or by
      stock application name. */
  const HomekitModels: map<string, string> := map[
    "SHSW-1" := "Shelly1", "switch1" := "Shelly1",
    "SHSW-PM" := "Shelly1PM", "switch1pm" := "Shelly1PM",
    "SHSW-21" := "Shelly2", "switch2" := "Shelly2",
    "SHSW-25" := "Shelly25", "switch25" := "Shelly25",
    "SHPLG-S" := "ShellyPlugS", "shelly-plug-s" := "ShellyPlugS",
    "SHDM-1" := "ShellyDimmer", "dimmer1" := "ShellyDimmer",
    "SHRGBW2" := "ShellyRGBW2", "rgbw2" := "ShellyRGBW2"]

  /** Stock device ids, keyed by stock application name. */
  const StockModels: map<string, string> := map[
    "switch1" := "SHSW-1", "switch1pm" := "SHSW-PM", "switch2" := "SHSW-21",
    "switch25" := "SHSW-25", "shelly-plug-s" := "SHPLG-S", "dimmer1" := "SHDM-1",
    "rgbw2" := "SHRGBW2"]

  /** The table shelly_model looks in: the stock one in "stock" mode, the
      HomeKit one in every other mode. */
  function ModelTable(mode: string): map<string, string> {
    if mode != "stock" then HomekitModels else StockModels
  }

  /** shelly_model: the entry for `kind`; an unknown type raises KeyError,
      which is None here. */
  function ShellyModel(kind: string, mode: string): (r: Option<string>)
    ensures r.Some? <==> kind in ModelTable(mode)
    ensures r.Some? ==> r.value in ModelTable(mode).Values
  {
    if kind in ModelTable(mode) then Some(ModelTable(mode)[kind]) else None
  }

  /** The two tables agree: the stock id of an application name has the
      same HomeKit model as the name itself. */
  lemma {:induction false} ShellyModelTablesAgree(app: string)
    requires ShellyModel(app, "stock").Some?
    ensures ShellyModel(ShellyModel(app, "stock").value, "homekit") == ShellyModel(app, "homekit")
    ensures ShellyModel(app, "homekit").Some?
  {
  }

  /** A type in neither table fails in every mode. */
  lemma {:induction false} ShellyModelUnknown(kind: string, mode: string)
    requires kind !in HomekitModels
    ensures ShellyModel(kind, mode).None?
  {
    assert StockModels.Keys <= HomekitModels.Keys;
  }

  /** Every stock id is known to the HomeKit table but not to the stock
      one: stock mode only accepts application names. */
  lemma {:induction false} StockIdsOnlyInHomekitTable(id: string)
    requires id in StockModels.Values
    ensures ShellyModel(id, "homekit").Some? && ShellyModel(id, "stock").None?
  {
  }

  // ---------------------------------------------------------------------
  // versionCompare
  // ---------------------------------------------------------------------

  /** The ASCII characters `int()` treats as white space: space, tab to
      carriage return, and the separators 0x1C-0x1F. */
  predicate IsPySpace(c: char) {
    c == ' ' || 9 <= c as int <= 13 || 28 <= c as int <= 31
  }

  /** `s` without its leading white space. */
  function LStrip(s: string): (t: string)
    ensures |t| <= |s| && (t == [] || !IsPySpace(t[0]))
  {
    if s != [] && IsPySpace(s[0]) then LStrip(s[1..]) else s
  }

  /** `s` without its trailing white space. */
  function RStrip(s: string): (t: string)
    ensures |t| <= |s| && (t == [] || !IsPySpace(t[|t| - 1]))
  {
    if s != [] && IsPySpace(s[|s| - 1]) then RStrip(s[..|s| - 1]) else s
  }

  predicate DigitsOrUnderscores(d: string) {
    forall i :: 0 <= i < |d| ==> IsDigit(d[i]) || d[i] == '_'
  }

  /** Decimal digits in which single underscores may separate two digits,
      as `int()` accepts them after the sign. */
  predicate DigitGroups(d: string) {
    && d != [] && IsDigit(d[0]) && IsDigit(d[|d| - 1]) && DigitsOrUnderscores(d)
    && forall i :: 0 <= i < |d| - 1 ==> DigitAfterUnderscore(d, i)
  }

  /** An underscore at `i` is followed by a digit. */
  predicate DigitAfterUnderscore(d: string, i: nat)
    requires i < |d| - 1
  {
    d[i] == '_' ==> IsDigit(d[i + 1])
  }

  /** The digits of `d`, underscores left out. */
  function DropUnderscores(d: string): (r: string)
    requires DigitsOrUnderscores(d)
    ensures AllDigits(r) && |r| <= |d|
  {
    if d == [] then []
    else (if d[0] == '_' then [] else [d[0]]) + DropUnderscores(d[1..])
  }

  /** `int(s)` in base 10: white space around, an optional sign, then
      digits in groups; anything else raises ValueError (None). */
  function PyInt(s: string): Option<int>
  {
    var t := RStrip(LStrip(s));
    if t != [] && t[0] in "+-" then
      var digits := t[1..];
      if DigitGroups(digits) then
        var value: int := DigitsValue(DropUnderscores(digits));
        Some(if t[0] == '-' then -value else value)
      else None
    else if DigitGroups(t) then Some(DigitsValue(DropUnderscores(t)))
    else None
  }

  /** A string of digits needs no stripping and has no underscores. */
  lemma {:induction false} PlainDigits(d: string)
    requires |d| >= 1 && AllDigits(d)
    ensures LStrip(d) == d && RStrip(d) == d && DigitGroups(d) && DropUnderscores(d) == d
  {
    DropNone(d);
  }

  lemma {:induction false} DropNone(d: string)
    requires AllDigits(d)
    ensures DropUnderscores(d) == d
  {
    if d != [] {
      DropNone(d[1..]);
      assert [d[0]] + d[1..] == d;
    }
  }

  /** int() reads back what str() writes for every integer, and accepts a
      leading '+'. */
  lemma {:induction false} PyIntReadsDecimal(n: nat)
    ensures PyInt(NatToString(n)) == Some(n)
    ensures PyInt("-" + NatToString(n)) == Some(-(n as int))
    ensures PyInt("+" + NatToString(n)) == Some(n)
  {
    var d := NatToString(n);
    PlainDigits(d);
    UnsignedDigits(d);
    SignedDigits('-', d);
    assert "-" + d == ['-'] + d;
    SignedDigits('+', d);
    assert "+" + d == ['+'] + d;
  }

  lemma {:induction false} UnsignedDigits(d: string)
    requires |d| >= 1 && AllDigits(d)
    requires LStrip(d) == d && RStrip(d) == d && DigitGroups(d) && DropUnderscores(d) == d
    ensures PyInt(d) == Some(DigitsValue(d))
  {
    assert !(d[0] in "+-");
  }

  lemma {:induction false} SignedDigits(sign: char, d: string)
    requires sign in "+-" && |d| >= 1 && AllDigits(d)
    requires LStrip(d) == d && RStrip(d) == d && DigitGroups(d) && DropUnderscores(d) == d
    ensures var value: int := DigitsValue(d);
      PyInt([sign] + d) == Some(if sign == '-' then -value else value)
  {
    var s := [sign] + d;
    assert !IsPySpace(sign);
    assert LStrip(s) == s;
    assert s[|s| - 1] == d[|d| - 1];
    assert RStrip(s) == s;
    assert s[1..] == d;
  }

  /** White space around the number is ignored. */
  lemma {:induction false} PyIntIgnoresSpace(a: string, n: nat, b: string)
    requires forall i :: 0 <= i < |a| ==> IsPySpace(a[i])
    requires forall i :: 0 <= i < |b| ==> IsPySpace(b[i])
    ensures PyInt(a + NatToString(n) + b) == Some(n)
  {
    var d := NatToString(n);
    PlainDigits(d);
    LStripSpaces(a, d + b);
    assert a + d + b == a + (d + b);
    RStripSpaces(d, b);
  }

  lemma {:induction false} LStripSpaces(a: string, x: string)
    requires forall i :: 0 <= i < |a| ==> IsPySpace(a[i])
    requires x != [] && !IsPySpace(x[0])
    ensures LStrip(a + x) == x
    decreases |a|
  {
    if a == [] {
      assert a + x == x;
    } else {
      assert (a + x)[1..] == a[1..] + x;
      LStripSpaces(a[1..], x);
    }
  }

  lemma {:induction false} RStripSpaces(x: string, b: string)
    requires forall i :: 0 <= i < |b| ==> IsPySpace(b[i])
    requires x != [] && !IsPySpace(x[|x| - 1])
    ensures RStrip(x + b) == x
    decreases |b|
  {
    if b == [] {
      assert x + b == x;
    } else {
      assert (x + b)[..|x + b| - 1] == x + b[..|b| - 1];
      RStripSpaces(x, b[..|b| - 1]);
    }
  }

  /** Single underscores between digits are accepted and left out of the
      value; a doubled, leading or trailing underscore is refused. */
  lemma {:induction false} PyIntUnderscores()
    ensures PyInt("1_0") == Some(10)
    ensures PyInt("1__0") == None && PyInt("_1") == None && PyInt("1_") == None
  {
    assert DigitGroups("1_0");
    assert DropUnderscores("1_0") == "10" by {
      assert DropUnderscores("0") == "0";
      assert "1_0"[1..] == "_0" && "_0"[1..] == "0";
    }
    assert DigitsValue("10") == 10 by {
      assert "10"[..1] == "1";
    }
    assert !DigitGroups("1__0") by {
      assert !DigitAfterUnderscore("1__0", 1);
    }
  }

  /** An empty or blank piece, or a sign alone, raises ValueError. */
  lemma {:induction false} PyIntRefusesBlank(a: string)
    requires forall i :: 0 <= i < |a| ==> IsPySpace(a[i])
    ensures PyInt(a) == None && PyInt("-") == None && PyInt("+") == None
    decreases |a|
  {
    if a != [] {
      assert a[1..] == a[1..];
      PyIntRefusesBlankStrip(a);
    }
  }

  lemma {:induction false} PyIntRefusesBlankStrip(a: string)
    requires forall i :: 0 <= i < |a| ==> IsPySpace(a[i])
    ensures LStrip(a) == []
    decreases |a|
  {
    if a != [] {
      PyIntRefusesBlankStrip(a[1..]);
    }
  }

  /** Index of the first occurrence of `pat` at or after `i`. */
  function FindFrom(s: string, pat: string, i: nat): (k: Option<nat>)
    requires |pat| > 0 && i <= |s|
    ensures k.Some? ==> i <= k.value && OccursAt(s, pat, k.value)
    decreases |s| - i
  {
    if i + |pat| > |s| then None
    else if s[i..i + |pat|] == pat then Some(i)
    else FindFrom(s, pat, i + 1)
  }

  /** The first two pieces of `s.split("-beta")`; None when there is only
      one piece, where indexing the second raises IndexError. */
  function BetaSplit(s: string): (r: Option<(string, string)>)
  {
    match FindFrom(s, "-beta", 0)
    case None => None
    case Some(k) =>
      var rest := s[k + 5..];
      var second := match FindFrom(rest, "-beta", 0) case None => rest case Some(k2) => rest[..k2];
      Some((s[..k], second))
  }

  /** The text components versionCompare converts: the '.'-separated
      pieces, then the beta number, or "0" when `v` does not mention
      "beta". When it does, the third piece loses its "-beta" suffix, which
      becomes the last component; a missing third piece or a missing
      "-beta" in it raises IndexError (None). */
  function Pieces(v: string): Option<seq<string>>
  {
    var arr := Split(v, '.');
    if Contains(v, "beta") then
      if |arr| < 3 then None
      else match BetaSplit(arr[2])
        case None => None
        case Some((head, betaNo)) => Some(arr[2 := head] + [betaNo])
    else Some(arr + ["0"])
  }

  /** `[int(i) for i in parts]`: None when one of them raises. */
  function Ints(parts: seq<string>): Option<seq<int>>
  {
    if parts == [] then Some([])
    else match (PyInt(parts[0]), Ints(parts[1..]))
      case (Some(x), Some(rest)) => Some([x] + rest)
      case _ => None
  }

  function Components(v: string): Option<seq<int>>
  {
    match Pieces(v)
    case None => None
    case Some(p) => Ints(p)
  }

  function Zeros(k: nat): (z: seq<int>)
    ensures |z| == k && forall i :: 0 <= i < k ==> z[i] == 0
  {
    seq(k, _ => 0)
  }

  /** `a` followed by zeros up to length `n`. */
  function PadTo(a: seq<int>, n: nat): (r: seq<int>)
    ensures |r| == if |a| >= n then |a| else n
  {
    if |a| >= n then a else a + Zeros(n - |a|)
  }

  /** The for-loop of versionCompare on lists of equal length: the first
      differing position decides. */
  function Lex(a: seq<int>, b: seq<int>): (r: int)
    requires |a| == |b|
    decreases |a|
  {
    if a == [] then 0
    else if a[0] > b[0] then 1
    else if b[0] > a[0] then -1
    else Lex(a[1..], b[1..])
  }

  function CompareInts(a: seq<int>, b: seq<int>): int {
    var n := if |a| >= |b| then |a| else |b|;
    Lex(PadTo(a, n), PadTo(b, n))
  }

  /** versionCompare as a value: 1, -1 or 0, or None when it raises. */
  function CompareVersions(v1: string, v2: string): Option<int> {
    match (Components(v1), Components(v2))
    case (Some(a), Some(b)) => Some(CompareInts(a, b))
    case _ => None
  }

  /** `out` in front of the list `o` holds, if there is one. */
  function Prefixed(out: seq<int>, o: Option<seq<int>>): Option<seq<int>> {
    match o case None => None case Some(rest) => Some(out + rest)
  }

  /** The list comprehension converting the pieces, element by element. */
  method ToInts(parts: seq<string>) returns (r: Option<seq<int>>)
    ensures r == Ints(parts)
    ensures r.Some? ==> |r.value| == |parts|
  {
    var out: seq<int> := [];
    var i := 0;
    assert parts[0..] == parts;
    if Ints(parts).Some? {
      assert [] + Ints(parts).value == Ints(parts).value;
    }
    while i < |parts|
      invariant 0 <= i <= |parts| && |out| == i
      invariant Ints(parts) == Prefixed(out, Ints(parts[i..]))
    {
      assert parts[i..][0] == parts[i] && parts[i..][1..] == parts[i + 1..];
      var x := PyInt(parts[i]);
      if x.None? {
        return None;
      }
      if Ints(parts[i + 1..]).Some? {
        var rest := Ints(parts[i + 1..]).value;
        assert out + ([x.value] + rest) == (out + [x.value]) + rest;
      }
      out := out + [x.value];
      i := i + 1;
    }
    assert parts[i..] == [];
    assert out + [] == out;
    return Some(out);
  }

  /** One of the padding loops: zeros appended to the shorter list `a`
      up to length `n`. */
  method AppendZeros(a: seq<int>, n: nat) returns (r: seq<int>)
    requires |a| < n
    ensures r == a + Zeros(n - |a|)
  {
    r := a;
    var i := |a|;
    while i < n
      invariant |a| <= i <= n && r == a + Zeros(i - |a|)
    {
      r := r + [0];
      i := i + 1;
    }
  }

  /** The final for-loop: 1 at the first position where `a` is larger, -1
      where `b` is, 0 when there is none. */
  method CompareLoop(a: seq<int>, b: seq<int>) returns (r: int)
    requires |a| == |b|
    ensures r == Lex(a, b)
  {
    var i := 0;
    while i < |a|
      invariant 0 <= i <= |a|
      invariant Lex(a, b) == Lex(a[i..], b[i..])
    {
      assert a[i..][1..] == a[i + 1..] && b[i..][1..] == b[i + 1..];
      if a[i] > b[i] {
        return 1;
      } else if b[i] > a[i] {
        return -1;
      }
      i := i + 1;
    }
    return 0;
  }

  /** versionCompare: the components of both versions, the shorter list
      padded with zeros, then compared position by position. */
  method VersionCompare(v1: string, v2: string) returns (r: Option<int>)
    ensures r == CompareVersions(v1, v2)
  {
    var p1 := Pieces(v1);
    if p1.None? {
      return None;
    }
    var p2 := Pieces(v2);
    if p2.None? {
      return None;
    }
    var c1 := ToInts(p1.value);
    if c1.None? {
      return None;
    }
    var c2 := ToInts(p2.value);
    if c2.None? {
      return None;
    }
    var c := PadAndCompare(c1.value, c2.value);
    return Some(c);
  }

  /** The padding loops and the comparison loop of versionCompare: the
      shorter list is padded with zeros, then the lists are compared
      position by position. */
  method PadAndCompare(a: seq<int>, b: seq<int>) returns (c: int)
    ensures c == CompareInts(a, b)
  {
    var arr1, arr2 := a, b;
    PaddedCompare(a, b);
    if |a| > |b| {
      arr2 := AppendZeros(arr2, |a|);
    } else if |b| > |a| {
      arr1 := AppendZeros(arr1, |b|);
    }
    c := CompareLoop(arr1, arr2);
  }

  /** CompareInts pads only the shorter list. */
  lemma PaddedCompare(a: seq<int>, b: seq<int>)
    ensures |a| > |b| ==> CompareInts(a, b) == Lex(a, b + Zeros(|a| - |b|))
    ensures |b| > |a| ==> CompareInts(a, b) == Lex(a + Zeros(|b| - |a|), b)
    ensures |a| == |b| ==> CompareInts(a, b) == Lex(a, b)
  {
  }

  // Properties of the comparison.

  lemma {:induction false} LexRange(a: seq<int>, b: seq<int>)
    requires |a| == |b|
    ensures Lex(a, b) in {-1, 0, 1}
    ensures Lex(a, b) == 0 <==> a == b
    decreases |a|
  {
    if a != [] {
      LexRange(a[1..], b[1..]);
      if a[0] == b[0] && a[1..] == b[1..] {
        assert a == [a[0]] + a[1..] && b == [b[0]] + b[1..];
      }
    }
  }

  lemma {:induction false} LexFlip(a: seq<int>, b: seq<int>)
    requires |a| == |b|
    ensures Lex(b, a) == -Lex(a, b)
    decreases |a|
  {
    if a != [] {
      LexFlip(a[1..], b[1..]);
    }
  }

  /** versionCompare gives 0 for identical strings, whenever it does not
      raise. */
  lemma {:induction false} CompareReflexive(v: string)
    ensures CompareVersions(v, v) == if Components(v).Some? then Some(0) else None
  {
    if Components(v).Some? {
      var a := Components(v).value;
      LexRange(a, a);
    }
  }

  /** Swapping the arguments negates the result, and one raises exactly
      when the other does. */
  lemma {:induction false} CompareAntisymmetric(v1: string, v2: string)
    ensures CompareVersions(v2, v1) ==
      match CompareVersions(v1, v2) case None => None case Some(c) => Some(-c)
  {
    var c1, c2 := Components(v1), Components(v2);
    if c1.Some? && c2.Some? {
      CompareIntsFlip(c1.value, c2.value);
    }
  }

  lemma {:induction false} CompareIntsFlip(a: seq<int>, b: seq<int>)
    ensures CompareInts(b, a) == -CompareInts(a, b)
  {
    var n := if |a| >= |b| then |a| else |b|;
    LexFlip(PadTo(a, n), PadTo(b, n));
  }

  /** Versions whose components only differ by trailing zeros compare
      equal: the shorter list is padded with zeros. */
  lemma {:induction false} TrailingZerosIgnored(a: seq<int>, k: nat)
    ensures CompareInts(a, a + Zeros(k)) == 0
  {
    var n := |a| + k;
    assert PadTo(a, n) == a + Zeros(k);
    LexRange(PadTo(a, n), PadTo(a + Zeros(k), n));
  }

  // Worked examples, built one step at a time.

  lemma {:induction false} OneDigit(a: string)
    requires |a| == 1 && IsDigit(a[0])
    ensures PyInt(a) == Some(a[0] as int - '0' as int)
  {
    assert a[..0] == [];
    PlainDigits(a);
    assert a[0] !in "+-";
    assert DigitsValue(a) == a[0] as int - '0' as int;
  }

  lemma {:induction false} IntsCons(x: string, rest: seq<string>, v: int, r: seq<int>)
    requires PyInt(x) == Some(v) && Ints(rest) == Some(r)
    ensures Ints([x] + rest) == Some([v] + r)
  {
    assert ([x] + rest)[0] == x && ([x] + rest)[1..] == rest;
  }

  /** `Ints` on three pieces of one digit each. */
  lemma {:induction false} IntsOfThree(a: char, b: char, c: char)
    requires IsDigit(a) && IsDigit(b) && IsDigit(c)
    ensures Ints([[a], [b], [c]]) == Some([a as int - '0' as int, b as int - '0' as int, c as int - '0' as int])
  {
    var va, vb, vc := a as int - '0' as int, b as int - '0' as int, c as int - '0' as int;
    OneDigit([a]);
    OneDigit([b]);
    OneDigit([c]);
    assert Ints([]) == Some([]);
    IntsCons([c], [], vc, []);
    assert [[c]] + [] == [[c]] && [vc] + [] == [vc];
    IntsCons([b], [[c]], vb, [vc]);
    assert [[b]] + [[c]] == [[b], [c]] && [vb] + [vc] == [vb, vc];
    IntsCons([a], [[b], [c]], va, [vb, vc]);
    assert [[a]] + [[b], [c]] == [[a], [b], [c]] && [va] + [vb, vc] == [va, vb, vc];
  }

  /** `Ints` on "1" followed by three pieces of one digit each. */
  lemma {:induction false} IntsOfFour(b: char, c: char, e: char)
    requires IsDigit(b) && IsDigit(c) && IsDigit(e)
    ensures Ints(["1", [b], [c], [e]]) == Some([1, b as int - '0' as int, c as int - '0' as int, e as int - '0' as int])
  {
    IntsOfThree(b, c, e);
    OneDigit("1");
    IntsCons("1", [[b], [c], [e]], 1, [b as int - '0' as int, c as int - '0' as int, e as int - '0' as int]);
    assert ["1"] + [[b], [c], [e]] == ["1", [b], [c], [e]];
    assert [1] + [b as int - '0' as int, c as int - '0' as int, e as int - '0' as int]
      == [1, b as int - '0' as int, c as int - '0' as int, e as int - '0' as int];
  }

  lemma {:induction false} ShortPieces()
    ensures Pieces("1.9") == Some(["1", "9", "0"])
  {
    assert "1.9" == "1" + ['.'] + "9";
    SplitAt("1", '.', "9");
    assert Split("9", '.') == ["9"];
    assert Split("1.9", '.') == ["1", "9"];
    assert !Contains("1.9", "beta");
    assert Pieces("1.9") == Some(Split("1.9", '.') + ["0"]);
    assert ["1", "9"] + ["0"] == ["1", "9", "0"];
  }

  lemma {:induction false} ShortComponents()
    ensures Components("1.9") == Some([1, 9, 0])
  {
    ShortPieces();
    IntsOfThree('1', '9', '0');
    assert [['1'], ['9'], ['0']] == ["1", "9", "0"];
  }

  lemma {:induction false} ReleasePieces(d: char)
    requires IsDigit(d)
    ensures Pieces("1.9." + [d]) == Some(["1", "9", [d], "0"])
  {
    var s := "1.9." + [d];
    assert s == "1" + ['.'] + ("9" + ['.'] + [d]);
    SplitAt("1", '.', "9" + ['.'] + [d]);
    SplitAt("9", '.', [d]);
    assert Split([d], '.') == [[d]];
    assert Split(s, '.') == ["1", "9", [d]];
    assert !Contains(s, "beta") by {
      forall i | 0 <= i <= |s| - 4 ensures !OccursAt(s, "beta", i) {
        assert s[i..i + 4][0] == s[i] != 'b';
      }
    }
    assert Pieces(s) == Some(Split(s, '.') + ["0"]);
    assert ["1", "9", [d]] + ["0"] == ["1", "9", [d], "0"];
  }

  /** Components of "1.9.d" for a digit d. */
  lemma {:induction false} ReleaseComponents(d: char)
    requires IsDigit(d)
    ensures Components("1.9." + [d]) == Some([1, 9, d as int - '0' as int, 0])
  {
    ReleasePieces(d);
    IntsOfFour('9', d, '0');
    assert ["1", ['9'], [d], ['0']] == ["1", "9", [d], "0"];
  }

  /** '1.9' and '1.9.0' compare equal. */
  lemma {:induction false} ShortEqualsRelease()
    ensures CompareVersions("1.9", "1.9.0") == Some(0)
  {
    ShortComponents();
    ReleaseComponents('0');
    assert "1.9." + ['0'] == "1.9.0";
    TrailingZerosIgnored([1, 9, 0], 1);
    assert [1, 9, 0] + Zeros(1) == [1, 9, 0, 0];
  }

  /** "d-betae" splits into [d] and [e] for digits d and e. */
  lemma {:induction false} BetaSplitExample(d: char, e: char)
    requires IsDigit(d) && IsDigit(e)
    ensures BetaSplit([d] + "-beta" + [e]) == Some(([d], [e]))
  {
    var t := [d] + "-beta" + [e];
    assert t[0..5][0] == d;
    assert t[1..6] == "-beta";
    assert FindFrom(t, "-beta", 0) == Some(1);
    assert t[6..] == [e] && t[..1] == [d];
    assert FindFrom([e], "-beta", 0) == None;
  }

  lemma {:induction false} BetaTailNoDot(d: char, e: char)
    requires IsDigit(d) && IsDigit(e)
    ensures '.' !in [d] + "-beta" + [e]
  {
    var t := [d] + "-beta" + [e];
    forall i | 0 <= i < |t| ensures t[i] != '.' {
      assert t[i] == d || t[i] == e || t[i] in "-beta";
    }
  }

  lemma {:induction false} BetaSplitDots(d: char, e: char)
    requires IsDigit(d) && IsDigit(e)
    ensures Split("1.9." + [d] + "-beta" + [e], '.') == ["1", "9", [d] + "-beta" + [e]]
  {
    var t := [d] + "-beta" + [e];
    var u := "9" + ['.'] + t;
    assert Split(u, '.') == ["9", t] by {
      BetaTailNoDot(d, e);
      SplitNone(t, '.');
      SplitAt("9", '.', t);
    }
    assert "1.9." + [d] + "-beta" + [e] == "1" + ['.'] + u;
    SplitAt("1", '.', u);
  }

  lemma {:induction false} BetaPieces(d: char, e: char)
    requires IsDigit(d) && IsDigit(e)
    ensures Pieces("1.9." + [d] + "-beta" + [e]) == Some(["1", "9", [d], [e]])
  {
    var t := [d] + "-beta" + [e];
    var s := "1.9." + [d] + "-beta" + [e];
    BetaSplitDots(d, e);
    assert Contains(s, "beta") by {
      assert s[6..10] == "beta";
      assert OccursAt(s, "beta", 6);
    }
    BetaSplitExample(d, e);
    assert Pieces(s) == Some(["1", "9", t][2 := [d]] + [[e]]);
    assert ["1", "9", t][2 := [d]] + [[e]] == ["1", "9", [d], [e]];
  }

  /** Components of "1.9.d-betae" for digits d and e. */
  lemma {:induction false} BetaComponents(d: char, e: char)
    requires IsDigit(d) && IsDigit(e)
    ensures Components("1.9." + [d] + "-beta" + [e])
      == Some([1, 9, d as int - '0' as int, e as int - '0' as int])
  {
    BetaPieces(d, e);
    IntsOfFour('9', d, e);
    assert ["1", ['9'], [d], [e]] == ["1", "9", [d], [e]];
  }

  /** A '-betaN' suffix is compared after the patch number, against 0 for
      a version without one: a beta (other than beta0) counts as newer than
      the release of the same patch number, and older than any later patch
      release. */
  lemma {:induction false} BetaAfterPatch(d: char, e: char, f: char)
    requires IsDigit(d) && IsDigit(e) && IsDigit(f) && e != '0' && d < f
    ensures CompareVersions("1.9." + [d] + "-beta" + [e], "1.9." + [d]) == Some(1)
    ensures CompareVersions("1.9." + [d] + "-beta" + [e], "1.9." + [f]) == Some(-1)
  {
    var x, y, z := d as int - '0' as int, e as int - '0' as int, f as int - '0' as int;
    BetaComponents(d, e);
    ReleaseComponents(d);
    ReleaseComponents(f);
    BetaBetweenReleases(x, y, z);
  }

  /** The component lists of a beta sit between the two releases. */
  lemma {:induction false} BetaBetweenReleases(x: int, y: int, z: int)
    requires y > 0 && x < z
    ensures CompareInts([1, 9, x, y], [1, 9, x, 0]) == 1
    ensures CompareInts([1, 9, x, y], [1, 9, z, 0]) == -1
  {
    assert [1, 9] + [x, y] == [1, 9, x, y];
    assert [1, 9] + [x, 0] == [1, 9, x, 0] && [1, 9] + [z, 0] == [1, 9, z, 0];
    LexSkip([1, 9], [x, y], [x, 0]);
    LexSkip([1, 9], [x, y], [z, 0]);
    assert Lex([x, y], [x, 0]) == Lex([y], [0]);
  }

  /** Equal leading elements do not decide the comparison. */
  lemma {:induction false} LexSkip(p: seq<int>, a: seq<int>, b: seq<int>)
    requires |a| == |b|
    ensures Lex(p + a, p + b) == Lex(a, b)
    decreases |p|
  {
    if p != [] {
      assert (p + a)[1..] == p[1..] + a && (p + b)[1..] == p[1..] + b;
      LexSkip(p[1..], a, b);
    } else {
      assert p + a == a && p + b == b;
    }
  }

  /** A version naming "beta" with fewer than three pieces raises. */
  lemma {:induction false} BetaWithoutPatchRaises(v: string)
    requires Contains(v, "beta") && |Split(v, '.')| < 3
    ensures CompareVersions(v, v) == None
  {
  }
}
