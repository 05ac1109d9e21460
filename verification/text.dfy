/** Character classes and string helpers the models share: the parts of
    regular expressions, `split`, `in` and `padStart` that the source uses. */
module Text {

  predicate IsDigit(c: char) { '0' <= c <= '9' }

  predicate IsLower(c: char) { 'a' <= c <= 'z' }

  predicate IsUpper(c: char) { 'A' <= c <= 'Z' }

  predicate IsLetter(c: char) { IsLower(c) || IsUpper(c) }

  predicate IsAlnum(c: char) { IsLetter(c) || IsDigit(c) }

  predicate AllDigits(s: string) { forall i :: 0 <= i < |s| ==> IsDigit(s[i]) }

  /** Every character of `s` from index `i` up to `j` is a digit. */
  predicate DigitsBetween(s: string, i: nat, j: nat)
    requires i <= j <= |s|
  {
    forall k :: i <= k < j ==> IsDigit(s[k])
  }

  lemma {:induction false} DigitsSlice(s: string, i: nat, j: nat)
    requires i <= j <= |s| && DigitsBetween(s, i, j)
    ensures AllDigits(s[i..j])
  {
    forall k | 0 <= k < j - i ensures IsDigit(s[i..j][k]) {
      assert s[i..j][k] == s[i + k];
    }
  }

  lemma {:induction false} DigitsFromSlice(s: string, i: nat, j: nat)
    requires i <= j <= |s| && AllDigits(s[i..j])
    ensures DigitsBetween(s, i, j)
  {
    forall k | i <= k < j ensures IsDigit(s[k]) {
      assert s[k] == s[i..j][k - i];
    }
  }

  /** Length of the run of ASCII digits starting at `i` (what `\d+` can take). */
  function DigitRun(s: string, i: nat): (n: nat)
    requires i <= |s|
    ensures i + n <= |s|
    decreases |s| - i
  {
    if i == |s| || !IsDigit(s[i]) then 0 else 1 + DigitRun(s, i + 1)
  }

  /** The run is all digits and stops at the end or at a character that is
      not a digit. */
  lemma {:induction false} DigitRunSpec(s: string, i: nat)
    requires i <= |s|
    ensures DigitsBetween(s, i, i + DigitRun(s, i))
    ensures i + DigitRun(s, i) == |s| || !IsDigit(s[i + DigitRun(s, i)])
    decreases |s| - i
  {
    if i < |s| && IsDigit(s[i]) {
      DigitRunSpec(s, i + 1);
    }
  }

  /** A digit run that stops at `i + n` has length `n`. */
  lemma {:induction false} DigitRunExactly(s: string, i: nat, n: nat)
    requires i + n <= |s| && DigitsBetween(s, i, i + n)
    requires i + n == |s| || !IsDigit(s[i + n])
    ensures DigitRun(s, i) == n
  {
    DigitRunAtLeast(s, i, n);
    DigitRunSpec(s, i);
  }

  lemma {:induction false} DigitRunAtLeast(s: string, i: nat, n: nat)
    requires i + n <= |s| && DigitsBetween(s, i, i + n)
    ensures DigitRun(s, i) >= n
    decreases n
  {
    if n > 0 {
      DigitRunAtLeast(s, i + 1, n - 1);
    }
  }

  /** Decimal value of a string of ASCII digits, as `int()` and `parseInt` read it. */
  function DigitsValue(s: string): (v: nat)
    requires AllDigits(s)
  {
    if s == [] then 0
    else 10 * DigitsValue(s[..|s| - 1]) + (s[|s| - 1] as int - '0' as int)
  }

  /** Leading zeros do not change the value `parseInt` reads. */
  lemma {:induction false} LeadingZeros(z: string, s: string)
    requires forall k :: 0 <= k < |z| ==> z[k] == '0'
    requires AllDigits(s)
    ensures AllDigits(z + s) && DigitsValue(z + s) == DigitsValue(s)
    decreases |z| + |s|
  {
    if s == [] {
      assert z + s == z;
      if z != [] {
        assert z[..|z| - 1] + [] == z[..|z| - 1];
        LeadingZeros(z[..|z| - 1], []);
      }
    } else {
      assert (z + s)[..|z + s| - 1] == z + s[..|s| - 1];
      LeadingZeros(z, s[..|s| - 1]);
    }
  }

  /** The decimal digits of `n` without leading zeros, as `toString` prints a
      non-negative integer. */
  function NatToString(n: nat): (s: string)
    ensures |s| >= 1 && AllDigits(s)
    ensures DigitsValue(s) == n
    decreases n
  {
    var d := [('0' as int + n % 10) as char];
    if n < 10 then d
    else
      var r := NatToString(n / 10) + d;
      assert r[..|r| - 1] == NatToString(n / 10);
      r
  }

  /** The digits `n` at `i`, followed by the end or by a character that is
      not a digit: the digit run there is `n`. */
  lemma {:induction false} NumberAt(s: string, i: nat, n: string)
    requires AllDigits(n) && i + |n| <= |s| && s[i..i + |n|] == n
    requires i + |n| == |s| || !IsDigit(s[i + |n|])
    ensures DigitRun(s, i) == |n| && DigitsBetween(s, i, i + |n|)
  {
    DigitsFromSlice(s, i, i + |n|);
    DigitRunExactly(s, i, |n|);
  }

  // The numbers of a dotted version text A.B.C followed by the rest T,
  // where the version expressions of the tool and of the web interface
  // look for them.

  lemma {:induction false} VersionMajor(A: string, B: string, C: string, T: string)
    requires |A| >= 1 && AllDigits(A)
    ensures var s := A + "." + B + "." + C + T;
      |A| < |s| && s[|A|] == '.' && s[0..|A|] == A
      && DigitRun(s, 0) == |A| && DigitsBetween(s, 0, |A|)
  {
    var P4 := A + "." + B + "." + C;
    var s := P4 + T;
    assert s[0..|A|] == A by {
      assert s[0..|A|] == P4[0..|A|] == (A + "." + B + ".")[0..|A|] == (A + "." + B)[0..|A|] == (A + ".")[0..|A|];
    }
    assert s[|A|] == '.';
    NumberAt(s, 0, A);
  }

  lemma {:induction false} VersionMinor(A: string, B: string, C: string, T: string)
    requires |B| >= 1 && AllDigits(B)
    ensures var s := A + "." + B + "." + C + T;
      var i := |A| + 1;
      i + |B| < |s| && s[i + |B|] == '.' && s[i..i + |B|] == B
      && DigitRun(s, i) == |B| && DigitsBetween(s, i, i + |B|)
  {
    var P3 := A + "." + B + ".";
    var s := P3 + C + T;
    var i := |A| + 1;
    assert s[i..i + |B|] == B by {
      assert s[i..i + |B|] == (P3 + C)[i..i + |B|] == P3[i..i + |B|] == (A + "." + B)[i..i + |B|];
    }
    assert s[i + |B|] == P3[i + |B|] == '.';
    NumberAt(s, i, B);
  }

  lemma {:induction false} VersionPatch(A: string, B: string, C: string, T: string)
    requires |C| >= 1 && AllDigits(C)
    requires T == [] || T[0] == '-'
    ensures var s := A + "." + B + "." + C + T;
      var i := |A| + 2 + |B|;
      i + |C| <= |s| && s[i..i + |C|] == C
      && DigitRun(s, i) == |C| && DigitsBetween(s, i, i + |C|)
      && (i + |C| == |s| || s[i + |C|] == '-')
  {
    var P3 := A + "." + B + ".";
    var s := P3 + C + T;
    var i := |A| + 2 + |B|;
    assert s[i..i + |C|] == C by {
      assert s[i..i + |C|] == (P3 + C)[i..i + |C|];
    }
    assert i + |C| == |s| || s[i + |C|] == T[0];
    NumberAt(s, i, C);
  }

  /** `sub in s`: `sub` occurs in `s` as a contiguous block. */
  predicate Contains(s: string, sub: string) {
    exists i :: 0 <= i <= |s| - |sub| && OccursAt(s, sub, i)
  }

  /** `sub` occurs in `s` starting at index `i`. */
  predicate OccursAt(s: string, sub: string, i: int) {
    0 <= i <= |s| - |sub| && s[i..i + |sub|] == sub
  }

  /** Index of the first occurrence of `c`, or |s| when there is none. */
  function IndexOf(s: string, c: char): (i: nat)
    ensures i <= |s|
    ensures forall k :: 0 <= k < i ==> s[k] != c
    ensures i < |s| ==> s[i] == c
  {
    if s == [] then 0
    else if s[0] == c then 0
    else 1 + IndexOf(s[1..], c)
  }

  /** `s.split(c)[0]`: the text before the first `c`, all of `s` if there is none. */
  function BeforeFirst(s: string, c: char): (r: string)
    ensures c !in r
    ensures r <= s
    ensures |r| < |s| ==> s[|r|] == c
  {
    s[..IndexOf(s, c)]
  }

  /** `s.split(c)` with a one-character separator: the pieces between the
      occurrences of `c`, one more piece than there are occurrences. */
  function Split(s: string, c: char): (parts: seq<string>)
    ensures |parts| >= 1
    ensures forall k :: 0 <= k < |parts| ==> c !in parts[k]
    decreases |s|
  {
    var i := IndexOf(s, c);
    if i == |s| then [s] else [s[..i]] + Split(s[i + 1..], c)
  }

  /** The first `c` of `a + [c] + b` is the one after `a` when `a` has none. */
  lemma {:induction false} SplitAt(a: string, c: char, b: string)
    requires c !in a
    ensures Split(a + [c] + b, c) == [a] + Split(b, c)
  {
    var s := a + [c] + b;
    var i := IndexOf(s, c);
    assert s[|a|] == c;
    assert s[..|a|] == a && s[|a| + 1..] == b;
  }

  /** Text without `c` is one piece. */
  lemma {:induction false} SplitNone(a: string, c: char)
    requires c !in a
    ensures Split(a, c) == [a]
  {
  }

  /** Joins pieces with `c` between them; `Split` undoes it. */
  function Join(parts: seq<string>, c: char): (s: string)
    requires |parts| >= 1
  {
    if |parts| == 1 then parts[0] else parts[0] + [c] + Join(parts[1..], c)
  }

  lemma {:induction false} SplitJoin(s: string, c: char)
    ensures Join(Split(s, c), c) == s
    decreases |s|
  {
    var i := IndexOf(s, c);
    if i < |s| {
      var rest := Split(s[i + 1..], c);
      var parts := [s[..i]] + rest;
      assert Split(s, c) == parts;
      assert parts[0] == s[..i] && parts[1..] == rest;
      SplitJoin(s[i + 1..], c);
      assert Join(parts, c) == s[..i] + [c] + s[i + 1..];
      assert s == s[..i] + [c] + s[i + 1..];
    }
  }

  /** `padStart(n, "0")`: `s` preceded by as many '0' as it takes to reach `n`
      characters; a longer `s` is returned unchanged. */
  function PadStart(s: string, n: nat, fill: char): (r: string)
    ensures |r| == if |s| >= n then |s| else n
    ensures r[|r| - |s|..] == s
    ensures forall k :: 0 <= k < |r| - |s| ==> r[k] == fill
  {
    if |s| >= n then s
    else
      var pad := seq(n - |s|, _ => fill);
      assert (pad + s)[|pad|..] == s;
      pad + s
  }

  /** `s.endswith(suffix)`. */
  predicate EndsWith(s: string, suffix: string) {
    |suffix| <= |s| && s[|s| - |suffix|..] == suffix
  }

  /** `s.replace(pat, rep)`: every occurrence of `pat`, scanning from the
      left and without overlaps, replaced by `rep`. */
  function ReplaceAll(s: string, pat: string, rep: string): string
    requires |pat| > 0
    decreases |s|
  {
    if |s| < |pat| then s
    else if s[..|pat|] == pat then rep + ReplaceAll(s[|pat|..], pat, rep)
    else [s[0]] + ReplaceAll(s[1..], pat, rep)
  }

  /** Text without an occurrence of `pat` is left as it is. */
  lemma {:induction false} ReplaceAbsent(s: string, pat: string, rep: string)
    requires |pat| > 0 && !Contains(s, pat)
    ensures ReplaceAll(s, pat, rep) == s
    decreases |s|
  {
    if |s| >= |pat| {
      assert !OccursAt(s, pat, 0);
      assert !Contains(s[1..], pat) by {
        forall i | 0 <= i <= |s[1..]| - |pat| ensures !OccursAt(s[1..], pat, i) {
          assert s[1..][i..i + |pat|] == s[i + 1..i + 1 + |pat|];
          assert !OccursAt(s, pat, i + 1);
        }
      }
      ReplaceAbsent(s[1..], pat, rep);
    }
  }

  /** When the only occurrence of `pat` in `base + pat` is the final one,
      only that one is replaced. */
  lemma {:induction false} ReplaceLast(base: string, pat: string, rep: string)
    requires |pat| > 0
    requires forall i :: 0 <= i < |base| ==> !OccursAt(base + pat, pat, i)
    ensures ReplaceAll(base + pat, pat, rep) == base + rep
    decreases |base|
  {
    var s := base + pat;
    if base == [] {
      assert s[..|pat|] == pat && s[|pat|..] == [];
    } else {
      assert !OccursAt(s, pat, 0);
      assert s[1..] == base[1..] + pat;
      forall i | 0 <= i < |base[1..]| ensures !OccursAt(base[1..] + pat, pat, i) {
        assert !OccursAt(s, pat, i + 1);
        assert s[i + 1..i + 1 + |pat|] == (base[1..] + pat)[i..i + |pat|];
      }
      ReplaceLast(base[1..], pat, rep);
      assert s[..|pat|] != pat;
      assert ReplaceAll(s, pat, rep) == [s[0]] + ReplaceAll(s[1..], pat, rep);
      assert [base[0]] + (base[1..] + rep) == base + rep;
    }
  }
}
