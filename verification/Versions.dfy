/** src/common/utils/version.util.ts: dotted document versions and their order. */
module Versions {
  import opened Wrappers
  import opened Text

  /** One more character before the parts of the rest: a separator starts a new part. */
  function Prepend(x: char, c: char, rest: seq<string>): (parts: seq<string>)
    requires |rest| > 0
    ensures |parts| > 0
  {
    if x == c then [""] + rest else [[x] + rest[0]] + rest[1..]
  }

  /** `value.split(c)`: never empty. */
  function SplitOn(s: string, c: char): (parts: seq<string>)
    ensures |parts| > 0
  {
    if s == "" then [""] else Prepend(s[0], c, SplitOn(s[1..], c))
  }

  /** The digits from `i` on, read in base ten after `n`. */
  function DigitsFrom(s: string, i: nat, n: nat): nat
    decreases |s| - i
  {
    if i < |s| && IsDigit(s[i]) then DigitsFrom(s, i + 1, 10 * n + DigitValue(s[i])) else n
  }

  /** `Number.parseInt(part, 10)`, with 0 for not-a-number: blanks, a sign, then digits up to whatever follows. */
  function ParseInt(part: string): int {
    var s := TrimLeft(part, Space);
    var signed := s != "" && (s[0] == '-' || s[0] == '+');
    var n: int := DigitsFrom(s, if signed then 1 else 0, 0);
    if signed && s[0] == '-' then -n else n
  }

  function Segments(value: string): (ns: seq<int>)
    ensures |ns| > 0
  {
    ParseAll(SplitOn(value, '.'))
  }

  function ParseAll(parts: seq<string>): (ns: seq<int>)
    ensures |ns| == |parts| && forall i :: 0 <= i < |ns| ==> ns[i] == ParseInt(parts[i])
  {
    seq(|parts|, i requires 0 <= i < |parts| => ParseInt(parts[i]))
  }

  /** `value || '0'` */
  function OrZero(value: string): string {
    OrElse(value, "0")
  }

  /** The `i`th number of a version; the ones that are not written are zero. */
  function At(value: string, i: nat): int {
    var ns := Segments(OrZero(value));
    if i < |ns| then ns[i] else 0
  }

  function Length(a: string, b: string): nat {
    var (n, m) := (|Segments(OrZero(a))|, |Segments(OrZero(b))|);
    if n < m then m else n
  }

  function CompareFrom(a: string, b: string, i: nat): int
    decreases Length(a, b) - i
  {
    if i >= Length(a, b) then 0
    else if At(a, i) != At(b, i) then At(a, i) - At(b, i)
    else CompareFrom(a, b, i + 1)
  }

  function Compare(a: string, b: string): int {
    CompareFrom(a, b, 0)
  }

  /** The loop with its early return. */
  method CompareVersions(a: string, b: string) returns (diff: int)
    ensures diff == Compare(a, b)
  {
    hide At;
    var left := Segments(OrZero(a));
    var right := Segments(OrZero(b));
    var length := if |left| < |right| then |right| else |left|;
    for i := 0 to length
      invariant CompareFrom(a, b, i) == Compare(a, b)
    {
      var d := At(a, i) - At(b, i);
      if d != 0 { return d; }
    }
    return 0;
  }

  // ----- The order it decides -----

  /** `a` is older than `b`: at the first number in which they differ, it has the smaller. */
  ghost predicate Older(a: string, b: string) {
    exists k: nat :: OlderAt(a, b, k)
  }

  predicate OlderAt(a: string, b: string, k: nat) {
    At(a, k) < At(b, k) && forall j: nat :: j < k ==> At(a, j) == At(b, j)
  }

  ghost predicate Same(a: string, b: string) {
    forall i: nat :: At(a, i) == At(b, i)
  }

  lemma BeyondLength(a: string, b: string, i: nat)
    requires i >= Length(a, b)
    ensures At(a, i) == 0 && At(b, i) == 0
  {
  }

  lemma {:induction false} CompareFromDecides(a: string, b: string, i: nat)
    requires forall j: nat :: j < i ==> At(a, j) == At(b, j)
    ensures CompareFrom(a, b, i) < 0 ==> Older(a, b)
    ensures CompareFrom(a, b, i) > 0 ==> Older(b, a)
    ensures CompareFrom(a, b, i) == 0 ==> Same(a, b)
    decreases Length(a, b) - i
  {
    hide At, Length;
    if i >= Length(a, b) {
      forall j: nat ensures At(a, j) == At(b, j) {
        if j >= i { BeyondLength(a, b, j); }
      }
    } else if At(a, i) != At(b, i) {
      assert OlderAt(a, b, i) || OlderAt(b, a, i);
    } else {
      CompareFromDecides(a, b, i + 1);
    }
  }

  lemma OlderExcludes(a: string, b: string)
    requires Older(a, b)
    ensures !Older(b, a) && !Same(a, b)
  {
    hide At;
    var k: nat :| OlderAt(a, b, k);
    forall m: nat ensures !OlderAt(b, a, m) {
      assert m < k ==> At(a, m) == At(b, m);
      assert k < m ==> (OlderAt(b, a, m) ==> At(b, k) == At(a, k));
    }
  }

  lemma SameExcludes(a: string, b: string)
    requires Same(a, b)
    ensures !Older(a, b) && !Older(b, a) && Same(b, a)
  {
    hide At;
    forall k: nat ensures !OlderAt(a, b, k) && !OlderAt(b, a, k) {
      assert At(a, k) == At(b, k);
    }
  }

  /** The comparison is lexicographic over the numbers, padded with zeros. */
  lemma CompareIsLexicographic(a: string, b: string)
    ensures Compare(a, b) < 0 <==> Older(a, b)
    ensures Compare(a, b) > 0 <==> Older(b, a)
    ensures Compare(a, b) == 0 <==> Same(a, b)
  {
    CompareFromDecides(a, b, 0);
    hide CompareFrom, Older, Same;
    if Older(a, b) { OlderExcludes(a, b); }
    if Older(b, a) { OlderExcludes(b, a); }
    if Same(a, b) { SameExcludes(a, b); }
    SameFlips(a, b);
  }

  lemma SameFlips(a: string, b: string)
    ensures Same(a, b) ==> Same(b, a)
  {
    hide At;
  }

  lemma CompareFlips(a: string, b: string)
    ensures Compare(a, b) < 0 <==> Compare(b, a) > 0
    ensures Compare(a, b) == 0 <==> Compare(b, a) == 0
  {
    CompareIsLexicographic(a, b);
    CompareIsLexicographic(b, a);
    SameFlips(a, b);
    SameFlips(b, a);
    hide Compare, Older, Same;
  }

  lemma OlderChains(a: string, b: string, c: string)
    requires (Older(a, b) || Same(a, b)) && (Older(b, c) || Same(b, c))
    ensures Older(a, c) || Same(a, c)
    ensures Older(a, b) || Older(b, c) ==> Older(a, c)
  {
    hide At;
    if k: nat :| OlderAt(a, b, k) {
      if m: nat :| OlderAt(b, c, m) {
        var n := if k < m then k else m;
        assert forall j: nat :: j < n ==> At(a, j) == At(b, j) == At(c, j);
        assert OlderAt(a, c, n);
      } else {
        assert OlderAt(a, c, k);
      }
    } else if m: nat :| OlderAt(b, c, m) {
      assert OlderAt(a, c, m);
    }
  }

  /** A total preorder: not older and not newer are both transitive. */
  lemma CompareChains(a: string, b: string, c: string)
    requires Compare(a, b) <= 0 && Compare(b, c) <= 0
    ensures Compare(a, c) <= 0
    ensures Compare(a, b) < 0 || Compare(b, c) < 0 ==> Compare(a, c) < 0
  {
    CompareIsLexicographic(a, b);
    CompareIsLexicographic(b, c);
    CompareIsLexicographic(a, c);
    hide Compare, Older, Same;
    OlderChains(a, b, c);
  }

  lemma CompareSelf(a: string)
    ensures Compare(a, a) == 0
  {
    CompareIsLexicographic(a, a);
  }

  // ----- Padding -----

  lemma PrependAppends(x: char, c: char, a: seq<string>, b: seq<string>)
    requires |a| > 0
    ensures Prepend(x, c, a + b) == Prepend(x, c, a) + b
  {
    assert (a + b)[1..] == a[1..] + b;
  }

  lemma {:induction false} SplitAppends(s: string, c: char, t: string)
    ensures SplitOn(s + [c] + t, c) == SplitOn(s, c) + SplitOn(t, c)
  {
    var whole := s + [c] + t;
    if s == "" {
      assert whole[1..] == t;
    } else {
      assert whole[1..] == s[1..] + [c] + t;
      SplitAppends(s[1..], c, t);
      PrependAppends(s[0], c, SplitOn(s[1..], c), SplitOn(t, c));
      hide Prepend;
    }
  }

  lemma DigitAlone(s: string)
    requires |s| == 1 && IsDigit(s[0])
    ensures DigitsFrom(s, 0, 0) == DigitValue(s[0])
  {
    hide DigitValue, IsDigit;
    assert DigitsFrom(s, 1, DigitValue(s[0])) == DigitValue(s[0]);
  }

  lemma DigitParses(s: string)
    requires |s| == 1 && IsDigit(s[0])
    ensures ParseInt(s) == DigitValue(s[0])
  {
    hide DigitsFrom, TrimLeft, DigitValue;
    DigitAlone(s);
    TrimLeftBare(s, "", Space);
    assert s + "" == s;
  }

  lemma DigitIsOnePart(s: string)
    requires |s| == 1 && IsDigit(s[0])
    ensures SplitOn(s, '.') == [s]
  {
    assert s[1..] == "";
    assert SplitOn(s[1..], '.') == [""];
    assert SplitOn(s, '.') == Prepend(s[0], '.', [""]);
    hide SplitOn;
    assert [s[0]] + "" == s;
  }

  /** A version of one digit is that number. */
  lemma OneDigit(s: string)
    requires |s| == 1 && IsDigit(s[0])
    ensures Segments(s) == [DigitValue(s[0])]
  {
    hide SplitOn, ParseInt, DigitValue;
    DigitIsOnePart(s);
    DigitParses(s);
    assert ParseAll([s]) == [ParseInt(s)];
  }

  lemma SingleNumbersCompare(a: string, b: string)
    requires |a| == |b| == 1 && IsDigit(a[0]) && IsDigit(b[0])
    ensures Compare(a, b) == DigitValue(a[0]) - DigitValue(b[0])
  {
    OneDigit(a);
    OneDigit(b);
    hide Segments, IsDigit, DigitValue;
    assert At(a, 0) == DigitValue(a[0]) && At(b, 0) == DigitValue(b[0]);
    assert Length(a, b) == 1;
    hide At, Length;
    assert CompareFrom(a, b, 1) == 0;
  }

  lemma ParseAllAppends(parts: seq<string>, last: string)
    ensures ParseAll(parts + [last]) == ParseAll(parts) + [ParseInt(last)]
  {
    hide ParseInt;
  }

  lemma SegmentsAppend(v: string, zero: string)
    requires zero == "0"
    ensures Segments(v + ['.'] + zero) == Segments(v) + [0]
  {
    hide ParseInt, DigitsFrom, SplitOn, ParseAll, Prepend;
    SplitAppends(v, '.', zero);
    DigitIsOnePart(zero);
    DigitParses(zero);
    ParseAllAppends(SplitOn(v, '.'), zero);
  }

  /** "2.1" and "2.1.0" are the same version. */
  lemma TrailingZeroIsSilent(v: string)
    requires v != ""
    ensures Compare(v, v + ".0") == 0
  {
    var w := v + ".0";
    assert w == v + ['.'] + "0";
    SegmentsAppend(v, "0");
    assert OrZero(v) == v && OrZero(w) == w;
    CompareIsLexicographic(v, w);
    hide Segments, Compare, OrZero;
    assert Same(v, w);
  }

  // ----- The newest of several -----

  /** One step of the reduction. */
  function Newer(best: Option<string>, current: string): Option<string> {
    if current == "" then best
    else if best.None? || Compare(current, best.value) > 0 then Some(current)
    else best
  }

  function Best(versions: seq<string>): Option<string> {
    if versions == [] then None else Newer(Best(versions[..|versions| - 1]), versions[|versions| - 1])
  }

  function MaxVersion(versions: seq<string>): string {
    Best(versions).GetOr("1.0")
  }

  lemma {:induction false} BestIsNewest(versions: seq<string>)
    ensures Best(versions).None? <==> forall v :: v in versions ==> v == ""
    ensures Best(versions).Some? ==>
              var best := Best(versions).value;
              best != "" && best in versions && forall v :: v in versions && v != "" ==> Compare(v, best) <= 0
  {
    hide Compare;
    if versions != [] {
      var front, last := versions[..|versions| - 1], versions[|versions| - 1];
      BestIsNewest(front);
      assert versions == front + [last];
      assert forall v :: v in versions <==> v in front || v == last;
      assert last in versions && (Best(front).Some? ==> Best(front).value in versions);
      CompareSelf(last);
      if Best(front).Some? && last != "" {
        var best := Best(front).value;
        CompareFlips(last, best);
        forall v | v in front && v != "" && Compare(last, best) > 0 ensures Compare(v, last) <= 0 {
          CompareChains(v, best, last);
        }
      }
    }
  }

  /** The result is one of the versions, and none of them is newer. */
  lemma MaxVersionIsNewest(versions: seq<string>, v: string)
    requires v in versions && v != ""
    ensures MaxVersion(versions) in versions && MaxVersion(versions) != ""
    ensures Compare(v, MaxVersion(versions)) <= 0
  {
    BestIsNewest(versions);
  }
}
