/**
 * The versions of src/common/utils/version.util.ts as they are written: numbers
 * in base ten with dots between them, and how two of them compare.
 */
module WrittenVersions {
  import opened Wrappers
  import opened Text
  import opened Versions

  // ----- A number in base ten -----

  function DigitOf(d: nat): (c: char)
    requires d < 10
    ensures IsDigit(c) && DigitValue(c) == d
  {
    ('0' as int + d) as char
  }

  function Numeral(n: nat): (s: string)
    ensures s != "" && forall i :: 0 <= i < |s| ==> IsDigit(s[i])
  {
    if n < 10 then [DigitOf(n)] else Numeral(n / 10) + [DigitOf(n % 10)]
  }

  /** `s` reads `digits` from `i` on, and then no digit. */
  predicate DigitsStand(s: string, i: nat, digits: string) {
    && i + |digits| <= |s|
    && (forall j :: 0 <= j < |digits| ==> IsDigit(digits[j]) && s[i + j] == digits[j])
    && (i + |digits| < |s| ==> !IsDigit(s[i + |digits|]))
  }

  /** The value of digits read after `n`. */
  function ValueAfter(n: nat, digits: string): nat
    requires forall i :: 0 <= i < |digits| ==> IsDigit(digits[i])
    decreases |digits|
  {
    if digits == "" then n else ValueAfter(10 * n + DigitValue(digits[0]), digits[1..])
  }

  lemma {:induction false} DigitsAreRead(s: string, i: nat, n: nat, digits: string)
    requires DigitsStand(s, i, digits)
    ensures DigitsFrom(s, i, n) == ValueAfter(n, digits)
    decreases |digits|
  {
    if digits != "" {
      assert s[i + 0] == digits[0];
      forall j | 0 <= j < |digits| - 1 ensures s[i + 1 + j] == digits[1..][j] {
        assert s[i + (j + 1)] == digits[j + 1];
      }
      DigitsAreRead(s, i + 1, 10 * n + DigitValue(digits[0]), digits[1..]);
    }
  }

  lemma {:induction false} OneMoreDigit(n: nat, digits: string, d: nat)
    requires d < 10 && forall i :: 0 <= i < |digits| ==> IsDigit(digits[i])
    ensures ValueAfter(n, digits + [DigitOf(d)]) == 10 * ValueAfter(n, digits) + d
    decreases |digits|
  {
    if digits == "" {
      assert digits + [DigitOf(d)] == [DigitOf(d)];
      assert ValueAfter(n, [DigitOf(d)]) == ValueAfter(10 * n + d, []);
    } else {
      assert (digits + [DigitOf(d)])[1..] == digits[1..] + [DigitOf(d)];
      OneMoreDigit(10 * n + DigitValue(digits[0]), digits[1..], d);
    }
  }

  lemma {:induction false} NumeralIsItsNumber(n: nat)
    ensures ValueAfter(0, Numeral(n)) == n
  {
    if n < 10 {
      assert ValueAfter(0, [DigitOf(n)]) == ValueAfter(n, []);
    } else {
      NumeralIsItsNumber(n / 10);
      OneMoreDigit(0, Numeral(n / 10), n % 10);
    }
  }

  // ----- One part of a version -----

  predicate IsSign(sign: string) {
    sign == "" || sign == "-" || sign == "+"
  }

  /** The sign of a number counts; without one it is as it stands. */
  function Signed(sign: string, n: int): int {
    if sign == "-" then -n else n
  }

  lemma NothingToTrim(s: string)
    requires s != "" ==> !IsSpace(s[0])
    ensures TrimLeft(s, Space) == s
  {
  }

  lemma ParseTrimmed(part: string, s: string)
    requires TrimLeft(part, Space) == s
    ensures ParseInt(part) ==
      if s != "" && s[0] == '-' then Signed("-", DigitsFrom(s, 1, 0))
      else if s != "" && s[0] == '+' then Signed("+", DigitsFrom(s, 1, 0))
      else Signed("", DigitsFrom(s, 0, 0))
  {
    hide TrimLeft, DigitsFrom;
  }

  lemma SignedStart(sign: string, t: string)
    requires IsSign(sign)
    requires sign == "" && t != "" ==> !IsSpace(t[0]) && t[0] != '-' && t[0] != '+'
    ensures var s := sign + t;
      && (s != "" ==> !IsSpace(s[0]) && (s[0] == '-' <==> sign == "-") && (s[0] == '+' <==> sign == "+"))
      && (s == "" ==> sign == "")
  {
    var s := sign + t;
    assert s != "" ==> s[0] == if sign == "" then t[0] else sign[0];
  }

  /** The blanks go, and behind the sign the digits are read. */
  lemma ParseStep(l: string, sign: string, t: string)
    requires Space.Covers(l) && IsSign(sign)
    requires sign == "" && t != "" ==> !IsSpace(t[0]) && t[0] != '-' && t[0] != '+'
    ensures ParseInt(l + sign + t) == Signed(sign, DigitsFrom(sign + t, |sign|, 0))
  {
    hide TrimLeft, DigitsFrom, IsSpace, ParseInt, Class.Covers;
    var s := sign + t;
    assert l + sign + t == l + s;
    SignedStart(sign, t);
    TrimLeftPad(l, s, Space);
    NothingToTrim(s);
    ParseTrimmed(l + s, s);
  }

  lemma NumeralStands(sign: string, n: nat, rest: string)
    requires rest != "" ==> !IsDigit(rest[0])
    ensures DigitsStand(sign + (Numeral(n) + rest), |sign|, Numeral(n))
    ensures !IsSpace((Numeral(n) + rest)[0]) && (Numeral(n) + rest)[0] != '-' && (Numeral(n) + rest)[0] != '+'
  {
    var digits := Numeral(n);
    hide Numeral, IsSpace;
    assert IsDigit(digits[0]);
    DigitIsNoSpace(digits[0]);
  }

  lemma DigitIsNoSpace(c: char)
    requires IsDigit(c)
    ensures !IsSpace(c)
  {
  }

  /** Blanks, a sign and a number, up to anything that is no digit. */
  lemma NumbersAreRead(l: string, sign: string, n: nat, rest: string)
    requires Space.Covers(l) && IsSign(sign)
    requires rest != "" ==> !IsDigit(rest[0])
    ensures ParseInt(l + sign + (Numeral(n) + rest)) == Signed(sign, n)
  {
    hide *;
    NumeralStands(sign, n, rest);
    ParseStep(l, sign, Numeral(n) + rest);
    DigitsAreRead(sign + (Numeral(n) + rest), |sign|, 0, Numeral(n));
    NumeralIsItsNumber(n);
  }

  /** A part with no number where one should stand counts as zero. */
  lemma NoNumberIsZero(l: string, sign: string, rest: string)
    requires Space.Covers(l) && IsSign(sign)
    requires rest != "" ==> !IsDigit(rest[0])
    requires sign == "" && rest != "" ==> !IsSpace(rest[0]) && rest[0] != '-' && rest[0] != '+'
    ensures ParseInt(l + sign + rest) == 0
  {
    ParseStep(l, sign, rest);
    assert DigitsFrom(sign + rest, |sign|, 0) == 0;
    hide ParseInt, DigitsFrom;
  }

  // ----- A whole version -----

  /** The numbers with dots between them. */
  function Written(ns: seq<nat>): string
    requires ns != []
  {
    if |ns| == 1 then Numeral(ns[0]) else Written(ns[..|ns| - 1]) + "." + Numeral(ns[|ns| - 1])
  }

  /** The number in place `i`; the ones that are not written are zero. */
  function NumberAt(ns: seq<nat>, i: nat): nat {
    if i < |ns| then ns[i] else 0
  }

  lemma {:induction false} NoDotNoCut(s: string)
    requires forall i :: 0 <= i < |s| ==> s[i] != '.'
    ensures SplitOn(s, '.') == [s]
  {
    if s != "" {
      NoDotNoCut(s[1..]);
      assert [s[0]] + s[1..] == s;
    }
  }

  lemma PlainNumber(n: nat)
    ensures |Segments(Numeral(n))| == 1 && Segments(Numeral(n))[0] == n && Numeral(n) != ""
  {
    NoDotNoCut(Numeral(n));
    NumbersAreRead("", "", n, "");
    assert "" + "" + (Numeral(n) + "") == Numeral(n);
    assert Signed("", n) == n;
    hide Numeral, ParseInt, SplitOn;
  }

  lemma SegmentsSplit(a: string, b: string)
    ensures Segments(a + "." + b) == Segments(a) + Segments(b)
  {
    assert a + "." + b == a + ['.'] + b;
    SplitAppends(a, '.', b);
    hide SplitOn, ParseInt;
  }

  lemma {:induction false} WrittenIsRead(ns: seq<nat>)
    requires ns != []
    ensures Written(ns) != "" && |Segments(Written(ns))| == |ns|
    ensures forall i :: 0 <= i < |ns| ==> Segments(Written(ns))[i] == ns[i]
  {
    hide Numeral, Segments;
    if |ns| == 1 {
      PlainNumber(ns[0]);
    } else {
      var (front, last) := (ns[..|ns| - 1], ns[|ns| - 1]);
      WrittenIsRead(front);
      PlainNumber(last);
      SegmentsSplit(Written(front), Numeral(last));
    }
  }

  lemma WrittenAt(ns: seq<nat>, i: nat)
    requires ns != []
    ensures At(Written(ns), i) == NumberAt(ns, i)
  {
    WrittenIsRead(ns);
    hide Segments;
  }

  /** The first numbers that differ decide: 2.10 is newer than 2.9, and 2 is 2.0. */
  lemma WrittenVersionsCompare(ms: seq<nat>, ns: seq<nat>, k: nat)
    requires ms != [] && ns != [] && forall j :: 0 <= j < k ==> NumberAt(ms, j) == NumberAt(ns, j)
    ensures NumberAt(ms, k) < NumberAt(ns, k) ==> Compare(Written(ms), Written(ns)) < 0
    ensures NumberAt(ms, k) > NumberAt(ns, k) ==> Compare(Written(ms), Written(ns)) > 0
    ensures k >= |ms| && k >= |ns| ==> Compare(Written(ms), Written(ns)) == 0
  {
    var (a, b) := (Written(ms), Written(ns));
    assert k >= |ms| && k >= |ns| ==> forall i: nat :: NumberAt(ms, i) == NumberAt(ns, i);
    hide At, Compare, Written, NumberAt;
    forall i: nat ensures At(a, i) == NumberAt(ms, i) && At(b, i) == NumberAt(ns, i) {
      WrittenAt(ms, i);
      WrittenAt(ns, i);
    }
    hide Older, Same;
    CompareIsLexicographic(a, b);
    DiffersAt(a, b, k);
  }

  lemma DiffersAt(a: string, b: string, k: nat)
    requires forall j: nat :: j < k ==> At(a, j) == At(b, j)
    ensures At(a, k) < At(b, k) ==> Older(a, b)
    ensures At(a, k) > At(b, k) ==> Older(b, a)
    ensures (forall i: nat :: At(a, i) == At(b, i)) ==> Same(a, b)
  {
    hide At;
    if At(a, k) < At(b, k) { assert OlderAt(a, b, k); }
    if At(a, k) > At(b, k) { assert OlderAt(b, a, k); }
  }

  /** A missing version counts as 0, and the newest of none is 1.0. */
  lemma NothingWritten(versions: seq<string>, v: string)
    ensures Compare("", v) == Compare(Written([0]), v)
    ensures (forall w :: w in versions ==> w == "") ==> MaxVersion(versions) == "1.0"
  {
    assert OrElse("", "0") == "0" && OrElse("0", "0") == "0" && Written([0]) == "0" by {
      assert Numeral(0) == ['0'];
    }
    MissingIsZero(v, 0);
    BestIsNewest(versions);
    hide Best;
  }

  lemma {:induction false} MissingIsZero(v: string, i: nat)
    ensures CompareFrom("", v, i) == CompareFrom("0", v, i)
    decreases Length("0", v) - i
  {
    assert OrElse("", "0") == "0" && OrElse("0", "0") == "0";
    hide Segments;
    assert Length("", v) == Length("0", v);
    assert At("", i) == At("0", i);
    if i < Length("0", v) { MissingIsZero(v, i + 1); }
  }
}
