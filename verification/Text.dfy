/**
 * Character classes and the string operations the address code is written with:
 * whitespace collapsing, trimming and case mapping.
 *
 * Case mapping covers the ASCII letters; every other character is its own upper
 * and lower case.
 */
module Text {
  import opened Wrappers

  /** The characters the regular-expression class `\s` matches. */
  predicate IsSpace(c: char) {
    || '\t' <= c <= '\r' || c == ' ' || c == '\U{A0}' || c == '\U{1680}'
    || '\U{2000}' <= c <= '\U{200A}' || c == '\U{2028}' || c == '\U{2029}'
    || c == '\U{202F}' || c == '\U{205F}' || c == '\U{3000}' || c == '\U{FEFF}'
  }

  predicate IsDigit(c: char) { '0' <= c <= '9' }

  function DigitValue(c: char): (d: nat)
    requires IsDigit(c)
    ensures d < 10
  {
    c as int - '0' as int
  }

  predicate IsLetter(c: char) { 'a' <= c <= 'z' || 'A' <= c <= 'Z' }

  function Upper(c: char): (u: char)
    ensures IsLetter(c) <==> IsLetter(u)
    ensures !IsLetter(c) ==> u == c
    ensures !('a' <= u <= 'z')
  {
    if 'a' <= c <= 'z' then (c as int - 32) as char else c
  }

  function Lower(c: char): (l: char)
    ensures IsLetter(c) <==> IsLetter(l)
    ensures !IsLetter(c) ==> l == c
  {
    if 'A' <= c <= 'Z' then (c as int + 32) as char else c
  }

  function UpperAll(s: string): (u: string)
    ensures |u| == |s|
    ensures forall i :: 0 <= i < |s| ==> u[i] == Upper(s[i])
  {
    seq(|s|, i requires 0 <= i < |s| => Upper(s[i]))
  }

  /** `a || b` over strings. */
  function OrElse(a: string, b: string): string {
    if a != "" then a else b
  }

  /** The character classes the scanners below run over. */
  datatype Class =
    | Space
    | Digit
    | Letter
    | Separator   // [\s,\-–], what trimSeparators strips
    | CommaSpace  // [,\s]
    | SlashDash   // [/-]
    | TokenLead   // [\s,\-], what may precede a trailing province
    | Only(c: char)
  {
    predicate Has(c: char) {
      match this
      case Space => IsSpace(c)
      case Digit => IsDigit(c)
      case Letter => IsLetter(c)
      case Separator => IsSpace(c) || c == ',' || c == '-' || c == '\U{2013}'
      case CommaSpace => IsSpace(c) || c == ','
      case SlashDash => c == '/' || c == '-'
      case TokenLead => IsSpace(c) || c == ',' || c == '-'
      case Only(d) => c == d
    }

    predicate Covers(s: string) {
      forall c :: c in s ==> Has(c)
    }
  }

  /** The end of the longest run of `k` starting at `i`. */
  function Span(s: string, i: nat, k: Class): (e: nat)
    requires i <= |s|
    ensures i <= e <= |s|
    ensures forall j :: i <= j < e ==> k.Has(s[j])
    ensures e < |s| ==> !k.Has(s[e])
    decreases |s| - i
  {
    if i < |s| && k.Has(s[i]) then Span(s, i + 1, k) else i
  }

  /** `s` without its leading characters of class `k`. */
  function TrimLeft(s: string, k: Class): (t: string)
    ensures |t| <= |s| && t == s[|s| - |t|..]
    ensures t != "" ==> !k.Has(t[0])
    ensures forall i :: 0 <= i < |s| - |t| ==> k.Has(s[i])
  {
    if s != "" && k.Has(s[0]) then TrimLeft(s[1..], k) else s
  }

  /** `s` without its trailing characters of class `k`. */
  function TrimRight(s: string, k: Class): (t: string)
    ensures |t| <= |s| && t == s[..|t|]
    ensures t != "" ==> !k.Has(t[|t| - 1])
    ensures forall i :: |t| <= i < |s| ==> k.Has(s[i])
  {
    if s != "" && k.Has(s[|s| - 1]) then TrimRight(s[..|s| - 1], k) else s
  }

  function Trim(s: string): string {
    TrimRight(TrimLeft(s, Space), Space)
  }

  /** What the first character of `s` becomes when whitespace is collapsed. */
  function CollapsedHead(s: string): (h: string)
    requires s != ""
    ensures |h| <= 1
  {
    if !IsSpace(s[0]) then [s[0]]
    else if |s| > 1 && IsSpace(s[1]) then ""
    else " "
  }

  /** Every run of whitespace becomes one blank. */
  function Collapse(s: string): (t: string)
    ensures |t| <= |s|
    ensures t == "" <==> s == ""
  {
    if s == "" then "" else CollapsedHead(s) + Collapse(s[1..])
  }

  /** Whitespace occurs only as single blanks. */
  predicate Tidy(s: string) {
    forall i :: 0 <= i < |s| && IsSpace(s[i]) ==>
      s[i] == ' ' && (i + 1 < |s| ==> !IsSpace(s[i + 1]))
  }

  /** Neither end of a non-empty `s` is of class `k`. */
  predicate Bare(s: string, k: Class) {
    s != "" ==> !k.Has(s[0]) && !k.Has(s[|s| - 1])
  }

  /** `pattern.exec(s)` from `from` on: the leftmost position at which `p` matches. */
  function First(p: (string, nat) -> bool, s: string, from: nat): (r: Option<nat>)
    requires from <= |s|
    ensures r.Some? ==> from <= r.value <= |s| && p(s, r.value)
    ensures r.Some? ==> forall i :: from <= i < r.value ==> !p(s, i)
    ensures r.None? ==> forall i :: from <= i <= |s| ==> !p(s, i)
    decreases |s| - from
  {
    if p(s, from) then Some(from)
    else if from == |s| then None
    else First(p, s, from + 1)
  }

  /** The leftmost match is the position that matches with none before it. */
  lemma FirstIs(p: (string, nat) -> bool, s: string, i: nat)
    requires i <= |s| && p(s, i)
    requires forall j :: 0 <= j < i ==> !p(s, j)
    ensures First(p, s, 0) == Some(i)
  {
    var r := First(p, s, 0);
    assert p(s, r.value);
  }

  // ----- How the operations act on concatenations -----

  lemma {:induction false} TrimLeftPad(l: string, s: string, k: Class)
    requires k.Covers(l)
    ensures TrimLeft(l + s, k) == TrimLeft(s, k)
  {
    if l == "" {
      assert l + s == s;
    } else {
      assert (l + s)[1..] == l[1..] + s;
      TrimLeftPad(l[1..], s, k);
    }
  }

  lemma {:induction false} TrimRightPad(s: string, r: string, k: Class)
    requires k.Covers(r)
    ensures TrimRight(s + r, k) == TrimRight(s, k)
  {
    if r == "" {
      assert s + r == s;
    } else {
      assert r[|r| - 1] in r;
      assert (s + r)[..|s + r| - 1] == s + r[..|r| - 1];
      TrimRightPad(s, r[..|r| - 1], k);
    }
  }

  lemma {:induction false} TrimLeftBare(s: string, r: string, k: Class)
    requires s != "" && !k.Has(s[0])
    ensures TrimLeft(s + r, k) == s + r
  {
    assert (s + r)[0] == s[0];
  }

  /** Collapsing acts on the two halves separately unless whitespace spans the cut. */
  lemma {:induction false} CollapseConcat(a: string, b: string)
    requires a == "" || b == "" || !(IsSpace(a[|a| - 1]) && IsSpace(b[0]))
    ensures Collapse(a + b) == Collapse(a) + Collapse(b)
  {
    hide IsSpace;
    if a == "" {
      assert a + b == b;
    } else if b == "" {
      assert a + b == a;
    } else {
      CollapseConcat(a[1..], b);
      assert (a + b)[1..] == a[1..] + b;
      var head := CollapsedHead(a);
      assert CollapsedHead(a + b) == head;
      assert Collapse(a + b) == head + (Collapse(a[1..]) + Collapse(b));
      assert Collapse(a) == head + Collapse(a[1..]);
    }
  }

  lemma {:induction false} CollapseTidy(s: string)
    requires Tidy(s)
    ensures Collapse(s) == s
  {
    if s != "" {
      assert Tidy(s[1..]) by {
        forall i | 0 <= i < |s[1..]| && IsSpace(s[1..][i])
          ensures s[1..][i] == ' ' && (i + 1 < |s[1..]| ==> !IsSpace(s[1..][i + 1]))
        {
          assert s[1..][i] == s[i + 1];
        }
      }
      CollapseTidy(s[1..]);
      assert s == [s[0]] + s[1..];
    }
  }

  lemma TidyConcat(a: string, b: string)
    requires Tidy(a) && Tidy(b)
    requires a == "" || b == "" || !(IsSpace(a[|a| - 1]) && IsSpace(b[0]))
    ensures Tidy(a + b)
  {
    var s := a + b;
    forall i | 0 <= i < |s| && IsSpace(s[i])
      ensures s[i] == ' ' && (i + 1 < |s| ==> !IsSpace(s[i + 1]))
    {
      if i < |a| {
        assert s[i] == a[i];
        if i + 1 < |a| { assert s[i + 1] == a[i + 1]; }
        else if i + 1 < |s| { assert s[i + 1] == b[0]; }
      } else {
        assert s[i] == b[i - |a|];
        if i + 1 < |s| { assert s[i + 1] == b[i + 1 - |a|]; }
      }
    }
  }

  /** Collapsing keeps a string inside any class that has the blank. */
  lemma {:induction false} CollapseCovered(s: string, k: Class)
    requires k.Covers(s) && k.Has(' ')
    ensures k.Covers(Collapse(s))
  {
    if s != "" {
      assert s[0] in s;
      assert k.Covers(s[1..]);
      CollapseCovered(s[1..], k);
    }
  }

  /** Collapsing invents nothing but blanks. */
  lemma {:induction false} CollapseKeeps(s: string, c: char)
    requires c in Collapse(s) && c != ' '
    ensures c in s
  {
    if c in Collapse(s[1..]) {
      CollapseKeeps(s[1..], c);
    }
  }

  lemma TrimBare(s: string)
    requires Bare(s, Space)
    ensures Trim(s) == s
  {
  }
}
