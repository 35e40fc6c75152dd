/**
 * The regular expressions of src/common/utils/address.utils.ts, stated by how a
 * match is put together, and the scanners of Address proved to find exactly those.
 */
module AddressPatterns {
  import opened Wrappers
  import opened Text
  import opened Address
  import opened PrintedLines

  // ----- \d+\s*[/-]?\s*[A-Za-z]?(?:\s?(?:bis|ter))?\s*, the civic number -----

  /** `(?:\s?(?:bis|ter))?` matches `gap + word`. */
  predicate IsExtension(gap: string, word: string) {
    || (gap == "" && word == "")
    || (|gap| <= 1 && Space.Covers(gap) && |word| == 3 && (SameWord(word, "bis") || SameWord(word, "ter")))
  }

  predicate SameWord(a: string, b: string) {
    |a| == |b| && forall i :: 0 <= i < |a| ==> Lower(a[i]) == b[i]
  }

  /** One way a string is such a number. */
  datatype Civic = Civic(
    digits: string, before: string, mark: string, behind: string,
    letter: string, gap: string, word: string, end: string)
  {
    function Text(): string {
      digits + before + mark + behind + letter + gap + word + end
    }

    predicate Fits() {
      && digits != "" && Digit.Covers(digits)
      && Space.Covers(before) && (mark == "" || mark == "/" || mark == "-") && Space.Covers(behind)
      && |letter| <= 1 && Letter.Covers(letter)
      && IsExtension(gap, word) && Space.Covers(end)
    }
  }

  lemma BisOrTerIs(s: string)
    ensures IsBisOrTer(s) <==> |s| == 3 && (SameWord(s, "bis") || SameWord(s, "ter"))
    ensures IsBisOrTer(s) ==> IsLetter(s[0]) && IsLetter(s[2])
  {
    if |s| == 3 {
      assert SameWord(s, "bis") <==> Lower(s[0]) == 'b' && Lower(s[1]) == 'i' && Lower(s[2]) == 's' by {
        assert "bis"[0] == 'b' && "bis"[1] == 'i' && "bis"[2] == 's' && |"bis"| == 3;
      }
      assert SameWord(s, "ter") <==> Lower(s[0]) == 't' && Lower(s[1]) == 'e' && Lower(s[2]) == 'r' by {
        assert "ter"[0] == 't' && "ter"[1] == 'e' && "ter"[2] == 'r' && |"ter"| == 3;
      }
    }
  }

  lemma SpanIs(s: string, i: nat, j: nat, k: Class)
    requires i <= j <= |s| && (forall x :: i <= x < j ==> k.Has(s[x])) && (j < |s| ==> !k.Has(s[j]))
    ensures Span(s, i, k) == j
  {
    hide Class.Has;
  }

  /** Digits up to `n`, blanks up to `a`, perhaps a mark there, and blanks up to `p`. */
  predicate Opening(s: string, n: nat, a: nat, p: nat) {
    && n <= a <= p <= |s|
    && (forall x :: 0 <= x < n ==> IsDigit(s[x])) && (n < |s| ==> !IsDigit(s[n]))
    && (forall x :: n <= x < a ==> IsSpace(s[x])) && (a < |s| ==> !IsSpace(s[a]))
    && (if a < |s| && SlashDash.Has(s[a])
        then a < p && (forall x :: a + 1 <= x < p ==> IsSpace(s[x])) && (p < |s| ==> !IsSpace(s[p]))
        else p == a)
  }

  lemma OpeningEnds(s: string, n: nat, a: nat, p: nat)
    requires Opening(s, n, a, p)
    ensures Span(s, 0, Digit) == n && SuffixStart(s) == p
  {
    SpanIs(s, 0, n, Digit);
    SpanIs(s, n, a, Space);
    if a < |s| && SlashDash.Has(s[a]) { SpanIs(s, a + 1, p, Space); }
    hide IsSpace, IsDigit, Span;
  }

  /** The optional letter and the optional extension, and nothing between them but one blank. */
  lemma SuffixIs(letter: string, gap: string, word: string)
    requires |letter| <= 1 && Letter.Covers(letter) && IsExtension(gap, word)
    requires letter == "" ==> gap == ""
    ensures CivicSuffix(letter + gap + word)
    ensures letter + word != "" ==>
      var u := letter + gap + word; u != "" && IsLetter(u[0]) && IsLetter(u[|u| - 1])
  {
    BisOrTerIs(word);
    hide SameWord, IsBisOrTer, IsSpace;
    var u := letter + gap + word;
    if letter == "" {
      assert u == word;
    } else {
      assert u[0] == letter[0] && letter[0] in letter;
      if gap == "" {
        assert u[1..] == word;
      } else {
        assert u[1] == gap[0] && gap[0] in gap && u[2..] == word;
      }
    }
  }

  /** Everything behind the digits, the marks and the blanks is the suffix and more blanks. */
  lemma CivicFrom(s: string, n: nat, a: nat, p: nat, u: string, end: string)
    requires Opening(s, n, a, p) && n > 0 && s[p..] == u + end
    requires CivicSuffix(u) && (u != "" ==> IsLetter(u[|u| - 1])) && Space.Covers(end)
    ensures CivicToken(s)
  {
    OpeningEnds(s, n, a, p);
    TrimRightPad(u, end, Space);
    assert TrimRight(u, Space) == u;
    hide CivicSuffix, SuffixStart, Opening;
  }

  /** `s` is these five pieces, one after the other. */
  predicate Pieces(s: string, digits: string, before: string, mark: string, behind: string, rest: string) {
    s == digits + before + mark + behind + rest
  }

  lemma PieceAt(s: string, digits: string, before: string, mark: string, behind: string, rest: string, x: nat)
    requires Pieces(s, digits, before, mark, behind, rest) && x < |s|
    ensures
      var (a, b, c, d) := (|digits|, |digits| + |before|, |digits| + |before| + |mark|, |s| - |rest|);
      && |s| == |digits| + |before| + |mark| + |behind| + |rest|
      && s[x] == if x < a then digits[x] else if x < b then before[x - a] else if x < c then mark[x - b]
                 else if x < d then behind[x - c] else rest[x - d]
  {
  }

  lemma OpeningOf(s: string, digits: string, before: string, mark: string, behind: string, rest: string)
    requires Pieces(s, digits, before, mark, behind, rest)
    requires Digit.Covers(digits) && Space.Covers(before) && Space.Covers(behind)
    requires mark == "" || mark == "/" || mark == "-"
    requires rest != "" ==> IsLetter(rest[0])
    ensures
      var (n, p) := (|digits|, |s| - |rest|);
      && p >= 0 && Opening(s, n, if mark == "" then p else n + |before|, p)
      && s[p..] == rest
  {
    var (n, p) := (|digits|, |s| - |rest|);
    var a := if mark == "" then p else n + |before|;
    assert |s| == |digits| + |before| + |mark| + |behind| + |rest|;
    forall x | 0 <= x < |s|
      ensures x < n ==> IsDigit(s[x])
      ensures n <= x < p && (mark == "" || x != a) ==> IsSpace(s[x])
      ensures mark != "" && x == a ==> SlashDash.Has(s[x])
      ensures x == p ==> IsLetter(s[x])
      ensures x >= p ==> s[x] == rest[x - p]
    {
      PieceAt(s, digits, before, mark, behind, rest, x);
      var (b, c) := (n + |before|, n + |before| + |mark|);
      assert x < n ==> digits[x] in digits;
      assert n <= x < b ==> before[x - n] in before;
      assert c <= x < p ==> behind[x - c] in behind;
    }
    hide Pieces;
    assert s[p..] == rest;
  }

  lemma BareNumberIsFound(c: Civic)
    requires c.Fits() && c.letter == "" && c.word == ""
    ensures CivicToken(c.Text())
  {
    var s := c.Text();
    hide CivicToken, CivicSuffix, IsExtension, Opening;
    NoGapWithoutWord(c.gap);
    assert Pieces(s, c.digits, c.before, c.mark, c.behind + c.end, "");
    OpeningOf(s, c.digits, c.before, c.mark, c.behind + c.end, "");
    NothingBehind();
    CivicFrom(s, |c.digits|, if c.mark == "" then |s| else |c.digits| + |c.before|, |s|, "", "");
  }

  lemma WordIsASuffix(word: string)
    requires IsExtension("", word) && word != ""
    ensures CivicSuffix(word) && IsLetter(word[0]) && IsLetter(word[|word| - 1])
  {
    BisOrTerIs(word);
  }

  lemma ExtendedNumberIsFound(c: Civic)
    requires c.Fits() && c.letter == "" && c.word != ""
    ensures CivicToken(c.Text())
  {
    var s := c.Text();
    WithoutGap(c.gap, c.word);
    hide CivicToken, CivicSuffix, IsExtension, Opening;
    WordIsASuffix(c.word);
    assert Pieces(s, c.digits, c.before, c.mark, c.behind + c.gap, c.word + c.end);
    OpeningOf(s, c.digits, c.before, c.mark, c.behind + c.gap, c.word + c.end);
    var p := |s| - |c.word + c.end|;
    CivicFrom(s, |c.digits|, if c.mark == "" then p else |c.digits| + |c.before|, p, c.word, c.end);
  }

  lemma LetteredNumberIsFound(c: Civic)
    requires c.Fits() && c.letter != ""
    ensures CivicToken(c.Text())
  {
    var s := c.Text();
    var u := c.letter + c.gap + c.word;
    hide CivicToken, CivicSuffix, IsExtension, Opening;
    SuffixIs(c.letter, c.gap, c.word);
    assert Pieces(s, c.digits, c.before, c.mark, c.behind, u + c.end);
    OpeningOf(s, c.digits, c.before, c.mark, c.behind, u + c.end);
    var p := |s| - |u + c.end|;
    CivicFrom(s, |c.digits|, if c.mark == "" then p else |c.digits| + |c.before|, p, u, c.end);
  }

  /** Every string put together so is a civic number. */
  lemma CivicIsFound(c: Civic)
    requires c.Fits()
    ensures CivicToken(c.Text())
  {
    hide CivicToken, Civic.Fits, Civic.Text;
    if c.letter != "" {
      LetteredNumberIsFound(c);
    } else if c.word != "" {
      ExtendedNumberIsFound(c);
    } else {
      BareNumberIsFound(c);
    }
  }

  lemma NoGapWithoutWord(gap: string)
    ensures IsExtension(gap, "") ==> gap == ""
  {
  }

  lemma WithoutGap(gap: string, word: string)
    requires IsExtension(gap, word)
    ensures IsExtension("", word) && Space.Covers(gap)
  {
  }

  lemma NothingBehind()
    ensures CivicSuffix("") && "" + "" == ""
  {
  }

  lemma OpeningIsCut(s: string) returns (a: nat, m: nat)
    requires Span(s, 0, Digit) > 0
    ensures
      var (n, p) := (Span(s, 0, Digit), SuffixStart(s));
      && n <= a <= m <= p && s[..n] != "" && Digit.Covers(s[..n]) && Space.Covers(s[n..a]) && Space.Covers(s[m..p])
      && (s[a..m] == "" || s[a..m] == "/" || s[a..m] == "-")
  {
    var n := Span(s, 0, Digit);
    a := Span(s, n, Space);
    m := if a < |s| && SlashDash.Has(s[a]) then a + 1 else a;
    hide Span, IsSpace, IsDigit;
  }

  lemma EndIsBlank(t: string)
    ensures Space.Covers(t[|TrimRight(t, Space)|..]) && t == TrimRight(t, Space) + t[|TrimRight(t, Space)|..]
  {
    var u := TrimRight(t, Space);
    hide TrimRight, IsSpace;
    forall c | c in t[|u|..] ensures Space.Has(c) {
      var x :| 0 <= x < |t[|u|..]| && t[|u|..][x] == c;
      assert t[|u| + x] == c;
    }
  }

  lemma Sixfold(s: string, n: nat, a: nat, m: nat, p: nat, u: string, end: string)
    requires n <= a <= m <= p <= |s| && s[p..] == u + end
    ensures s == s[..n] + s[n..a] + s[a..m] + s[m..p] + (u + end)
  {
  }

  lemma Regrouped(front: string, letter: string, gap: string, word: string, end: string)
    ensures front + letter + gap + word + end == front + (letter + gap + word + end)
  {
  }

  /** And every civic number is put together so. */
  lemma CivicIsPutTogether(s: string) returns (c: Civic)
    requires CivicToken(s)
    ensures c.Fits() && c.Text() == s
  {
    hide SuffixStart, Span, CivicSuffix, IsExtension, TrimRight;
    var n, p := Span(s, 0, Digit), SuffixStart(s);
    var a, m := OpeningIsCut(s);
    var u := TrimRight(s[p..], Space);
    var end := s[p..][|u|..];
    EndIsBlank(s[p..]);
    var letter, gap, word := CutSuffix(u);
    c := Civic(s[..n], s[n..a], s[a..m], s[m..p], letter, gap, word, end);
    Sixfold(s, n, a, m, p, u, end);
    Regrouped(s[..n] + s[n..a] + s[a..m] + s[m..p], letter, gap, word, end);
  }

  lemma CutSuffix(u: string) returns (letter: string, gap: string, word: string)
    requires CivicSuffix(u)
    ensures |letter| <= 1 && Letter.Covers(letter) && IsExtension(gap, word) && letter + gap + word == u
  {
    BisOrTerIs(u);
    if u == "" {
      letter, gap, word := "", "", "";
    } else if IsBisOrTer(u) {
      letter, gap, word := "", "", u;
    } else if |u| == 1 {
      letter, gap, word := u, "", "";
    } else if IsBisOrTer(u[1..]) {
      BisOrTerIs(u[1..]);
      letter, gap, word := u[..1], "", u[1..];
    } else {
      BisOrTerIs(u[2..]);
      letter, gap, word := u[..1], u[1..2], u[2..];
    }
  }

  /** The scanner takes exactly what the pattern describes. */
  lemma CivicTokenIff(s: string)
    ensures CivicToken(s) <==> exists c: Civic :: c.Fits() && c.Text() == s
  {
    if CivicToken(s) {
      var c := CivicIsPutTogether(s);
    }
    if c: Civic :| c.Fits() && c.Text() == s {
      CivicIsFound(c);
    }
  }

  // ----- \(\s*([A-Za-z]{2})\s*\) and [\s,\-]([A-Za-z]{2})\s*$, the province -----

  predicate IsPair(pair: string) {
    |pair| == 2 && IsLetter(pair[0]) && IsLetter(pair[1])
  }

  /** `s` reads so from `i` on. */
  predicate ReadsFrom(s: string, i: nat, l: string, pair: string, r: string, rest: string) {
    i <= |s| && s[i..] == "(" + l + pair + r + ")" + rest
  }

  lemma ReadAt(s: string, i: nat, l: string, pair: string, r: string, rest: string, j: nat)
    requires ReadsFrom(s, i, l, pair, r, rest) && |pair| == 2 && i <= j < |s|
    ensures |s| == i + |l| + |r| + 4 + |rest|
    ensures
      var (k, m) := (i + 1 + |l|, i + 3 + |l| + |r|);
      s[j] == if j == i then '(' else if j < k then l[j - i - 1] else if j < k + 2 then pair[j - k]
              else if j < m then r[j - k - 2] else if j == m then ')' else rest[j - m - 1]
  {
    assert s[i..][j - i] == s[j];
  }

  /** A pair of letters in brackets, blanks around it or not, is found with its letters. */
  lemma ParenIsFound(s: string, i: nat, l: string, pair: string, r: string, rest: string)
    requires ReadsFrom(s, i, l, pair, r, rest) && Space.Covers(l) && Space.Covers(r) && IsPair(pair)
    ensures ParenAt(s, i) == Some(ParenHit(i, i + 1 + |l|, i + 4 + |l| + |r|))
    ensures i + 3 + |l| <= |s| && s[i + 1 + |l|..i + 3 + |l|] == pair
  {
    var k := i + 1 + |l|;
    var m := k + 2 + |r|;
    assert |s| == i + |s[i..]|;
    forall j | i <= j < |s|
      ensures i < j < k || k + 2 <= j < m ==> IsSpace(s[j])
      ensures j == i ==> s[j] == '('
      ensures j == m ==> s[j] == ')' && !IsSpace(s[j])
      ensures k <= j < k + 2 ==> s[j] == pair[j - k] && !IsSpace(s[j])
    {
      ReadAt(s, i, l, pair, r, rest, j);
      assert i < j < k ==> l[j - i - 1] in l;
      assert k + 2 <= j < m ==> r[j - k - 2] in r;
    }
    hide ReadsFrom, IsSpace;
    SpanIs(s, i + 1, k, Space);
    SpanIs(s, k + 2, m, Space);
    hide Span;
    assert s[k..k + 2] == pair;
  }

  lemma Fivefold(s: string, i: nat, k: nat, m: nat)
    requires i < k && k + 2 <= m < |s| && s[i] == '(' && s[m] == ')'
    ensures ReadsFrom(s, i, s[i + 1..k], s[k..k + 2], s[k + 2..m], s[m + 1..])
  {
    assert s[i..] == s[i..i + 1] + s[i + 1..k] + s[k..k + 2] + s[k + 2..m] + s[m..m + 1] + s[m + 1..];
    assert s[i..i + 1] == "(" && s[m..m + 1] == ")";
  }

  /** And nothing else is found. */
  lemma ParenIsThere(s: string, i: nat) returns (l: string, pair: string, r: string, rest: string)
    requires ParenAt(s, i).Some?
    ensures ReadsFrom(s, i, l, pair, r, rest) && Space.Covers(l) && Space.Covers(r) && IsPair(pair)
  {
    hide Span, IsSpace, ReadsFrom;
    var k := Span(s, i + 1, Space);
    var m := Span(s, k + 2, Space);
    l, pair, r, rest := s[i + 1..k], s[k..k + 2], s[k + 2..m], s[m + 1..];
    Fivefold(s, i, k, m);
  }

  /** The last two letters of a line stand for a province behind a blank, a comma or a dash, and nowhere else. */
  lemma TrailingIsFound(front: string, lead: char, pair: string, end: string)
    requires TokenLead.Has(lead) && IsPair(pair) && Space.Covers(end)
    ensures FindTrailing(front + [lead] + pair + end) == Some(|front|)
  {
    var s := front + [lead] + pair;
    TrimRightPad(s, end, Space);
    assert s[|s| - 3] == lead && s[|s| - 2] == pair[0] && s[|s| - 1] == pair[1];
    assert TrimRight(s, Space) == s;
    assert forall x :: 0 <= x < |s| ==> (s + end)[x] == s[x];
    hide TrimRight, IsSpace;
  }

  lemma TrailingIsThere(s: string) returns (front: string, lead: char, pair: string, end: string)
    requires FindTrailing(s).Some?
    ensures TokenLead.Has(lead) && IsPair(pair) && Space.Covers(end) && s == front + [lead] + pair + end
    ensures FindTrailing(s) == Some(|front|)
  {
    var t := FindTrailing(s).value;
    EndIsBlank(s);
    front, lead, pair, end := s[..t], s[t], s[t + 1..t + 3], s[t + 3..];
    hide TrimRight, IsSpace;
  }

  // ----- Where a line without a CAP is cut -----

  lemma BlankIff(t: string)
    ensures Trim(t) == "" <==> forall j :: 0 <= j < |t| ==> IsSpace(t[j])
  {
    if forall j :: 0 <= j < |t| ==> IsSpace(t[j]) {
      TrimBlank(t);
    } else {
      var j :| 0 <= j < |t| && !IsSpace(t[j]);
      var left := TrimLeft(t, Space);
      assert left != "" && !Space.Has(left[0]);
      var right := TrimRight(left, Space);
      assert |right| > 0;
      hide IsSpace, TrimLeft, TrimRight;
    }
  }

  lemma LastCommaIff(s: string, i: nat)
    ensures LastComma(s, |s|) == Some(i) <==> i < |s| && s[i] == ',' && forall j :: i < j < |s| ==> s[j] != ','
  {
    if i < |s| && s[i] == ',' && forall j :: i < j < |s| ==> s[j] != ',' { LastCommaIs(s, i); }
    hide LastComma;
  }

  /** At the last comma, if something that is no digit stands behind it and something in front. */
  lemma CityCommaIff(s: string, i: nat)
    ensures CityComma(s) == Some(i) <==>
      && 0 < i < |s| && s[i] == ','
      && (forall j :: i < j < |s| ==> s[j] != ',' && !IsDigit(s[j]))
      && exists j :: i < j < |s| && !IsSpace(s[j])
  {
    LastCommaIff(s, i);
    hide LastComma, IsSpace, IsDigit, Trim, HasDigit;
    if i < |s| {
      var tail := s[i + 1..];
      BlankIff(tail);
      NoDigitIff(tail);
      assert forall j :: i < j < |s| ==> s[j] == tail[j - i - 1];
      assert forall j :: 0 <= j < |tail| ==> tail[j] == s[j + i + 1];
    }
  }

  lemma NoDigitIff(t: string)
    ensures !HasDigit(t) <==> forall j :: 0 <= j < |t| ==> !IsDigit(t[j])
  {
    hide IsDigit;
    if HasDigit(t) {
      var c :| c in t && IsDigit(c);
      var j :| 0 <= j < |t| && t[j] == c;
    } else {
      forall j | 0 <= j < |t| ensures !IsDigit(t[j]) {
        assert t[j] in t;
      }
    }
  }
}
