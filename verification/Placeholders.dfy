/**
 * src/modules/notifications/notification-variables.ts: the `{{...}}` scanner,
 * the variable registry and the renderer.
 */
module Placeholders {
  import opened Wrappers
  import opened Text
  import opened InsertionOrder

  // ----- The registry -----

  datatype Lang = It | En

  datatype Variable =
    | Name | FirstName | LastName | Surname | Email
    | Provider | OfferName | UtilityType
  {
    /** `user` variables always resolve; `case` variables have no fallback. */
    predicate CaseScoped() {
      Provider? || OfferName? || UtilityType?
    }
  }

  function VariableOf(key: string): Option<Variable> {
    if key == "name" then Some(Name)
    else if key == "firstName" then Some(FirstName)
    else if key == "lastName" then Some(LastName)
    else if key == "surname" then Some(Surname)
    else if key == "email" then Some(Email)
    else if key == "provider" then Some(Provider)
    else if key == "offer_name" then Some(OfferName)
    else if key == "utility_type" then Some(UtilityType)
    else None
  }

  predicate IsKnown(key: string) {
    VariableOf(key).Some?
  }

  predicate IsCaseScoped(key: string) {
    IsKnown(key) && VariableOf(key).value.CaseScoped()
  }

  // ----- The scanner: /\{\{\s*([a-zA-Z_][a-zA-Z0-9_]*)\s*\}\}/g -----

  predicate IsWordStart(c: char) {
    IsLetter(c) || c == '_'
  }

  predicate IsWordChar(c: char) {
    IsWordStart(c) || IsDigit(c)
  }

  predicate IsWord(key: string) {
    key != "" && IsWordStart(key[0]) && forall i :: 0 <= i < |key| ==> IsWordChar(key[i])
  }

  /** What one match of the pattern is made of. */
  ghost predicate IsPlaceholder(raw: string, key: string) {
    && IsWord(key)
    && exists a, b :: Space.Covers(a) && Space.Covers(b) && raw == Spelled(a, key, b)
  }

  function Spelled(a: string, key: string, b: string): string {
    "{{" + a + key + b + "}}"
  }

  function WordEnd(t: string, i: nat): (e: nat)
    requires i <= |t|
    ensures i <= e <= |t|
    ensures forall j :: i <= j < e ==> IsWordChar(t[j])
    ensures e < |t| ==> !IsWordChar(t[e])
    decreases |t| - i
  {
    if i < |t| && IsWordChar(t[i]) then WordEnd(t, i + 1) else i
  }

  predicate Doubled(t: string, i: nat, c: char) {
    i + 1 < |t| && t[i] == c && t[i + 1] == c
  }

  datatype Match = Match(key: string, end: nat)

  /** The match that starts at `i`, if there is one. */
  function MatchAt(t: string, i: nat): (m: Option<Match>)
    ensures m.Some? ==> i + 4 < m.value.end <= |t| && Doubled(t, i, '{')
  {
    if !Doubled(t, i, '{') then None
    else
      var a := Span(t, i + 2, Space);
      if !(a < |t| && IsWordStart(t[a])) then None
      else
        var b := WordEnd(t, a);
        var c := Span(t, b, Space);
        if Doubled(t, c, '}') then Some(Match(t[a..b], c + 2)) else None
  }

  /** The scanner finds exactly the substrings the pattern describes. */
  lemma MatchAtIsPlaceholder(t: string, i: nat, end: nat, key: string)
    requires i <= end <= |t|
    ensures MatchAt(t, i) == Some(Match(key, end)) <==> IsPlaceholder(t[i..end], key)
  {
    if MatchAt(t, i) == Some(Match(key, end)) {
      MatchIsPlaceholder(t, i);
    }
    if IsPlaceholder(t[i..end], key) {
      var a, b :| Space.Covers(a) && Space.Covers(b) && t[i..end] == Spelled(a, key, b);
      PlaceholderMatches(t, i, a, key, b);
    }
  }

  lemma MatchIsPlaceholder(t: string, i: nat)
    requires MatchAt(t, i).Some?
    ensures IsPlaceholder(t[i..MatchAt(t, i).value.end], MatchAt(t, i).value.key)
  {
    var a := Span(t, i + 2, Space);
    var b := WordEnd(t, a);
    var c := Span(t, b, Space);
    assert MatchAt(t, i) == Some(Match(t[a..b], c + 2));
    assert IsWord(t[a..b]);
    assert Doubled(t, i, '{') && Doubled(t, c, '}');
    hide MatchAt, Doubled, IsWord, IsWordChar, IsWordStart, IsSpace, Spelled;
    SlicesSpell(t, i, a, b, c);
  }

  lemma SlicesSpell(t: string, i: nat, a: nat, b: nat, c: nat)
    requires i + 2 <= a <= b <= c <= |t|
    requires Doubled(t, i, '{') && Doubled(t, c, '}')
    ensures t[i..c + 2] == Spelled(t[i + 2..a], t[a..b], t[b..c])
  {
    var raw := t[i..c + 2];
    var spelled := Spelled(t[i + 2..a], t[a..b], t[b..c]);
    assert raw == t[i..i + 2] + t[i + 2..a] + t[a..b] + t[b..c] + t[c..c + 2];
    assert t[i..i + 2] == "{{" && t[c..c + 2] == "}}";
  }

  lemma SpanIs(t: string, i: nat, e: nat, k: Class)
    requires i <= e <= |t|
    requires forall j :: i <= j < e ==> k.Has(t[j])
    requires e < |t| ==> !k.Has(t[e])
    ensures Span(t, i, k) == e
  {
  }

  lemma SpelledAt(t: string, i: nat, a: string, key: string, b: string)
    requires i + |Spelled(a, key, b)| <= |t| && t[i..i + |Spelled(a, key, b)|] == Spelled(a, key, b)
    ensures |Spelled(a, key, b)| == |a| + |key| + |b| + 4
    ensures Doubled(t, i, '{') && Doubled(t, i + 2 + |a| + |key| + |b|, '}')
    ensures t[i + 2..i + 2 + |a|] == a
    ensures t[i + 2 + |a|..i + 2 + |a| + |key|] == key
    ensures t[i + 2 + |a| + |key|..i + 2 + |a| + |key| + |b|] == b
  {
    var raw := Spelled(a, key, b);
    forall j | 0 <= j < |raw| ensures t[i + j] == raw[j] {
      assert t[i..i + |raw|][j] == raw[j];
    }
    assert t[i + 0] == '{' && t[i + 1] == '{';
    assert t[i + (|raw| - 2)] == '}' && t[i + (|raw| - 1)] == '}';
    SliceIs(t, i, raw, 2, a);
    SliceIs(t, i, raw, 2 + |a|, key);
    SliceIs(t, i, raw, 2 + |a| + |key|, b);
  }

  lemma SliceIs(t: string, i: nat, raw: string, from: nat, s: string)
    requires i + |raw| <= |t| && from + |s| <= |raw|
    requires forall j :: 0 <= j < |raw| ==> t[i + j] == raw[j]
    requires raw[from..from + |s|] == s
    ensures t[i + from..i + from + |s|] == s
  {
    forall j | 0 <= j < |s| ensures t[i + from..i + from + |s|][j] == s[j] {
      assert raw[from..from + |s|][j] == raw[from + j];
      assert t[i + (from + j)] == raw[from + j];
    }
  }

  lemma PlaceholderMatches(t: string, i: nat, a: string, key: string, b: string)
    requires IsWord(key) && Space.Covers(a) && Space.Covers(b)
    requires i + |Spelled(a, key, b)| <= |t| && t[i..i + |Spelled(a, key, b)|] == Spelled(a, key, b)
    ensures MatchAt(t, i) == Some(Match(key, i + |Spelled(a, key, b)|))
  {
    SpelledAt(t, i, a, key, b);
    var p := i + 2 + |a|;
    var q := p + |key|;
    var r := q + |b|;
    assert t[r] == '}';
    hide Spelled, MatchAt, IsSpace, Doubled;
    CoveredSpan(t, i + 2, a);
    WordThenSpaces(t, p, key, b);
    CoveredSpan(t, q, b);
    MatchOfParts(t, i, p, q, r);
  }

  lemma MatchOfParts(t: string, i: nat, p: nat, q: nat, r: nat)
    requires i + 2 <= p < q <= r < |t|
    requires Doubled(t, i, '{') && Doubled(t, r, '}') && IsWordStart(t[p])
    requires Span(t, i + 2, Space) == p && WordEnd(t, p) == q && Span(t, q, Space) == r
    ensures MatchAt(t, i) == Some(Match(t[p..q], r + 2))
  {
    hide IsWordStart, WordEnd, Span;
  }

  /** Blanks, and then something else. */
  lemma CoveredSpan(t: string, i: nat, a: string)
    requires i + |a| < |t| && t[i..i + |a|] == a && Space.Covers(a)
    ensures !IsSpace(t[i + |a|]) ==> Span(t, i, Space) == i + |a|
  {
    hide IsSpace;
    forall j | i <= j < i + |a| ensures Space.Has(t[j]) {
      assert t[j] == a[j - i];
    }
    if !IsSpace(t[i + |a|]) { SpanIs(t, i, i + |a|, Space); }
  }

  /** A word ends where blanks or the closing braces begin. */
  lemma WordThenSpaces(t: string, p: nat, key: string, b: string)
    requires IsWord(key) && Space.Covers(b)
    requires p + |key| + |b| < |t| && t[p..p + |key|] == key && t[p + |key|..p + |key| + |b|] == b
    requires t[p + |key| + |b|] == '}'
    ensures WordEnd(t, p) == p + |key|
    ensures IsWordStart(t[p]) && !IsSpace(t[p])
    ensures !IsSpace(t[p + |key| + |b|])
  {
    var q := p + |key|;
    assert t[p] == key[0];
    forall j | p <= j < q ensures IsWordChar(t[j]) {
      assert t[j] == key[j - p];
    }
    assert b != "" ==> t[q] == b[0] && b[0] in b;
    assert !IsWordChar(t[q]);
  }

  // ----- Scanning a whole text -----

  /** A text is plain characters and placeholders; `raw` is how one was written. */
  datatype Piece = Plain(c: char) | Token(raw: string, key: string)

  /** `text.matchAll(pattern)`: leftmost matches, none overlapping. */
  function Scan(t: string, i: nat): seq<Piece>
    requires i <= |t|
    decreases |t| - i
  {
    if i == |t| then [] else [PieceAt(t, i)] + Scan(t, Next(t, i))
  }

  function PieceAt(t: string, i: nat): Piece
    requires i < |t|
  {
    var m := MatchAt(t, i);
    if m.Some? then Token(t[i..m.value.end], m.value.key) else Plain(t[i])
  }

  function Next(t: string, i: nat): (n: nat)
    requires i < |t|
    ensures i < n <= |t|
  {
    var m := MatchAt(t, i);
    if m.Some? then m.value.end else i + 1
  }

  function Written(pieces: seq<Piece>): string {
    if pieces == [] then ""
    else (if pieces[0].Plain? then [pieces[0].c] else pieces[0].raw) + Written(pieces[1..])
  }

  /** Scanning loses nothing. */
  lemma {:induction false} ScanKeepsText(t: string, i: nat)
    requires i <= |t|
    ensures Written(Scan(t, i)) == t[i..]
    decreases |t| - i
  {
    if i < |t| {
      ScanKeepsText(t, Next(t, i));
      assert t[i..] == t[i..Next(t, i)] + t[Next(t, i)..];
      assert t[i..i + 1] == [t[i]];
      hide MatchAt;
      assert Scan(t, i)[1..] == Scan(t, Next(t, i));
    }
  }

  /** `text.includes('{{')` */
  predicate Opens(t: string) {
    exists i: nat :: i < |t| && Doubled(t, i, '{')
  }

  /** Without "{{" there is nothing to find. */
  lemma {:induction false} NothingOpens(t: string, i: nat)
    requires i <= |t| && !Opens(t)
    ensures forall k :: 0 <= k < |Scan(t, i)| ==> Scan(t, i)[k].Plain?
    decreases |t| - i
  {
    if i < |t| { NothingOpens(t, i + 1); }
  }

  // ----- What a text uses -----

  function Keys(pieces: seq<Piece>): (keys: seq<string>)
  {
    if pieces == [] then []
    else (if pieces[0].Token? then [pieces[0].key] else []) + Keys(pieces[1..])
  }

  function Variables(t: string): seq<string> {
    AddAll([], Keys(Scan(t, 0)))
  }

  predicate UsesCaseScopedVariables(t: string) {
    exists k :: k in Variables(t) && IsCaseScoped(k)
  }

  predicate AllKnown(t: string) {
    forall k :: k in Variables(t) ==> IsKnown(k)
  }

  lemma KeysStep(found: seq<string>, piece: Piece, rest: seq<Piece>)
    ensures AddAll(found, Keys([piece] + rest))
         == AddAll(if piece.Token? then Add(found, piece.key) else found, Keys(rest))
  {
    assert ([piece] + rest)[1..] == rest;
    assert Keys([piece] + rest) == (if piece.Token? then [piece.key] else []) + Keys(rest);
    hide Keys;
    if piece.Token? {
      AddAllStep(found, piece.key, Keys(rest));
    } else {
      assert [] + Keys(rest) == Keys(rest);
    }
  }

  /** `extractVariables`: every distinct token, in first-seen order. */
  method ExtractVariables(t: string) returns (found: seq<string>)
    ensures found == Variables(t)
  {
    hide PieceAt, Next;
    if !Opens(t) {
      NothingOpens(t, 0);
      NoTokens(Scan(t, 0));
      return [];
    }
    assert Keys([]) == [] && forall f: seq<string> :: AddAll(f, []) == f;
    hide Keys, AddAll;
    found := [];
    var i := 0;
    while i < |t|
      invariant i <= |t|
      invariant AddAll(found, Keys(Scan(t, i))) == Variables(t)
    {
      var piece := PieceAt(t, i);
      KeysStep(found, piece, Scan(t, Next(t, i)));
      if piece.Token? { found := Add(found, piece.key); }
      i := Next(t, i);
    }
  }

  lemma {:induction false} NoTokens(pieces: seq<Piece>)
    requires forall k :: 0 <= k < |pieces| ==> pieces[k].Plain?
    ensures Keys(pieces) == []
  {
    if pieces != [] { NoTokens(pieces[1..]); }
  }

  lemma PlainHasNoVariables(t: string)
    requires !Opens(t)
    ensures Variables(t) == []
  {
    NothingOpens(t, 0);
    NoTokens(Scan(t, 0));
  }

  /** A text that is one placeholder and nothing else. */
  lemma LoneToken(key: string)
    requires IsWord(key)
    ensures Variables(Spelled("", key, "")) == [key]
  {
    var t := Spelled("", key, "");
    assert t[0..|t|] == t;
    PlaceholderMatches(t, 0, "", key, "");
    assert Scan(t, |t|) == [];
    assert Scan(t, 0) == [Token(t, key)] by { hide MatchAt, Spelled; }
    hide MatchAt, Spelled, Scan;
    assert Keys([Token(t, key)]) == [key] + Keys([]);
    assert AddAll([], [key]) == [key];
  }

  // ----- Rendering -----

  datatype BillType = Electricity | Gas

  datatype User = User(firstName: Option<string>, lastName: Option<string>, email: string)

  datatype CaseContext = CaseContext(
    caseId: Option<nat>, provider: Option<string>, offerName: Option<string>, utilityType: Option<BillType>)

  const NO_CASE := CaseContext(None, None, None, None)

  datatype Context = Context(user: Option<User>, about: CaseContext)

  /** `value?.trim() || ''` */
  function Trimmed(s: Option<string>): string {
    if s.Some? then Trim(s.value) else ""
  }

  function UtilityTypeLabel(value: Option<BillType>, locale: Lang): string {
    match value
    case None => ""
    case Some(Gas) => "Gas"
    case Some(Electricity) => if locale == It then "Luce" else "Electricity"
  }

  function ResolveVariable(v: Variable, ctx: Context, locale: Lang): string {
    var first := if ctx.user.Some? then Trimmed(ctx.user.value.firstName) else "";
    var last := if ctx.user.Some? then Trimmed(ctx.user.value.lastName) else "";
    var full := Trim(first + " " + last);
    var email := if ctx.user.Some? then ctx.user.value.email else "";
    match v
    case Name => OrElse(full, OrElse(first, email))
    case FirstName => OrElse(first, OrElse(full, email))
    case LastName => last
    case Surname => last
    case Email => email
    case Provider => Trimmed(ctx.about.provider)
    case OfferName => Trimmed(ctx.about.offerName)
    case UtilityType => UtilityTypeLabel(ctx.about.utilityType, locale)
  }

  /** What a token becomes: unknown ones stay as they were written. */
  function Replacement(raw: string, key: string, ctx: Context, locale: Lang): string {
    if IsKnown(key) then ResolveVariable(VariableOf(key).value, ctx, locale) else raw
  }

  /** A token that stops a send. */
  predicate IsMissing(key: string, ctx: Context, locale: Lang) {
    !IsKnown(key) || (IsCaseScoped(key) && ResolveVariable(VariableOf(key).value, ctx, locale) == "")
  }

  function Shown(piece: Piece, ctx: Context, locale: Lang): string {
    if piece.Plain? then [piece.c] else Replacement(piece.raw, piece.key, ctx, locale)
  }

  function Rendered(pieces: seq<Piece>, ctx: Context, locale: Lang): string {
    if pieces == [] then ""
    else
      Shown(pieces[0], ctx, locale) + Rendered(pieces[1..], ctx, locale)
  }

  function Missing(pieces: seq<Piece>, ctx: Context, locale: Lang): seq<string> {
    if pieces == [] then []
    else
      (if pieces[0].Token? && IsMissing(pieces[0].key, ctx, locale) then [pieces[0].key] else [])
      + Missing(pieces[1..], ctx, locale)
  }

  function RenderedText(t: string, ctx: Context, locale: Lang): string {
    Rendered(Scan(t, 0), ctx, locale)
  }

  function Unresolved(t: string, ctx: Context, locale: Lang): seq<string> {
    AddAll([], Missing(Scan(t, 0), ctx, locale))
  }

  lemma RenderStep(found: seq<string>, piece: Piece, rest: seq<Piece>, ctx: Context, locale: Lang)
    ensures Rendered([piece] + rest, ctx, locale) == Shown(piece, ctx, locale) + Rendered(rest, ctx, locale)
    ensures AddAll(found, Missing([piece] + rest, ctx, locale))
         == AddAll(
              if piece.Token? && IsMissing(piece.key, ctx, locale) then Add(found, piece.key) else found,
              Missing(rest, ctx, locale))
  {
    hide IsMissing, Shown;
    assert ([piece] + rest)[1..] == rest;
    var missing := piece.Token? && IsMissing(piece.key, ctx, locale);
    assert Missing([piece] + rest, ctx, locale)
        == (if missing then [piece.key] else []) + Missing(rest, ctx, locale);
    hide Missing;
    if missing {
      AddAllStep(found, piece.key, Missing(rest, ctx, locale));
    } else {
      assert [] + Missing(rest, ctx, locale) == Missing(rest, ctx, locale);
    }
  }

  /** `renderTemplateText`: one pass that replaces every token and collects the ones it could not fill. */
  method RenderTemplateText(t: string, ctx: Context, locale: Lang) returns (text: string, unresolved: seq<string>)
    ensures text == RenderedText(t, ctx, locale)
    ensures unresolved == Unresolved(t, ctx, locale)
  {
    hide PieceAt, Next, Shown, IsMissing;
    if !Opens(t) {
      NothingToRender(t, ctx, locale);
      return t, [];
    }
    assert Rendered([], ctx, locale) == "" && Missing([], ctx, locale) == [] && forall f: seq<string> :: AddAll(f, []) == f;
    hide Rendered, Missing, AddAll;
    text, unresolved := "", [];
    var i := 0;
    while i < |t|
      invariant i <= |t|
      invariant text + Rendered(Scan(t, i), ctx, locale) == RenderedText(t, ctx, locale)
      invariant AddAll(unresolved, Missing(Scan(t, i), ctx, locale)) == Unresolved(t, ctx, locale)
    {
      var piece := PieceAt(t, i);
      RenderStep(unresolved, piece, Scan(t, Next(t, i)), ctx, locale);
      assert (text + Shown(piece, ctx, locale)) + Rendered(Scan(t, Next(t, i)), ctx, locale)
          == text + Rendered(Scan(t, i), ctx, locale);
      if piece.Token? && IsMissing(piece.key, ctx, locale) { unresolved := Add(unresolved, piece.key); }
      text := text + Shown(piece, ctx, locale);
      i := Next(t, i);
    }
  }

  // ----- Non-interference -----

  /** A text without "{{" renders to itself in every context and every language. */
  lemma NothingToRender(t: string, ctx: Context, locale: Lang)
    requires !Opens(t)
    ensures RenderedText(t, ctx, locale) == t
    ensures Unresolved(t, ctx, locale) == []
  {
    hide MatchAt;
    NothingOpens(t, 0);
    ScanKeepsText(t, 0);
    PlainRenders(Scan(t, 0), ctx, locale);
  }

  lemma {:induction false} PlainRenders(pieces: seq<Piece>, ctx: Context, locale: Lang)
    requires forall k :: 0 <= k < |pieces| ==> pieces[k].Plain?
    ensures Rendered(pieces, ctx, locale) == Written(pieces)
    ensures Missing(pieces, ctx, locale) == []
  {
    if pieces != [] { PlainRenders(pieces[1..], ctx, locale); }
  }

  /** Two contexts that resolve every variable of the text alike render it alike. */
  lemma {:induction false} SameOnKeys(pieces: seq<Piece>, a: Context, b: Context, la: Lang, lb: Lang)
    requires forall k :: k in Keys(pieces) && IsKnown(k) ==>
               ResolveVariable(VariableOf(k).value, a, la) == ResolveVariable(VariableOf(k).value, b, lb)
    ensures Rendered(pieces, a, la) == Rendered(pieces, b, lb)
    ensures Missing(pieces, a, la) == Missing(pieces, b, lb)
  {
    hide ResolveVariable, VariableOf;
    if pieces != [] {
      assert pieces[0].Token? ==> pieces[0].key in Keys(pieces);
      assert forall k :: k in Keys(pieces[1..]) ==> k in Keys(pieces);
      SameOnKeys(pieces[1..], a, b, la, lb);
    }
  }

  /** A text that names no case variable does not depend on the case. */
  lemma CaseDoesNotMatter(t: string, user: Option<User>, a: CaseContext, b: CaseContext, locale: Lang)
    requires !UsesCaseScopedVariables(t)
    ensures RenderedText(t, Context(user, a), locale) == RenderedText(t, Context(user, b), locale)
    ensures Unresolved(t, Context(user, a), locale) == Unresolved(t, Context(user, b), locale)
  {
    hide VariableOf, Scan;
    assert forall k :: k in Keys(Scan(t, 0)) ==> k in Variables(t);
    SameOnKeys(Scan(t, 0), Context(user, a), Context(user, b), locale, locale);
  }

  /** The language only matters to the word for the utility. */
  lemma LanguageOnlyNamesTheUtility(t: string, ctx: Context)
    requires "utility_type" !in Variables(t)
    ensures RenderedText(t, ctx, It) == RenderedText(t, ctx, En)
    ensures Unresolved(t, ctx, It) == Unresolved(t, ctx, En)
  {
    hide Scan;
    assert forall k :: k in Keys(Scan(t, 0)) ==> k in Variables(t);
    assert forall k :: IsKnown(k) && VariableOf(k).value == UtilityType ==> k == "utility_type";
    SameOnKeys(Scan(t, 0), ctx, ctx, It, En);
  }

  /** What stops a send: exactly the unknown tokens, and the case tokens that come out empty. */
  lemma {:induction false} MissingIs(pieces: seq<Piece>, ctx: Context, locale: Lang, k: string)
    ensures k in Missing(pieces, ctx, locale) <==> k in Keys(pieces) && IsMissing(k, ctx, locale)
  {
    hide IsMissing;
    if pieces != [] { MissingIs(pieces[1..], ctx, locale, k); }
  }

  lemma UnresolvedIs(t: string, ctx: Context, locale: Lang, k: string)
    ensures k in Unresolved(t, ctx, locale) <==> k in Variables(t) && IsMissing(k, ctx, locale)
    ensures Distinct(Unresolved(t, ctx, locale))
  {
    hide IsMissing, Scan;
    MissingIs(Scan(t, 0), ctx, locale, k);
    AddAllDistinct([], Missing(Scan(t, 0), ctx, locale));
  }

  /** A template the authoring check lets through is only ever refused for want of a case. */
  lemma CheckedTemplateOnlyWantsACase(t: string, ctx: Context, locale: Lang, k: string)
    requires AllKnown(t)
    requires k in Unresolved(t, ctx, locale)
    ensures IsCaseScoped(k)
    ensures UsesCaseScopedVariables(t)
  {
    UnresolvedIs(t, ctx, locale, k);
  }
}
