/**
 * What the reader of a rendered text sees: which column of the account or of the
 * case stands where a variable was written, and that the text around it stays.
 * src/modules/notifications/notification-variables.ts, resolveVariable and
 * renderTemplateText.
 */
module VariableValues {
  import opened Wrappers
  import opened Text
  import opened Placeholders
  import opened InsertionOrder

  // ----- A variable in the middle of a text -----

  /** From `n` on `s` reads `t`. */
  predicate Ends(s: string, n: nat, t: string) {
    |s| == n + |t| && forall j: nat :: j < |t| ==> s[n + j] == t[j]
  }

  lemma {:induction false} SpanBehind(s: string, n: nat, t: string, i: nat, k: Class)
    requires Ends(s, n, t) && i <= |t|
    ensures Span(s, n + i, k) == n + Span(t, i, k)
    decreases |t| - i
  {
    if i < |t| { SpanBehind(s, n, t, i + 1, k); }
  }

  lemma {:induction false} WordEndBehind(s: string, n: nat, t: string, i: nat)
    requires Ends(s, n, t) && i <= |t|
    ensures WordEnd(s, n + i) == n + WordEnd(t, i)
    decreases |t| - i
  {
    if i < |t| { WordEndBehind(s, n, t, i + 1); }
  }

  lemma DoubledBehind(s: string, n: nat, t: string, i: nat, c: char)
    requires Ends(s, n, t)
    ensures Doubled(s, n + i, c) == Doubled(t, i, c)
  {
    if i + 1 < |t| { assert s[n + i] == t[i] && s[n + (i + 1)] == t[i + 1]; }
  }

  lemma SliceBehind(s: string, n: nat, t: string, i: nat, j: nat)
    requires Ends(s, n, t) && i <= j <= |t|
    ensures s[n + i..n + j] == t[i..j]
  {
    forall k | 0 <= k < j - i ensures s[n + i..n + j][k] == t[i..j][k] {
      assert s[n + (i + k)] == t[i + k];
    }
  }

  lemma MatchStep(t: string, i: nat)
    requires i <= |t|
    ensures MatchAt(t, i) ==
      if !Doubled(t, i, '{') then None
      else
        var p := Span(t, i + 2, Space);
        if !(p < |t| && IsWordStart(t[p])) then None
        else
          var q := WordEnd(t, p);
          var r := Span(t, q, Space);
          if Doubled(t, r, '}') then Some(Match(t[p..q], r + 2)) else None
    ensures Doubled(t, i, '{') ==> i + 2 <= |t|
  {
    hide Span, WordEnd, IsWordStart, Class.Has;
  }

  lemma EndsAt(s: string, n: nat, t: string, i: nat)
    requires Ends(s, n, t)
    ensures |s| == n + |t| && (i < |t| ==> s[n + i] == t[i])
  {
  }

  lemma MatchBehind(s: string, n: nat, t: string, i: nat)
    requires Ends(s, n, t) && i <= |t|
    ensures MatchAt(t, i).None? ==> MatchAt(s, n + i).None?
    ensures MatchAt(t, i).Some? ==>
      MatchAt(s, n + i) == Some(Match(MatchAt(t, i).value.key, n + MatchAt(t, i).value.end))
  {
    hide *;
    EndsAt(s, n, t, i);
    MatchStep(t, i);
    MatchStep(s, n + i);
    DoubledBehind(s, n, t, i, '{');
    if Doubled(t, i, '{') {
      SpanBehind(s, n, t, i + 2, Space);
      var p := Span(t, i + 2, Space);
      EndsAt(s, n, t, p);
      if p < |t| {
        WordEndBehind(s, n, t, p);
        var q := WordEnd(t, p);
        SpanBehind(s, n, t, q, Space);
        DoubledBehind(s, n, t, Span(t, q, Space), '}');
        SliceBehind(s, n, t, p, q);
      }
    }
  }

  lemma ScanStep(t: string, i: nat)
    requires i < |t|
    ensures var m := MatchAt(t, i);
      && (m.Some? ==> i < m.value.end <= |t|)
      && Scan(t, i) ==
           if m.Some? then [Token(t[i..m.value.end], m.value.key)] + Scan(t, m.value.end)
           else [Plain(t[i])] + Scan(t, i + 1)
  {
    hide Class.Has, IsWordChar, IsWordStart;
  }

  lemma ScanEnds(t: string)
    ensures Scan(t, |t|) == []
  {
  }

  lemma {:induction false} ScanBehind(s: string, n: nat, t: string, i: nat)
    requires Ends(s, n, t) && i <= |t|
    ensures Scan(s, n + i) == Scan(t, i)
    decreases |t| - i
  {
    hide *;
    EndsAt(s, n, t, i);
    if i == |t| {
      ScanEnds(s);
      ScanEnds(t);
    } else {
      ScanStep(s, n + i);
      ScanStep(t, i);
      MatchBehind(s, n, t, i);
      var m := MatchAt(t, i);
      if m.Some? {
        SliceBehind(s, n, t, i, m.value.end);
        ScanBehind(s, n, t, m.value.end);
      } else {
        ScanBehind(s, n, t, i + 1);
      }
    }
  }

  lemma RenderedFirst(piece: Piece, rest: seq<Piece>, ctx: Context, locale: Lang)
    ensures Rendered([piece] + rest, ctx, locale) == Shown(piece, ctx, locale) + Rendered(rest, ctx, locale)
  {
    assert ([piece] + rest)[1..] == rest;
  }

  lemma PlainStep(s: string, i: nat, ctx: Context, locale: Lang)
    requires i < |s| && s[i] != '{'
    ensures Rendered(Scan(s, i), ctx, locale) == [s[i]] + Rendered(Scan(s, i + 1), ctx, locale)
  {
    assert MatchAt(s, i).None?;
    hide MatchAt, Rendered;
    assert Scan(s, i) == [Plain(s[i])] + Scan(s, i + 1);
    RenderedFirst(Plain(s[i]), Scan(s, i + 1), ctx, locale);
  }

  lemma Regroup(s: string, i: nat, n: nat, rest: string)
    requires i < n <= |s|
    ensures [s[i]] + (s[i + 1..n] + rest) == s[i..n] + rest
  {
  }

  /** Characters in front of the first brace stand as they are. */
  lemma {:induction false} PlainUpTo(s: string, i: nat, n: nat, ctx: Context, locale: Lang)
    requires i <= n <= |s| && forall j :: i <= j < n ==> s[j] != '{'
    ensures Rendered(Scan(s, i), ctx, locale) == s[i..n] + Rendered(Scan(s, n), ctx, locale)
    decreases n - i
  {
    var rest := Rendered(Scan(s, n), ctx, locale);
    if i == n {
      assert s[i..n] + rest == rest;
    } else {
      PlainStep(s, i, ctx, locale);
      PlainUpTo(s, i + 1, n, ctx, locale);
      hide *;
      Regroup(s, i, n, rest);
    }
  }

  lemma TokenStep(s: string, i: nat, end: nat, key: string, ctx: Context, locale: Lang)
    requires i < |s| && MatchAt(s, i) == Some(Match(key, end))
    ensures Rendered(Scan(s, i), ctx, locale)
         == Replacement(s[i..end], key, ctx, locale) + Rendered(Scan(s, end), ctx, locale)
  {
    hide MatchAt, Rendered;
    assert Scan(s, i) == [Token(s[i..end], key)] + Scan(s, end);
    RenderedFirst(Token(s[i..end], key), Scan(s, end), ctx, locale);
  }

  /** `s` is `a`, the token and `t`. */
  ghost predicate Parts(s: string, a: string, token: string, t: string) {
    && |s| == |a| + |token| + |t| && s[0..|a|] == a && s[|a|..|a| + |token|] == token
    && Ends(s, |a| + |token|, t)
  }

  lemma Joined(a: string, token: string, t: string)
    ensures Parts(a + token + t, a, token, t)
  {
  }

  lemma FrontIsPlain(s: string, a: string)
    requires |a| <= |s| && s[0..|a|] == a && '{' !in a
    ensures forall j :: 0 <= j < |a| ==> s[j] != '{'
  {
    forall j | 0 <= j < |a| ensures s[j] != '{' {
      assert a[j] in a;
    }
  }

  lemma RenderedIs(t: string, ctx: Context, locale: Lang)
    ensures RenderedText(t, ctx, locale) == Rendered(Scan(t, 0), ctx, locale)
  {
  }

  lemma RenderedParts(s: string, a: string, token: string, t: string, key: string, ctx: Context, locale: Lang)
    requires Parts(s, a, token, t) && '{' !in a && token != ""
    requires MatchAt(s, |a|) == Some(Match(key, |a| + |token|))
    ensures RenderedText(s, ctx, locale) == a + Replacement(token, key, ctx, locale) + RenderedText(t, ctx, locale)
  {
    hide *;
    var n := |a| + |token|;
    PartsAre(s, a, token, t);
    FrontIsPlain(s, a);
    RenderedIs(s, ctx, locale);
    RenderedIs(t, ctx, locale);
    PlainUpTo(s, 0, |a|, ctx, locale);
    TokenStep(s, |a|, n, key, ctx, locale);
    ScanBehind(s, n, t, 0);
    Associate(a, Replacement(token, key, ctx, locale), RenderedText(t, ctx, locale));
  }

  lemma TokenLength(l: string, key: string, r: string)
    ensures |Spelled(l, key, r)| >= 4
  {
  }

  lemma PartsAre(s: string, a: string, token: string, t: string)
    requires Parts(s, a, token, t)
    ensures |s| == |a| + |token| + |t| && s[0..|a|] == a && s[|a|..|a| + |token|] == token
    ensures Ends(s, |a| + |token|, t)
  {
  }

  /** A variable is replaced where it stands, blanks in its braces or not, and nothing else moves. */
  lemma VariableIsReplaced(a: string, l: string, key: string, r: string, t: string, ctx: Context, locale: Lang)
    requires '{' !in a && IsWord(key) && Space.Covers(l) && Space.Covers(r)
    ensures RenderedText(a + Spelled(l, key, r) + t, ctx, locale)
         == a + Replacement(Spelled(l, key, r), key, ctx, locale) + RenderedText(t, ctx, locale)
  {
    hide *;
    var token := Spelled(l, key, r);
    var s := a + token + t;
    TokenLength(l, key, r);
    Joined(a, token, t);
    PartsAre(s, a, token, t);
    PlaceholderMatches(s, |a|, l, key, r);
    RenderedParts(s, a, token, t, key, ctx, locale);
  }

  lemma Associate(a: string, b: string, c: string)
    ensures a + (b + c) == a + b + c
  {
  }

  // ----- What each variable reads -----

  /** The value a variable is replaced by in every text. */
  function ValueOf(key: string, ctx: Context, locale: Lang): string {
    RenderedText(Spelled("", key, ""), ctx, locale)
  }

  lemma LoneValue(key: string, ctx: Context, locale: Lang)
    requires IsWord(key)
    ensures ValueOf(key, ctx, locale) == Replacement(Spelled("", key, ""), key, ctx, locale)
  {
    var token := Spelled("", key, "");
    assert ValueOf(key, ctx, locale) == RenderedText(token, ctx, locale);
    assert Space.Covers("") && '{' !in "";
    hide *;
    VariableIsReplaced("", "", key, "", "", ctx, locale);
    NothingRendered(ctx, locale);
    Alone(token);
    Alone(Replacement(token, key, ctx, locale));
  }

  lemma Alone(s: string)
    ensures "" + s + "" == s
  {
  }

  lemma NothingRendered(ctx: Context, locale: Lang)
    ensures RenderedText("", ctx, locale) == ""
  {
  }

  lemma TrimIsBare(s: string)
    ensures Bare(Trim(s), Space)
  {
    var l := TrimLeft(s, Space);
    var t := TrimRight(l, Space);
    if t != "" { assert t[0] == l[0]; }
  }

  lemma Words()
    ensures IsWord("provider") && IsWord("offer_name") && IsWord("utility_type") && IsWord("email")
    ensures IsWord("lastName") && IsWord("surname") && IsWord("name") && IsWord("firstName")
  {
    OnlyLetters("provider");
    OnlyLetters("offer_name");
    OnlyLetters("utility_type");
    OnlyLetters("email");
    OnlyLetters("lastName");
    OnlyLetters("surname");
    OnlyLetters("name");
    OnlyLetters("firstName");
  }

  lemma OnlyLetters(key: string)
    ensures key != "" && (forall i :: 0 <= i < |key| ==> IsLetter(key[i]) || key[i] == '_') ==> IsWord(key)
  {
  }

  lemma KnownCaseKeys()
    ensures VariableOf("provider") == Some(Provider)
    ensures VariableOf("offer_name") == Some(OfferName)
    ensures VariableOf("utility_type") == Some(UtilityType)
  {
    assert "provider"[0] == 'p';
    assert |"offer_name"| == 10 && |"utility_type"| == 12;
  }

  /** The case variables: the supplier's name, the offer's name and the word for the utility. */
  lemma CaseValues(ctx: Context, locale: Lang)
    ensures ctx.about.provider.Some? ==> ValueOf("provider", ctx, locale) == Trim(ctx.about.provider.value)
    ensures ctx.about.offerName.Some? ==> ValueOf("offer_name", ctx, locale) == Trim(ctx.about.offerName.value)
    ensures ctx.about.provider.None? ==> ValueOf("provider", ctx, locale) == ""
    ensures ctx.about.offerName.None? ==> ValueOf("offer_name", ctx, locale) == ""
    ensures ctx.about.utilityType.None? ==> ValueOf("utility_type", ctx, locale) == ""
    ensures ctx.about.utilityType == Some(Gas) ==> ValueOf("utility_type", ctx, locale) == "Gas"
    ensures ctx.about.utilityType == Some(Electricity) ==>
      ValueOf("utility_type", ctx, It) == "Luce" && ValueOf("utility_type", ctx, En) == "Electricity"
  {
    Words();
    KnownCaseKeys();
    hide ValueOf, VariableOf, IsWord, Spelled, Trim;
    LoneValue("provider", ctx, locale);
    LoneValue("offer_name", ctx, locale);
    LoneValue("utility_type", ctx, locale);
    LoneValue("utility_type", ctx, It);
    LoneValue("utility_type", ctx, En);
  }

  lemma KnownUserKeys()
    ensures VariableOf("name") == Some(Name) && VariableOf("firstName") == Some(FirstName)
    ensures VariableOf("lastName") == Some(LastName) && VariableOf("surname") == Some(Surname)
    ensures VariableOf("email") == Some(Email)
  {
    assert |"name"| == 4 && |"firstName"| == 9 && |"lastName"| == 8 && |"surname"| == 7 && |"email"| == 5;
  }

  lemma FullName(f: string, l: string)
    requires Bare(f, Space) && Bare(l, Space)
    ensures Trim(f + " " + l) ==
      if f != "" && l != "" then f + " " + l else if f != "" then f else l
  {
    if f != "" && l != "" {
      var s := f + " " + l;
      assert s[0] == f[0] && s[|s| - 1] == l[|l| - 1];
      TrimBare(s);
    } else if f != "" {
      assert f + " " + l == f + " ";
      TrimLeftBare(f, " ", Space);
      TrimRightPad(f, " ", Space);
      TrimBare(f);
    } else {
      assert f + " " + l == " " + l;
      TrimLeftPad(" ", l, Space);
      TrimBare(l);
    }
  }

  /**
   * The account variables: a name falls back to the other name and then to the address,
   * a family name falls back to nothing.
   */
  lemma AccountValues(user: User, about: CaseContext, locale: Lang)
    ensures
      var ctx := Context(Some(user), about);
      var f := if user.firstName.Some? then Trim(user.firstName.value) else "";
      var l := if user.lastName.Some? then Trim(user.lastName.value) else "";
      && ValueOf("name", ctx, locale) ==
           (if f != "" && l != "" then f + " " + l else if f != "" then f else if l != "" then l else user.email)
      && ValueOf("firstName", ctx, locale) == (if f != "" then f else if l != "" then l else user.email)
      && ValueOf("lastName", ctx, locale) == l && ValueOf("surname", ctx, locale) == l
      && ValueOf("email", ctx, locale) == user.email
  {
    var ctx := Context(Some(user), about);
    var f, l := Trimmed(user.firstName), Trimmed(user.lastName);
    Words();
    KnownUserKeys();
    if user.firstName.Some? { TrimIsBare(user.firstName.value); }
    if user.lastName.Some? { TrimIsBare(user.lastName.value); }
    FullName(f, l);
    hide ValueOf, VariableOf, IsWord, Spelled, Trim;
    LoneValue("name", ctx, locale);
    LoneValue("firstName", ctx, locale);
    LoneValue("lastName", ctx, locale);
    LoneValue("surname", ctx, locale);
    LoneValue("email", ctx, locale);
  }

  /** What a send is refused for: a lone case variable without a value, and no account variable ever. */
  lemma LoneUnresolved(key: string, ctx: Context, locale: Lang)
    requires IsWord(key)
    ensures Unresolved(Spelled("", key, ""), ctx, locale) != [] <==>
      VariableOf(key).None? ||
      (VariableOf(key).value in {Provider, OfferName, UtilityType} && ValueOf(key, ctx, locale) == "")
  {
    var t := Spelled("", key, "");
    LoneToken(key);
    LoneValue(key, ctx, locale);
    UnresolvedIs(t, ctx, locale, key);
    hide IsWord, ValueOf, Variables, VariableOf, Spelled;
    var missing := Unresolved(t, ctx, locale);
    if missing != [] {
      UnresolvedIs(t, ctx, locale, missing[0]);
      assert missing[0] in missing;
    }
    hide Unresolved;
  }

  /** A token that names no variable is left in the text as it was written. */
  lemma UnknownStays(a: string, l: string, key: string, r: string, t: string, ctx: Context, locale: Lang)
    requires '{' !in a && IsWord(key) && Space.Covers(l) && Space.Covers(r) && VariableOf(key).None?
    ensures RenderedText(a + Spelled(l, key, r) + t, ctx, locale) == a + Spelled(l, key, r) + RenderedText(t, ctx, locale)
  {
    VariableIsReplaced(a, l, key, r, t, ctx, locale);
    hide RenderedText, Spelled, VariableOf, IsWord;
  }

  // ----- What each column is read by -----

  /** The columns a text can show. */
  datatype Source = FirstNameColumn | LastNameColumn | EmailColumn | SupplierColumn | OfferColumn | CaseColumn

  function WithColumn(user: User, about: CaseContext, source: Source, value: string): Context {
    match source
    case FirstNameColumn => Context(Some(user.(firstName := Some(value))), about)
    case LastNameColumn => Context(Some(user.(lastName := Some(value))), about)
    case EmailColumn => Context(Some(user.(email := value)), about)
    case SupplierColumn => Context(Some(user), about.(provider := Some(value)))
    case OfferColumn => Context(Some(user), about.(offerName := Some(value)))
    case CaseColumn => Context(Some(user), about.(caseId := Some(|value|)))
  }

  /** The variables that may show it. */
  function Readers(source: Source): set<string> {
    match source
    case FirstNameColumn => {"name", "firstName"}
    case LastNameColumn => {"name", "firstName", "lastName", "surname"}
    case EmailColumn => {"name", "firstName", "email"}
    case SupplierColumn => {"provider"}
    case OfferColumn => {"offer_name"}
    case CaseColumn => {}
  }

  lemma VariablesRead(source: Source, key: string)
    requires IsKnown(key) && key !in Readers(source)
    ensures
      var v := VariableOf(key).value;
      match source
      case FirstNameColumn => v != Name && v != FirstName
      case LastNameColumn => v == Email || v.CaseScoped()
      case EmailColumn => v == LastName || v == Surname || v.CaseScoped()
      case SupplierColumn => v != Provider
      case OfferColumn => v != OfferName
      case CaseColumn => true
  {
  }

  /** A variable is the same in two contexts that agree on the columns it reads. */
  lemma ResolveAgrees(v: Variable, a: Context, b: Context, locale: Lang)
    requires a.user.Some? && b.user.Some?
    requires v == Name || v == FirstName ==> a.user == b.user
    requires v == LastName || v == Surname ==> a.user.value.lastName == b.user.value.lastName
    requires v == Email ==> a.user.value.email == b.user.value.email
    requires v == Provider ==> a.about.provider == b.about.provider
    requires v == OfferName ==> a.about.offerName == b.about.offerName
    requires v == UtilityType ==> a.about.utilityType == b.about.utilityType
    ensures ResolveVariable(v, a, locale) == ResolveVariable(v, b, locale)
  {
    hide Trim;
  }

  lemma ColumnIsNotRead(user: User, about: CaseContext, source: Source, value: string, other: string, key: string,
      locale: Lang)
    requires IsKnown(key) && key !in Readers(source)
    ensures ResolveVariable(VariableOf(key).value, WithColumn(user, about, source, value), locale)
         == ResolveVariable(VariableOf(key).value, WithColumn(user, about, source, other), locale)
  {
    VariablesRead(source, key);
    hide VariableOf, ResolveVariable, Readers;
    var v := VariableOf(key).value;
    ResolveAgrees(v, WithColumn(user, about, source, value), WithColumn(user, about, source, other), locale);
  }

  /** A text that names none of a column's variables shows nothing of it, and is not refused for it either. */
  lemma ColumnIsReadByItsVariables(t: string, user: User, about: CaseContext, source: Source, value: string,
      other: string, locale: Lang)
    requires forall k :: k in Variables(t) ==> k !in Readers(source)
    ensures RenderedText(t, WithColumn(user, about, source, value), locale)
         == RenderedText(t, WithColumn(user, about, source, other), locale)
    ensures Unresolved(t, WithColumn(user, about, source, value), locale)
         == Unresolved(t, WithColumn(user, about, source, other), locale)
  {
    hide Scan, VariableOf, ResolveVariable, WithColumn, Readers;
    assert forall k :: k in Keys(Scan(t, 0)) ==> k in Variables(t);
    forall k | k in Keys(Scan(t, 0)) && IsKnown(k)
      ensures ResolveVariable(VariableOf(k).value, WithColumn(user, about, source, value), locale)
           == ResolveVariable(VariableOf(k).value, WithColumn(user, about, source, other), locale)
    {
      ColumnIsNotRead(user, about, source, value, other, k, locale);
    }
    SameOnKeys(Scan(t, 0), WithColumn(user, about, source, value), WithColumn(user, about, source, other), locale, locale);
  }
}
