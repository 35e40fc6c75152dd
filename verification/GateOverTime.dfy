/** The consent gate against the pages: who is asked again, and who is not, over runs of publishing and accepting. */
module GateOverTime {
  import opened Wrappers
  import opened Sorting
  import opened Versions
  import opened LegalPages
  import opened DocumentVersions
  import opened ConsentGate

  /** In a coherent document the version asked of an account is the version in force. */
  lemma AskedVersionIsCurrent(p: Pages, role: Role, slug: string)
    requires Valid(p) && CoherentAt(p, slug) && BindsSlug(p, role, slug)
    ensures Compare(CurrentFor(p, role, slug), Current(p, slug)) == 0
  {
    hide Compare, MaxVersion, Current, BindingBelow, Filter;
    var own := Filter(Binding(p, role), OfSlug(slug));
    var page :| page in Binding(p, role) && page.slug == slug;
    assert page in own;
    var k :| 0 <= k < |own| && own[k] == page;
    forall q | q in own ensures q.version != "" && Compare(q.version, Current(p, slug)) == 0 {
      BindingHas(p.rows, p.nextId, role, q);
      var id :| id in p.rows && id < p.nextId && p.rows[id] == q;
      CoherentRowIsCurrent(p, slug, id);
    }
    assert VersionsOf(own)[k] in VersionsOf(own);
    MaxVersionIsNewest(VersionsOf(own), page.version);
    var j :| 0 <= j < |own| && VersionsOf(own)[j] == CurrentFor(p, role, slug);
    assert own[j] in own;
  }

  // ----- Runs of both services -----

  datatype State = State(pages: Pages, ledger: seq<Acceptance>)

  datatype Step =
    | Edit(call: Call)
    | Accept(user: UserId, role: Role, items: seq<Item>)

  datatype Moment = Moment(step: Step, now: int)

  function Take(s: State, step: Step, now: int): State {
    match step
    case Edit(call) => s.(pages := Perform(s.pages, call, now))
    case Accept(u, role, items) =>
      if Unknown(s.pages, role, items) == [] && Stale(s.pages, role, items) == []
      then s.(ledger := Recorded(s.ledger, u, items, now)) else s
  }

  /** Nobody has accepted a version of the document that is not yet in force. */
  predicate NoneAhead(s: State, slug: string) {
    forall a :: a in s.ledger && a.slug == slug ==> Compare(a.version, Current(s.pages, slug)) <= 0
  }

  /** The document of `slug` is one document, in force, and nobody is ahead of it. */
  ghost predicate InForce(s: State, slug: string) {
    Valid(s.pages) && CoherentAt(s.pages, slug) && HasRows(s.pages, slug) && NoneAhead(s, slug)
  }

  predicate SteadyStep(s: State, step: Step, now: int, slug: string) {
    step.Edit? ==> Steady(s.pages, step.call, now, slug) && HasRows(Perform(s.pages, step.call, now), slug)
  }

  lemma StepKeepsInForce(s: State, step: Step, now: int, slug: string)
    requires InForce(s, slug) && SteadyStep(s, step, now, slug)
    ensures InForce(Take(s, step, now), slug)
    ensures Compare(Current(s.pages, slug), Current(Take(s, step, now).pages, slug)) <= 0
    ensures s.ledger <= Take(s, step, now).ledger
  {
    hide Compare, Current, CoherentAt, HasRows, Steady, Perform;
    match step {
      case Edit(call) =>
        SteadyCallsKeepTheDocument(s.pages, call, now, slug);
        var next := Take(s, step, now);
        forall a | a in s.ledger && a.slug == slug ensures Compare(a.version, Current(next.pages, slug)) <= 0 {
          CompareChains(a.version, Current(s.pages, slug), Current(next.pages, slug));
        }
      case Accept(u, role, items) =>
        CompareSelf(Current(s.pages, slug));
        AcceptKeepsNoneAhead(s, u, role, items, now, slug);
    }
  }

  lemma AcceptKeepsNoneAhead(s: State, u: UserId, role: Role, items: seq<Item>, now: int, slug: string)
    requires InForce(s, slug)
    ensures
      var next := Take(s, Accept(u, role, items), now);
      s.ledger <= next.ledger && NoneAhead(next, slug) && next.pages == s.pages
  {
    hide Compare, Current, CoherentAt, HasRows, Recorded, BindsSlug, CurrentFor, Valid;
    RecordingOnlyAppends(s.ledger, u, items, now);
    AcceptableIff(s.pages, role, items);
    if Unknown(s.pages, role, items) == [] && Stale(s.pages, role, items) == [] {
      forall i | i in items && i.slug == slug ensures Compare(RowFor(u, i, now).version, Current(s.pages, slug)) <= 0 {
        assert IsCurrent(s.pages, role, i);
        AskedVersionIsCurrent(s.pages, role, slug);
        SameChains(i.version, CurrentFor(s.pages, role, slug), Current(s.pages, slug));
      }
    }
  }

  function After(s: State, run: seq<Moment>): State {
    if run == [] then s else Take(After(s, run[..|run| - 1]), run[|run| - 1].step, run[|run| - 1].now)
  }

  predicate SteadyMoments(s: State, run: seq<Moment>, slug: string) {
    run == [] ||
    (SteadyMoments(s, run[..|run| - 1], slug)
     && SteadyStep(After(s, run[..|run| - 1]), run[|run| - 1].step, run[|run| - 1].now, slug))
  }

  lemma {:induction false} RunKeepsInForce(s: State, run: seq<Moment>, slug: string)
    requires InForce(s, slug) && SteadyMoments(s, run, slug)
    ensures InForce(After(s, run), slug)
    ensures Compare(Current(s.pages, slug), Current(After(s, run).pages, slug)) <= 0
    ensures s.ledger <= After(s, run).ledger
  {
    hide Compare, Current, InForce, SteadyStep, Take;
    if run == [] {
      CompareSelf(Current(s.pages, slug));
    } else {
      var front, last := run[..|run| - 1], run[|run| - 1];
      var before := After(s, front);
      RunKeepsInForce(s, front, slug);
      StepKeepsInForce(before, last.step, last.now, slug);
      CompareChains(Current(s.pages, slug), Current(before.pages, slug), Current(After(s, run).pages, slug));
    }
  }

  /**
   * Over any steady run, a user who had accepted the version in force is asked
   * for the document again exactly when a strictly newer version has come into
   * force and they have not accepted that one.
   */
  lemma AskedAgainOnlyForANewerVersion(s: State, run: seq<Moment>, u: UserId, role: Role, slug: string)
    requires InForce(s, slug) && SteadyMoments(s, run, slug)
    requires HasAccepted(s.ledger, u, slug, Current(s.pages, slug))
    requires BindsSlug(After(s, run).pages, role, slug)
    ensures
      var t := After(s, run);
      IsPending(t.pages, t.ledger, u, role, slug) <==>
      Compare(Current(s.pages, slug), Current(t.pages, slug)) < 0
      && !HasAccepted(t.ledger, u, slug, Current(t.pages, slug))
  {
    hide Compare, Current, BindsSlug, CurrentFor, SteadyMoments, After, HasAccepted;
    RunKeepsInForce(s, run, slug);
    var t := After(s, run);
    AskedVersionIsCurrent(t.pages, role, slug);
    SameVersionSameAnswer(t.ledger, u, slug, CurrentFor(t.pages, role, slug), Current(t.pages, slug));
    CompareFlips(Current(s.pages, slug), Current(t.pages, slug));
    if Compare(Current(s.pages, slug), Current(t.pages, slug)) == 0 {
      AcceptedUntilNewer(s.ledger, t.ledger, u, slug, Current(s.pages, slug), Current(t.pages, slug));
    }
  }

  lemma SameVersionSameAnswer(ledger: seq<Acceptance>, u: UserId, slug: string, a: string, b: string)
    requires Compare(a, b) == 0
    ensures HasAccepted(ledger, u, slug, a) <==> HasAccepted(ledger, u, slug, b)
  {
    hide HasAccepted, Compare;
    CompareFlips(a, b);
    if HasAccepted(ledger, u, slug, a) { AcceptedUntilNewer(ledger, ledger, u, slug, a, b); }
    if HasAccepted(ledger, u, slug, b) { AcceptedUntilNewer(ledger, ledger, u, slug, b, a); }
  }

  /** Publishing a strictly newer version asks every account it binds, whoever had accepted what. */
  lemma PublishingAsksEveryone(s: State, id: PageId, dto: UpdateDto, now: int, u: UserId, role: Role, slug: string)
    requires InForce(s, slug) && SteadyStep(s, Edit(Update(id, dto)), now, slug)
    requires UpdateAllowed(s.pages, id, dto) && s.pages.rows[id].slug == slug && Publishes(s.pages, id, dto, now)
    requires BindsSlug(AfterUpdate(s.pages, id, dto, now).0, role, slug)
    ensures IsPending(AfterUpdate(s.pages, id, dto, now).0, s.ledger, u, role, slug)
  {
    var q := AfterUpdate(s.pages, id, dto, now).0;
    var saved := Assigned(s.pages, id, dto, now);
    assert Compare(s.pages.rows[id].version, saved.version) < 0 by {
      CompareFlips(s.pages.rows[id].version, saved.version);
    }
    assert saved.slug == slug;
    hide Compare, Publishes, Assigned, Current, BindsSlug, CurrentFor, AfterUpdate;
    StepKeepsInForce(s, Edit(Update(id, dto)), now, slug);
    RowsAfterUpdate(s.pages, id, dto, now, slug, id);
    CoherentRowIsCurrent(s.pages, slug, id);
    CoherentRowIsCurrent(q, slug, id);
    CompareChains(Current(s.pages, slug), s.pages.rows[id].version, saved.version);
    CompareFlips(saved.version, Current(q, slug));
    CompareChains(Current(s.pages, slug), saved.version, Current(q, slug));
    NobodyIsThereYet(s, q, u, role, slug);
  }

  lemma NobodyIsThereYet(s: State, q: Pages, u: UserId, role: Role, slug: string)
    requires NoneAhead(s, slug) && Valid(q) && CoherentAt(q, slug) && BindsSlug(q, role, slug)
    requires Compare(Current(s.pages, slug), Current(q, slug)) < 0
    ensures IsPending(q, s.ledger, u, role, slug)
  {
    hide Compare, Current, BindsSlug, CurrentFor, Valid, CoherentAt;
    AskedVersionIsCurrent(q, role, slug);
    SameVersionSameAnswer(s.ledger, u, slug, CurrentFor(q, role, slug), Current(q, slug));
    forall a | a in s.ledger && a.slug == slug ensures Compare(a.version, Current(q, slug)) < 0 {
      CompareChains(a.version, Current(s.pages, slug), Current(q, slug));
    }
  }
}
