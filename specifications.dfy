/** Event specifications: composable tests on an event, the `&`, `|` and `~`
    combinators, and their application to a list of events. */
module Specifications {
  import opened Common
  import opened Models

  datatype Spec =
    | And(left: Spec, right: Spec)
    | Or(left: Spec, right: Spec)
    | Not(inner: Spec)
    | ByStatus(status: string)
    | ByTitle(query: string)
    | ByLocation(query: string)

  /** `query.lower() in field.lower()` */
  predicate MatchesText(query: string, field: string)
  {
    Contains(Lower(field), Lower(query))
  }

  /** is_satisfied_by of each specification class. */
  predicate Satisfied(s: Spec, e: Event)
  {
    match s
    case And(l, r) => Satisfied(l, e) && Satisfied(r, e)
    case Or(l, r) => Satisfied(l, e) || Satisfied(r, e)
    case Not(inner) => !Satisfied(inner, e)
    case ByStatus(status) => e.status == status
    case ByTitle(query) => MatchesText(query, e.title)
    case ByLocation(query) => MatchesText(query, e.location)
  }

  /** The operators `a & b`, `a | b`, `~a`. */
  function Conjoin(a: Spec, b: Spec): (r: Spec)
    ensures forall e :: Satisfied(r, e) <==> Satisfied(a, e) && Satisfied(b, e)
  {
    And(a, b)
  }

  function Disjoin(a: Spec, b: Spec): (r: Spec)
    ensures forall e :: Satisfied(r, e) <==> Satisfied(a, e) || Satisfied(b, e)
  {
    Or(a, b)
  }

  function Negate(a: Spec): (r: Spec)
    ensures forall e :: Satisfied(r, e) <==> !Satisfied(a, e)
  {
    Not(a)
  }

  /** `~~s` is equivalent to `s`, and De Morgan's laws hold. */
  lemma DoubleNegation(s: Spec, e: Event)
    ensures Satisfied(Negate(Negate(s)), e) <==> Satisfied(s, e)
  {
  }

  lemma DeMorgan(a: Spec, b: Spec, e: Event)
    ensures Satisfied(Negate(Conjoin(a, b)), e) <==> Satisfied(Disjoin(Negate(a), Negate(b)), e)
    ensures Satisfied(Negate(Disjoin(a, b)), e) <==> Satisfied(Conjoin(Negate(a), Negate(b)), e)
  {
  }

  /** The status specification is string equality. */
  lemma StatusSpec(status: string, e: Event)
    ensures Satisfied(ByStatus(status), e) <==> e.status == status
  {
  }

  /** The text searches ignore case and an empty query matches every event. */
  lemma EmptyQueryMatchesAll(e: Event)
    ensures Satisfied(ByTitle(""), e)
    ensures Satisfied(ByLocation(""), e)
  {
    ContainsEmpty(Lower(e.title));
    ContainsEmpty(Lower(e.location));
  }

  lemma TitleSearchIgnoresCase(query: string, e: Event)
    ensures Satisfied(ByTitle(query), e) <==> Satisfied(ByTitle(Lower(query)), e)
    ensures Satisfied(ByTitle(query), e) <==> Satisfied(ByTitle(query), e.(title := Lower(e.title)))
  {
    LowerIdempotent(query);
    LowerIdempotent(e.title);
  }

  lemma TitleFound(prefix: string, query: string, suffix: string, e: Event)
    requires e.title == prefix + query + suffix
    ensures Satisfied(ByTitle(query), e)
  {
    var l := Lower(e.title);
    assert l == Lower(prefix) + Lower(query) + Lower(suffix);
    ContainsMiddle(Lower(prefix), Lower(query), Lower(suffix));
  }

  // ---------------------------------------------------------------------------
  // apply_specifications
  // ---------------------------------------------------------------------------

  /** Every given (non-None) specification holds. */
  predicate SatisfiesAll(specs: seq<Option<Spec>>, e: Event)
  {
    forall i :: 0 <= i < |specs| && specs[i].Some? ==> Satisfied(specs[i].value, e)
  }

  predicate NoSpecs(specs: seq<Option<Spec>>)
  {
    forall i :: 0 <= i < |specs| ==> specs[i].None?
  }

  /** The accumulated Q object, left to right; None is the empty Q(). */
  function Combined(specs: seq<Option<Spec>>): Option<Spec>
  {
    if specs == [] then None
    else
      var acc := Combined(specs[..|specs| - 1]);
      var last := specs[|specs| - 1];
      if last.None? then acc
      else if acc.None? then last
      else Some(And(acc.value, last.value))
  }

  /** The combined specification is absent iff no specification was given,
      and otherwise holds exactly when every given one does. */
  lemma {:induction false} CombinedMeaning(specs: seq<Option<Spec>>, e: Event)
    ensures Combined(specs).None? <==> NoSpecs(specs)
    ensures Combined(specs).Some? ==> (Satisfied(Combined(specs).value, e) <==> SatisfiesAll(specs, e))
  {
    if specs != [] {
      var init := specs[..|specs| - 1];
      CombinedMeaning(init, e);
      assert forall i :: 0 <= i < |init| ==> init[i] == specs[i];
      assert NoSpecs(specs) <==> NoSpecs(init) && specs[|specs| - 1].None?;
      assert SatisfiesAll(specs, e) <==>
             SatisfiesAll(init, e)
             && (specs[|specs| - 1].Some? ==> Satisfied(specs[|specs| - 1].value, e));
    }
  }

  function SatisfiedBy(s: Spec): Event -> bool
  {
    e => Satisfied(s, e)
  }

  /** apply_specifications on a list of events. */
  method ApplySpecifications(events: seq<Event>, specs: seq<Option<Spec>>) returns (r: seq<Event>)
    ensures NoSpecs(specs) ==> r == events
    ensures forall e :: e in r <==> e in events && SatisfiesAll(specs, e)
    ensures IsSubsequence(r, events)
  {
    var combined: Option<Spec> := None;
    var i := 0;
    while i < |specs|
      invariant 0 <= i <= |specs|
      invariant combined == Combined(specs[..i])
    {
      assert specs[..i + 1][..i] == specs[..i];
      var spec := specs[i];
      if spec.Some? {
        combined := if combined.None? then spec else Some(And(combined.value, spec.value));
      }
      i := i + 1;
    }
    assert specs[..|specs|] == specs;
    if combined.None? {
      CombinedMeaning(specs, Event(0, "", "", "", 0, 0, "", None, "", 0, 0));
      r := events;
      assert IsSubsequence(events, events) by { SubsequenceReflexive(events); }
    } else {
      r := Filter(events, SatisfiedBy(combined.value));
      forall e
        ensures e in r <==> e in events && SatisfiesAll(specs, e)
      {
        CombinedMeaning(specs, e);
      }
      FilterIsSubsequence(events, SatisfiedBy(combined.value));
      if NoSpecs(specs) {
        CombinedMeaning(specs, Event(0, "", "", "", 0, 0, "", None, "", 0, 0));
      }
    }
  }
}
