/** The metadata filter handed to the vector store: a conjunction (`$and`)
    of clauses, each an inclusive bound (`$gte`, `$lte`) on a numeric field
    or a membership test (`$in`) on a string field, and the query's own
    filter built from the rating sliders and the developer text box. */
module Filters {
  import opened Games
  import opened Keywords

  datatype Clause =
    | Gte(key: string, bound: int)
    | Lte(key: string, bound: int)
    | In(key: string, values: seq<string>)

  /** `{"$and": conditions}`. */
  datatype Where = And(conditions: seq<Clause>)

  /** Whether one clause admits a record. A key the record lacks, or a
      value of the other kind (a string under `$gte`, a number under `$in`),
      admits nothing. */
  predicate Holds(c: Clause, g: Game) {
    match c
    case Gte(key, bound) =>
      var v := Lookup(g, key);
      v.Some? && v.value.Num? && v.value.n >= bound
    case Lte(key, bound) =>
      var v := Lookup(g, key);
      v.Some? && v.value.Num? && v.value.n <= bound
    case In(key, values) =>
      var v := Lookup(g, key);
      v.Some? && v.value.Str? && v.value.s in values
  }

  /** `$and`: a record passes when every clause admits it. */
  predicate Matches(w: Where, g: Game) {
    forall i :: 0 <= i < |w.conditions| ==> Holds(w.conditions[i], g)
  }

  /** The filter of one query: the rating lower bound, then the rating upper
      bound, then (only for a non-empty developer text) the developer
      membership clause over the whitespace-separated keywords. */
  function QueryFilter(devQuery: string, ratingMinimum: int, ratingMaximum: int): (w: Where)
    ensures |w.conditions| == (if devQuery == [] then 2 else 3)
    ensures w.conditions[0] == Gte(RatingKey, ratingMinimum)
    ensures w.conditions[1] == Lte(RatingKey, ratingMaximum)
    ensures devQuery != [] ==> w.conditions[2] == In(DeveloperKey, Split(devQuery))
  {
    var bounds := [Gte(RatingKey, ratingMinimum), Lte(RatingKey, ratingMaximum)];
    And(if devQuery == [] then bounds else bounds + [In(DeveloperKey, Split(devQuery))])
  }

  /** What the filter of a query admits: a rating within both bounds
      (inclusive) and, for a non-empty developer text, a developer equal to
      one of its keywords. */
  lemma QueryFilterSemantics(devQuery: string, ratingMinimum: int, ratingMaximum: int, g: Game)
    ensures Matches(QueryFilter(devQuery, ratingMinimum, ratingMaximum), g)
        <==> ratingMinimum <= g.rating <= ratingMaximum
             && (devQuery != [] ==> g.developer in Split(devQuery))
  {
    var w := QueryFilter(devQuery, ratingMinimum, ratingMaximum);
    assert Holds(w.conditions[0], g) <==> ratingMinimum <= g.rating;
    assert Holds(w.conditions[1], g) <==> g.rating <= ratingMaximum;
    if devQuery != [] {
      assert Holds(w.conditions[2], g) <==> g.developer in Split(devQuery);
    }
  }

  /** With an empty developer text the developer is unconstrained. */
  lemma EmptyDevQueryUnconstrained(ratingMinimum: int, ratingMaximum: int, g: Game)
    ensures Matches(QueryFilter("", ratingMinimum, ratingMaximum), g)
        <==> ratingMinimum <= g.rating <= ratingMaximum
  {
    QueryFilterSemantics("", ratingMinimum, ratingMaximum, g);
  }

  /** Reversed rating bounds are not rejected; they admit no record. */
  lemma ReversedBoundsMatchNothing(devQuery: string, ratingMinimum: int, ratingMaximum: int, g: Game)
    requires ratingMinimum > ratingMaximum
    ensures !Matches(QueryFilter(devQuery, ratingMinimum, ratingMaximum), g)
  {
    QueryFilterSemantics(devQuery, ratingMinimum, ratingMaximum, g);
  }

  /** A developer text made only of whitespace is non-empty, so it still
      adds a developer clause, but that clause lists no keyword and so
      admits no record. */
  lemma BlankDevQueryMatchesNothing(devQuery: string, ratingMinimum: int, ratingMaximum: int, g: Game)
    requires devQuery != [] && AllSpace(devQuery)
    ensures QueryFilter(devQuery, ratingMinimum, ratingMaximum).conditions[2] == In(DeveloperKey, [])
    ensures !Matches(QueryFilter(devQuery, ratingMinimum, ratingMaximum), g)
  {
    SplitEmptyIffAllSpace(devQuery);
    QueryFilterSemantics(devQuery, ratingMinimum, ratingMaximum, g);
  }

  /** The query of the module's own example: ratings 0 to 10 and the
      developers SquareSoft and Capcom. */
  lemma ExampleFilter()
    ensures QueryFilter("SquareSoft Capcom", 0, 10)
         == And([Gte("rating", 0), Lte("rating", 10), In("developer", ["SquareSoft", "Capcom"])])
  {
    SplitExample();
  }
}
