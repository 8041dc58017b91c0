/** Retrieval: build the query's filter, ask the store for the nearest rows
    under it and copy out the first `nResults` metadata rows. */
module Retrieval {
  import opened Games
  import opened Keywords
  import opened Filters

  /** `collection.query(query_texts=[query], n_results=n, where=w)`, reduced
      to the metadata rows of the one query, nearest first. */
  type Store = (string, nat, Where) -> seq<Game>

  /** The store's side of the bargain: every row it returns passes the filter. */
  ghost predicate StoreHonours(store: Store) {
    forall query, n, w, i :: 0 <= i < |store(query, n, w)| ==> Matches(w, store(query, n, w)[i])
  }

  /** The result of `get_results`: the copied rows, or the IndexError raised
      when the store returned fewer rows than were asked for. */
  datatype Outcome = Metadatas(rows: seq<Game>) | IndexError

  method GetResults(store: Store, query: string, devQuery: string,
                    nResults: nat := 2, ratingMinimum: int := 0, ratingMaximum: int := 10)
    returns (r: Outcome)
    ensures var ranked := store(query, nResults, QueryFilter(devQuery, ratingMinimum, ratingMaximum));
            r == if nResults <= |ranked| then Metadatas(ranked[..nResults]) else IndexError
    ensures r.Metadatas? ==> |r.rows| == nResults
    ensures nResults == 0 ==> r == Metadatas([])
    ensures StoreHonours(store) && r.Metadatas? ==>
              forall i :: 0 <= i < |r.rows| ==>
                ratingMinimum <= r.rows[i].rating <= ratingMaximum
                && (devQuery != [] ==> r.rows[i].developer in Split(devQuery))
    ensures StoreHonours(store) && nResults >= 1
            && (ratingMinimum > ratingMaximum || (devQuery != [] && AllSpace(devQuery)))
            ==> r == IndexError
  {
    var whereConditions := [Gte(RatingKey, ratingMinimum), Lte(RatingKey, ratingMaximum)];
    if devQuery != [] {
      var devKeywords := Split(devQuery);
      whereConditions := whereConditions + [In(DeveloperKey, devKeywords)];
    }
    var results := store(query, nResults, And(whereConditions));

    var metadatas: seq<Game> := [];
    for i := 0 to nResults
      invariant i <= |results|
      invariant metadatas == results[..i]
    {
      if i >= |results| {
        return IndexError;
      }
      metadatas := metadatas + [results[i]];
    }
    r := Metadatas(metadatas);

    if StoreHonours(store) {
      forall i | 0 <= i < |metadatas|
        ensures ratingMinimum <= metadatas[i].rating <= ratingMaximum
        ensures devQuery != [] ==> metadatas[i].developer in Split(devQuery)
      {
        QueryFilterSemantics(devQuery, ratingMinimum, ratingMaximum, metadatas[i]);
      }
      if nResults >= 1 {
        assert ratingMinimum <= metadatas[0].rating <= ratingMaximum;
        assert devQuery != [] ==> metadatas[0].developer in Split(devQuery);
        SplitEmptyIffAllSpace(devQuery);
      }
    }
  }
}
