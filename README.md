# Video game finder: ingestion and filtered retrieval

A model of the core of a small game-recommendation service. The catalogue of
games is loaded into a vector store. Each game is stored with an embeddable
text, its whole record as metadata, and its position in the catalogue as id.
A query asks the store for the games nearest to a free-text description. The
query is filtered by an inclusive rating range and, optionally, by a
whitespace-separated list of developers. The first `n_results` rows the store
returns are handed back.

Modules, one per concern of `main.py`:

- `Decimal` (decimal.dfy): Python's `str` of a non-negative integer, with a
  parser as its inverse. The ids and the rating inside a document use it.
- `Games` (games.dfy): the game record, the metadata lookup a filter clause
  uses, and the embeddable document.
- `Keywords` (keywords.dfy): Python's `str.split()` with no argument, with the
  whitespace set of `str.isspace`.
- `Filters` (filters.dfy): the where clause (`$and` of `$gte`, `$lte` and
  `$in` clauses), its meaning as a predicate over records, and the filter one
  query builds.
- `Ingestion` (ingestion.dfy): `add_data_to_collection` as a loop that fills
  three lists and hands them to a `Collection` sink.
- `Retrieval` (retrieval.dfy): `get_results` as a method that builds the
  where clause, calls the store, and copies rows out in a loop.

The store's query is a function parameter `Store`: given the query text, the
count and the where clause, it returns the ranked metadata rows. The
predicate `StoreHonours` states the store's own promise that every returned
row passes the filter. It is used only as a hypothesis.

Behaviour of the program that the model keeps as it is:

- The program does not check that the minimum rating is at most the maximum.
  Reversed bounds go to the store unchanged and admit no record
  (`Filters.ReversedBoundsMatchNothing`). When the store honours the filter
  and at least one row is asked for, the copy loop then runs past the end of
  the store's answer (`Retrieval.GetResults`).
- The copy loop reads exactly `n_results` rows. When the store returns fewer,
  the index runs past the end and Python raises `IndexError`. The model
  returns `Outcome.IndexError` there.
- Only rating and developer are filtered.
- The document leaves out console, esrb, difficulty and length.
- A non-empty developer text always adds a clause, even when it is only
  whitespace. Such a text splits to no keyword, so its clause admits nothing
  (`Filters.BlankDevQueryMatchesNothing`).

## Model

| member | source | states |
|---|---|---|
| `Decimal.NatToString` | main.py:58 | `str(n)` is a non-empty run of digits; it starts with `'0'` only for zero; it is one digit long exactly when n < 10 |
| `Decimal.ParseNatToString` | main.py:58 | reading the decimal text of n back gives n |
| `Decimal.NatToStringInjective` | main.py:58 | two numbers have the same decimal text if and only if they are equal |
| `Games.LookupDeterminesRecord` | main.py:55 | the metadata the filter reads is the whole record: two records that give the same value under every key are equal |
| `Games.Document` | main.py:40-51 | the document is title, genre, developer, decimal rating and description, each at its own consecutive position in that order, with no separators (its length is the sum of theirs) |
| `Games.DocumentIgnoresOtherFields` | main.py:40-51 | two games that agree on title, genre, developer, rating and description have the same document, whatever their console, esrb, difficulty and length |
| `Games.DocumentBoundariesAmbiguous` | main.py:51 | without separators, any two games whose title and genre read the same together, and that agree on developer, rating and description, get the same document |
| `Keywords.Split` | main.py:82 | every piece of `split()` is non-empty and contains no whitespace |
| `Keywords.SplitKeepsText` | main.py:82 | the pieces, written back to back, are the input with its whitespace removed, so no other character is lost and order is kept |
| `Keywords.SplitEmptyIffAllSpace` | main.py:81-82 | `split()` yields no piece if and only if the text is all whitespace (or empty) |
| `Keywords.SplitJoin` | main.py:82 | splitting words joined by single spaces gives the words back, for non-empty whitespace-free words |
| `Keywords.SplitAtSpace` | main.py:82 | a run of whitespace is one separator: cutting the text at any whitespace character splits the two sides independently, so leading, trailing and repeated whitespace yield no empty piece |
| `Keywords.SplitExample` | main.py:119 | `"SquareSoft Capcom"` splits to `["SquareSoft", "Capcom"]` |
| `Filters.QueryFilter` | main.py:72-83 | the filter has the rating `$gte` minimum clause, then the rating `$lte` maximum clause, then, only for a non-empty developer text, a developer `$in` clause over its split; 2 clauses for an empty text, 3 otherwise |
| `Filters.QueryFilterSemantics` | main.py:72-89 | a record passes the filter if and only if minimum <= rating <= maximum and, for a non-empty developer text, its developer is one of the keywords |
| `Filters.EmptyDevQueryUnconstrained` | main.py:81 | with an empty developer text, a record passes if and only if its rating is within the bounds |
| `Filters.ReversedBoundsMatchNothing` | main.py:72-79 | with minimum > maximum, no record passes |
| `Filters.BlankDevQueryMatchesNothing` | main.py:81-83 | a non-empty all-whitespace developer text gives a `$in` clause with an empty list, and no record passes |
| `Filters.ExampleFilter` | main.py:119 | the example query builds rating in [0, 10] and developer in `["SquareSoft", "Capcom"]` |
| `Ingestion.IngestionBatch` | main.py:34-58 | the three lists have the catalogue's length; entry i of each comes from game i in order: its document, the record unchanged, and `str(i)`; the ids are pairwise distinct |
| `Ingestion.IdsDense` | main.py:38-58 | the ids are dense from "0": id i is a digit string that reads back as i |
| `Ingestion.Collection.Add` | main.py:61-65 | the store receives exactly the three lists, as one batch after those already received; equal lengths and distinct ids are required |
| `Ingestion.AddDataToCollection` | main.py:33-65 | the loop builds exactly the ingestion batch of the catalogue and adds it to the collection as one call |
| `Retrieval.GetResults` | main.py:68-96 | the store is queried with the query's filter; the result is the first n rows of its answer in store order, or `IndexError` when it returned fewer than n; n = 0 gives an empty list; if the store honours the filter, every returned row has its rating within the bounds and, for a non-empty developer text, a listed developer; so, with at least one row asked for, reversed bounds or a whitespace-only developer text end in `IndexError` |

## Left out

- `load_data` (main.py:14-17): reading and parsing the JSON file is I/O. The catalogue is an input sequence of `Game` values, so a record with a missing field (a `KeyError` in Python) cannot be expressed.
- `get_chroma_collection` (main.py:20-30): the persistent client, the environment variables and the OpenAI embedding function are foreign calls over the network and disk.
- The store's internals: embedding, nearest-neighbour ranking and distances are floating-point work inside the vector-store library. The query is an abstract `Store` function and `add` is a sink that records its batches. The store's own validation of a where clause, such as a check on an empty `$in` list, is not modelled.
- `search` (main.py:99-106): the DataFrame column projection and the `gr.Error` wrapping are library behaviour.
- The module-level script and the Gradio UI (main.py:111-140), apart from the example query at main.py:119, whose filter is stated as a lemma.
- Ratings, difficulty and length are modelled as whole numbers (`nat`); a fractional rating, whose `str` is for example `8.5`, and a negative one are not modelled. `n_results` is a `nat`; a negative count is not modelled.
- The outer per-query list of `results["metadatas"]` (main.py:94): one query text is sent, so the model keeps only its row list.
