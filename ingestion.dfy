/** Ingestion: every game of the catalogue becomes one store entry, with its
    embeddable document, its record as metadata and its position as id. */
module Ingestion {
  import opened Decimal
  import opened Games

  /** The three parallel lists of one `add` call. */
  datatype Batch = Batch(documents: seq<string>, metadatas: seq<Game>, ids: seq<string>)

  predicate DistinctIds(ids: seq<string>) {
    forall i, j :: 0 <= i < j < |ids| ==> ids[i] != ids[j]
  }

  /** The batch that ingesting `data` hands to the store: entry `i` of each
      list comes from `data[i]`, the ids are the positions written in
      decimal and no two of them are equal. */
  function IngestionBatch(data: seq<Game>): (b: Batch)
    ensures |b.documents| == |b.metadatas| == |b.ids| == |data|
    ensures b.metadatas == data
    ensures forall i :: 0 <= i < |data| ==> b.documents[i] == Document(data[i])
    ensures forall i :: 0 <= i < |data| ==> b.ids[i] == NatToString(i)
    ensures DistinctIds(b.ids)
  {
    var ids := seq(|data|, i requires 0 <= i => NatToString(i));
    forall i, j | 0 <= i < j < |ids| ensures ids[i] != ids[j] {
      NatToStringInjective(i, j);
    }
    Batch(seq(|data|, i requires 0 <= i < |data| => Document(data[i])), data, ids)
  }

  /** The ids are dense from "0": reading id `i` back gives `i`. */
  lemma IdsDense(data: seq<Game>, i: nat)
    requires i < |data|
    ensures AllDigits(IngestionBatch(data).ids[i])
    ensures ParseDecimal(IngestionBatch(data).ids[i]) == i
  {
    ParseNatToString(i);
  }

  /** The vector store, seen only through what it is given: the batches of
      its `add` calls, in call order. */
  class Collection {
    var batches: seq<Batch>

    constructor ()
      ensures batches == []
    {
      batches := [];
    }

    /** `collection.add(documents=..., metadatas=..., ids=...)`; the store
        demands lists of one length and ids that do not repeat. */
    method Add(documents: seq<string>, metadatas: seq<Game>, ids: seq<string>)
      requires |documents| == |metadatas| == |ids|
      requires DistinctIds(ids)
      modifies this
      ensures batches == old(batches) + [Batch(documents, metadatas, ids)]
    {
      batches := batches + [Batch(documents, metadatas, ids)];
    }
  }

  /** Walks the catalogue in order, building the documents, metadatas and ids
      lists, and adds them to the collection in one call. */
  method AddDataToCollection(data: seq<Game>, collection: Collection)
    modifies collection
    ensures collection.batches == old(collection.batches) + [IngestionBatch(data)]
  {
    var documents: seq<string> := [];
    var metadatas: seq<Game> := [];
    var ids: seq<string> := [];
    for i := 0 to |data|
      invariant |documents| == |ids| == i
      invariant forall k :: 0 <= k < i ==> documents[k] == Document(data[k])
      invariant metadatas == data[..i]
      invariant forall k :: 0 <= k < i ==> ids[k] == NatToString(k)
    {
      var game := data[i];
      documents := documents + [Document(game)];
      metadatas := metadatas + [game];
      ids := ids + [NatToString(i)];
    }
    assert metadatas == data;
    ghost var batch := IngestionBatch(data);
    assert documents == batch.documents by {
      forall k | 0 <= k < |data| ensures documents[k] == batch.documents[k] { }
    }
    assert ids == batch.ids by {
      forall k | 0 <= k < |data| ensures ids[k] == batch.ids[k] { }
    }
    collection.Add(documents, metadatas, ids);
  }
}
