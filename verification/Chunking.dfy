/** Documents, batches, and the pure chunking that batching refines. */
module Chunking {
  import opened Sums

  datatype Doc = Doc(id: string, body: int)

  /** docs cut into pieces of size b, the last one possibly shorter. */
  function Chunk(docs: seq<Doc>, b: nat): seq<seq<Doc>>
    requires b >= 1
  {
    if docs == [] then []
    else if |docs| <= b then [docs]
    else [docs[..b]] + Chunk(docs[b..], b)
  }

  function Tail(rest: seq<Doc>): seq<seq<Doc>> { if rest == [] then [] else [rest] }

  predicate AllFull(batches: seq<seq<Doc>>, b: nat) {
    forall k :: 0 <= k < |batches| ==> |batches[k]| == b
  }

  lemma {:induction false} ChunkCons(first: seq<Doc>, docs: seq<Doc>, b: nat)
    requires b >= 1 && |first| == b
    ensures Chunk(first + docs, b) == [first] + Chunk(docs, b)
  {
    if docs == [] {
      assert first + docs == first;
    } else {
      assert (first + docs)[..b] == first && (first + docs)[b..] == docs;
    }
  }

  /** Full batches followed by at most one more batch are the chunks of their concatenation. */
  lemma {:induction false} ChunksOfBatches(batches: seq<seq<Doc>>, rest: seq<Doc>, b: nat)
    requires b >= 1 && AllFull(batches, b) && |rest| <= b
    ensures Chunk(Flatten(batches) + rest, b) == batches + Tail(rest)
  {
    if batches == [] {
      assert Flatten(batches) + rest == rest;
    } else {
      var first, others := batches[0], batches[1..];
      ChunksOfBatches(others, rest, b);
      ChunkCons(first, Flatten(others) + rest, b);
      FlattenCons(batches);
      assert Flatten(batches) + rest == first + (Flatten(others) + rest);
    }
  }

  /** Chunking loses, adds and reorders nothing; every piece is non-empty and all but the last full. */
  lemma {:induction false} ChunkProperties(docs: seq<Doc>, b: nat)
    requires b >= 1
    ensures Flatten(Chunk(docs, b)) == docs
    ensures forall k :: 0 <= k < |Chunk(docs, b)| ==>
              && 1 <= |Chunk(docs, b)[k]| <= b
              && (k < |Chunk(docs, b)| - 1 ==> |Chunk(docs, b)[k]| == b)
  {
    if |docs| > b {
      ChunkProperties(docs[b..], b);
      FlattenCons(Chunk(docs, b));
      assert Chunk(docs, b)[1..] == Chunk(docs[b..], b);
    } else if docs != [] {
      FlattenSnoc([], docs);
      assert [] + [docs] == [docs];
    }
  }
}
