/**
 * `FAISSIndex` of agents/data/indexing.py: an exact squared-L2 index
 * (`faiss.IndexFlatL2`) beside a positionally parallel list of metadata records.
 */
module Indexing {
  import opened Wrappers
  import opened Records
  import opened Vectors

  /** The key under which a search result carries its distance. */
  const ScoreKey: string := "score"

  /** FLT_MAX, the distance FAISS reports for the slots it pads with label -1. */
  const FloatMax: real := 340282346638528859811704183484516925440.0

  function Min(a: int, b: int): int
  {
    if a < b then a else b
  }

  /**
   * `labels` are distinct positions of `vs` listed by ascending squared distance to
   * `query`, with those distances, and no unlisted vector is nearer than a listed one.
   */
  ghost predicate IsNearest(vs: seq<Vector>, query: Vector, distances: seq<real>, labels: seq<int>)
    requires AllOfDim(vs, |query|)
  {
    && |distances| == |labels|
    && (forall i :: 0 <= i < |labels| ==> 0 <= labels[i] < |vs| && distances[i] == SqDist(query, vs[labels[i]]))
    && (forall i, j :: 0 <= i < j < |labels| ==> labels[i] != labels[j] && distances[i] <= distances[j])
    && (forall i, j :: 0 <= i < |labels| && 0 <= j < |vs| && j !in labels ==> distances[i] <= SqDist(query, vs[j]))
  }

  /**
   * What `IndexFlatL2.search(query, k)` returns: the `min(k, n)` nearest stored
   * vectors, then label -1 with distance FLT_MAX up to `k` slots.
   */
  ghost predicate IsFlatSearchResult(vs: seq<Vector>, query: Vector, k: nat,
                                     distances: seq<real>, labels: seq<int>)
    requires AllOfDim(vs, |query|)
  {
    var m := Min(k, |vs|);
    && |distances| == k && |labels| == k
    && IsNearest(vs, query, distances[..m], labels[..m])
    && (forall i :: m <= i < k ==> labels[i] == -1 && distances[i] == FloatMax)
  }

  /** `self.metadata[idx].copy()` with `score` set, Python's negative indexing included. */
  function Hit(metadata: seq<Record>, idx: int, distance: real): Result<Record>
  {
    if 0 <= idx < |metadata| then Ok(metadata[idx][ScoreKey := Num(distance)])
    else if -|metadata| <= idx < 0 then Ok(metadata[|metadata| + idx][ScoreKey := Num(distance)])
    else Err(IndexError)
  }

  /**
   * The result loop of `search`: labels not below `len(metadata)` are skipped, the
   * others are looked up in order; a failed lookup raises IndexError.
   */
  function Collect(metadata: seq<Record>, distances: seq<real>, labels: seq<int>): (r: Result<seq<Record>>)
    requires |distances| == |labels|
    ensures r.Ok? ==> |r.value| <= |labels|
  {
    if |labels| == 0 then Ok([])
    else
      var n := |labels| - 1;
      match Collect(metadata, distances[..n], labels[..n])
      case Err(e) => Err(e)
      case Ok(prefix) =>
        if labels[n] < |metadata| then
          match Hit(metadata, labels[n], distances[n])
          case Err(e) => Err(e)
          case Ok(hit) => Ok(prefix + [hit])
        else Ok(prefix)
  }

  class FaissIndex {
    /** The dimension of `self.index`: the constructor's, until a load replaces it. */
    var dim: nat
    const indexPath: string
    /** The vectors held by `self.index`, in insertion order. */
    var vectors: seq<Vector>
    var metadata: seq<Record>

    /** FAISS itself rejects vectors of another dimension. */
    ghost predicate Valid()
      reads this
    {
      AllOfDim(vectors, dim)
    }

    constructor(dim: nat, indexPath: string := "faiss_index/faiss_index/index_rag.faiss")
      ensures Valid()
      ensures this.dim == dim && this.indexPath == indexPath
      ensures vectors == [] && metadata == []
    {
      this.dim := dim;
      this.indexPath := indexPath;
      vectors := [];
      metadata := [];
    }

    /**
     * `add_embeddings`: an empty batch changes nothing (not even the metadata);
     * otherwise both stores are extended in order. The two counts are not compared.
     */
    method AddEmbeddings(embeddings: seq<Vector>, metadatas: seq<Record>)
      requires Valid() && AllOfDim(embeddings, dim)
      modifies this
      ensures Valid()
      ensures embeddings == [] ==> vectors == old(vectors) && metadata == old(metadata)
      ensures embeddings != [] ==> vectors == old(vectors) + embeddings && metadata == old(metadata) + metadatas
    {
      if embeddings == [] {
        return;
      }
      vectors := vectors + embeddings;
      metadata := metadata + metadatas;
    }

    /** `IndexFlatL2.search` for one query: the `k` nearest vectors, padded with -1. */
    method FlatSearch(query: Vector, k: nat) returns (distances: seq<real>, labels: seq<int>)
      requires Valid() && |query| == dim
      ensures IsFlatSearchResult(vectors, query, k, distances, labels)
    {
      var vs := vectors;
      var n := |vs|;
      var d := seq(n, j requires 0 <= j < n => SqDist(query, vs[j]));
      var m := Min(k, n);
      var nearest, nearestDistances := SelectNearest(d, m);
      labels := nearest + seq(k - m, _ => -1);
      distances := nearestDistances + seq(k - m, _ => FloatMax);
      PaddedIsFlatSearchResult(vs, query, k, d, nearest, nearestDistances);
    }

    /**
     * `search`: the FAISS result passed through the metadata guard. The stored
     * metadata is read, never changed.
     */
    method Search(query: Vector, topK: nat) returns (r: Result<seq<Record>>)
      requires Valid() && |query| == dim && topK > 0
      ensures exists ds, ls :: IsFlatSearchResult(vectors, query, topK, ds, ls) && r == Collect(metadata, ds, ls)
      ensures r.Ok? ==> |r.value| <= topK
      ensures metadata == [] && topK > |vectors| ==> r == Err(IndexError)
    {
      var distances, labels := FlatSearch(query, topK);
      var results: seq<Record> := [];
      var i := 0;
      while i < |labels|
        invariant 0 <= i <= |labels|
        invariant Collect(metadata, distances[..i], labels[..i]) == Ok(results)
      {
        assert distances[..i + 1][..i] == distances[..i];
        assert labels[..i + 1][..i] == labels[..i];
        var idx := labels[i];
        if idx < |metadata| {
          var hit := Hit(metadata, idx, distances[i]);
          if hit.Err? {
            r := Err(IndexError);
            EmptyMetadataPadding(vectors, query, topK, distances, labels);
            assert Collect(metadata, distances, labels) == Err(IndexError) by {
              CollectErrPersists(metadata, distances, labels, i + 1);
            }
            return;
          }
          results := results + [hit.value];
        }
        i := i + 1;
      }
      assert distances[..i] == distances && labels[..i] == labels;
      r := Ok(results);
      EmptyMetadataPadding(vectors, query, topK, distances, labels);
    }

    /** `save`: the vector store is written out; the metadata is not. */
    method Save() returns (file: seq<Vector>)
      requires Valid()
      ensures file == vectors && AllOfDim(file, dim)
    {
      file := vectors;
    }

    /**
     * `load`: the index is replaced by the one in the file, dimension included; the
     * metadata stays as it was. An index file holds vectors of one dimension, `fileDim`,
     * which need not be the index's own.
     */
    method Load(file: seq<Vector>, fileDim: nat)
      requires Valid() && AllOfDim(file, fileDim)
      modifies this
      ensures Valid() && vectors == file && dim == fileDim
      ensures metadata == old(metadata)
    {
      vectors := file;
      dim := fileDim;
    }
  }

  /**
   * The positions `0..m-1` of the `m` smallest entries of `d`, smallest first; ties
   * go to the lower position.
   */
  method SelectNearest(d: seq<real>, m: nat) returns (labels: seq<int>, distances: seq<real>)
    requires m <= |d|
    ensures |labels| == |distances| == m
    ensures forall i :: 0 <= i < m ==> 0 <= labels[i] < |d| && distances[i] == d[labels[i]]
    ensures forall i, j :: 0 <= i < j < m ==> labels[i] != labels[j] && distances[i] <= distances[j]
    ensures forall i, j :: 0 <= i < m && 0 <= j < |d| && j !in labels ==> distances[i] <= d[j]
  {
    labels, distances := [], [];
    while |labels| < m
      invariant |labels| == |distances| <= m
      invariant forall i :: 0 <= i < |labels| ==> 0 <= labels[i] < |d| && distances[i] == d[labels[i]]
      invariant forall i, j :: 0 <= i < j < |labels| ==> labels[i] != labels[j] && distances[i] <= distances[j]
      invariant forall i, j :: 0 <= i < |labels| && 0 <= j < |d| && j !in labels ==> distances[i] <= d[j]
    {
      UnchosenExists(labels, |d|);
      var best := NearestUnchosen(d, labels);
      labels, distances := labels + [best], distances + [d[best]];
    }
  }

  /** The first position of a smallest entry of `d` among those not in `taken`. */
  method NearestUnchosen(d: seq<real>, taken: seq<int>) returns (best: int)
    requires exists j :: 0 <= j < |d| && j !in taken
    ensures 0 <= best < |d| && best !in taken
    ensures forall j :: 0 <= j < |d| && j !in taken ==> d[best] <= d[j]
  {
    best := -1;
    var j := 0;
    while j < |d|
      invariant 0 <= j <= |d|
      invariant best == -1 ==> forall j' :: 0 <= j' < j ==> j' in taken
      invariant best != -1 ==> 0 <= best < j && best !in taken
      invariant best != -1 ==> forall j' :: 0 <= j' < j && j' !in taken ==> d[best] <= d[j']
    {
      if j !in taken && (best == -1 || d[j] < d[best]) {
        best := j;
      }
      j := j + 1;
    }
  }

  predicate Below(j: int, n: int)
  {
    0 <= j < n
  }

  lemma {:induction false} ElementsBound(labels: seq<int>)
    ensures |set x | x in labels| <= |labels|
  {
    if |labels| > 0 {
      var n := |labels| - 1;
      ElementsBound(labels[..n]);
      assert (set x | x in labels) == (set x | x in labels[..n]) + {labels[n]} by {
        assert labels == labels[..n] + [labels[n]];
      }
    }
  }

  lemma {:induction false} RangeSize(n: nat)
    ensures |set j | 0 <= j < n && Below(j, n)| == n
  {
    if n > 0 {
      var p := n - 1;
      RangeSize(p);
      assert (set j | 0 <= j < n && Below(j, n)) == (set j | 0 <= j < p && Below(j, p)) + {p};
    }
  }

  /** Fewer than `n` labels leave some position in [0, n) unchosen. */
  lemma UnchosenExists(labels: seq<int>, n: nat)
    requires |labels| < n
    ensures exists j :: 0 <= j < n && j !in labels
  {
    var chosen := set x | x in labels;
    var all := set j | 0 <= j < n && Below(j, n);
    ElementsBound(labels);
    RangeSize(n);
    assert |all - chosen| >= |all| - |chosen| > 0;
    var j :| j in all - chosen;
    assert Below(j, n) && j !in labels;
  }

  /** The selection over the distance table, padded to `k`, is what FAISS returns. */
  lemma PaddedIsFlatSearchResult(vs: seq<Vector>, query: Vector, k: nat, d: seq<real>,
                                 nearest: seq<int>, nearestDistances: seq<real>)
    requires AllOfDim(vs, |query|)
    requires |d| == |vs| && forall j :: 0 <= j < |vs| ==> d[j] == SqDist(query, vs[j])
    requires |nearest| == |nearestDistances| == Min(k, |vs|)
    requires forall i :: 0 <= i < |nearest| ==> 0 <= nearest[i] < |d| && nearestDistances[i] == d[nearest[i]]
    requires forall i, j :: 0 <= i < j < |nearest| ==> nearest[i] != nearest[j] && nearestDistances[i] <= nearestDistances[j]
    requires forall i, j :: 0 <= i < |nearest| && 0 <= j < |d| && j !in nearest ==> nearestDistances[i] <= d[j]
    ensures IsFlatSearchResult(vs, query, k, nearestDistances + seq(k - Min(k, |vs|), _ => FloatMax),
                               nearest + seq(k - Min(k, |vs|), _ => -1))
  {
    var m := Min(k, |vs|);
    var labels := nearest + seq(k - m, _ => -1);
    var distances := nearestDistances + seq(k - m, _ => FloatMax);
    NearestOfTable(vs, query, d, nearest, nearestDistances);
    PaddedTails(nearest, labels, -1, k - m);
    PaddedTails(nearestDistances, distances, FloatMax, k - m);
    PaddedFromParts(vs, query, k, distances, labels, nearest, nearestDistances);
  }

  /** The selection over the distance table satisfies `IsNearest` over the vectors. */
  lemma NearestOfTable(vs: seq<Vector>, query: Vector, d: seq<real>, nearest: seq<int>, nearestDistances: seq<real>)
    requires AllOfDim(vs, |query|)
    requires |d| == |vs| && forall j :: 0 <= j < |vs| ==> d[j] == SqDist(query, vs[j])
    requires |nearest| == |nearestDistances|
    requires forall i :: 0 <= i < |nearest| ==> 0 <= nearest[i] < |d| && nearestDistances[i] == d[nearest[i]]
    requires forall i, j :: 0 <= i < j < |nearest| ==> nearest[i] != nearest[j] && nearestDistances[i] <= nearestDistances[j]
    requires forall i, j :: 0 <= i < |nearest| && 0 <= j < |d| && j !in nearest ==> nearestDistances[i] <= d[j]
    ensures IsNearest(vs, query, nearestDistances, nearest)
  {
  }

  /** A prefix padded with `pad` copies of `filler`. */
  lemma PaddedTails<T>(prefix: seq<T>, padded: seq<T>, filler: T, pad: nat)
    requires padded == prefix + seq(pad, _ => filler)
    ensures |padded| == |prefix| + pad && padded[..|prefix|] == prefix
    ensures forall i :: |prefix| <= i < |padded| ==> padded[i] == filler
  {
  }

  lemma PaddedFromParts(vs: seq<Vector>, query: Vector, k: nat, distances: seq<real>, labels: seq<int>,
                        nearest: seq<int>, nearestDistances: seq<real>)
    requires AllOfDim(vs, |query|)
    requires |labels| == k && |distances| == k
    requires labels[..Min(k, |vs|)] == nearest && distances[..Min(k, |vs|)] == nearestDistances
    requires IsNearest(vs, query, nearestDistances, nearest)
    requires forall i :: Min(k, |vs|) <= i < k ==> labels[i] == -1
    requires forall i :: Min(k, |vs|) <= i < k ==> distances[i] == FloatMax
    ensures IsFlatSearchResult(vs, query, k, distances, labels)
  {
  }

  /** Once the prefix of length `i` has raised, the whole loop raises. */
  lemma {:induction false} CollectErrPersists(metadata: seq<Record>, distances: seq<real>, labels: seq<int>, i: nat)
    requires |distances| == |labels| && i <= |labels|
    requires Collect(metadata, distances[..i], labels[..i]).Err?
    ensures Collect(metadata, distances, labels) == Collect(metadata, distances[..i], labels[..i])
  {
    if i < |labels| {
      var n := |labels| - 1;
      assert distances[..n][..i] == distances[..i] && labels[..n][..i] == labels[..i];
      CollectErrPersists(metadata, distances[..n], labels[..n], i);
    } else {
      assert distances[..i] == distances && labels[..i] == labels;
    }
  }

  /**
   * Empty metadata (a fresh index after `load`): the real labels are all skipped, so
   * a search within the stored count returns [], and a padded search raises IndexError.
   */
  lemma EmptyMetadataPadding(vs: seq<Vector>, query: Vector, k: nat, distances: seq<real>, labels: seq<int>)
    requires AllOfDim(vs, |query|) && IsFlatSearchResult(vs, query, k, distances, labels)
    ensures k <= |vs| ==> Collect([], distances, labels) == Ok([])
    ensures k > |vs| ==> Collect([], distances, labels) == Err(IndexError)
  {
    if k <= |vs| {
      CollectSkipsAll(distances, labels);
    } else {
      var m := |vs|;
      assert labels[..m + 1][..m] == labels[..m];
      assert distances[..m + 1][..m] == distances[..m];
      CollectSkipsAll(distances[..m], labels[..m]);
      assert Collect([], distances[..m + 1], labels[..m + 1]) == Err(IndexError);
      CollectErrPersists([], distances, labels, m + 1);
    }
  }

  /** When every label is a valid Python index, each one yields its (copied) record. */
  lemma {:induction false} CollectAllValid(metadata: seq<Record>, distances: seq<real>, labels: seq<int>)
    requires |distances| == |labels|
    requires forall i :: 0 <= i < |labels| ==> -|metadata| <= labels[i] < |metadata|
    ensures Collect(metadata, distances, labels).Ok?
    ensures var rs := Collect(metadata, distances, labels).value;
            |rs| == |labels| && forall i :: 0 <= i < |labels| ==> Hit(metadata, labels[i], distances[i]) == Ok(rs[i])
  {
    if |labels| > 0 {
      var n := |labels| - 1;
      CollectAllValid(metadata, distances[..n], labels[..n]);
    }
  }

  /**
   * With every vector described by a record and `top_k` within the stored count,
   * search yields exactly `top_k` results: the records of the nearest vectors, by
   * ascending distance, each with its distance as `score`.
   */
  lemma AlignedSearch(vs: seq<Vector>, metadata: seq<Record>, query: Vector, k: nat,
                      distances: seq<real>, labels: seq<int>)
    requires AllOfDim(vs, |query|) && IsFlatSearchResult(vs, query, k, distances, labels)
    requires |vs| <= |metadata| && k <= |vs|
    ensures Collect(metadata, distances, labels).Ok?
    ensures var rs := Collect(metadata, distances, labels).value;
            && |rs| == k
            && (forall i :: 0 <= i < k ==> rs[i] == metadata[labels[i]][ScoreKey := Num(distances[i])])
            && (forall i, j :: 0 <= i < j < k ==> rs[i][ScoreKey].x <= rs[j][ScoreKey].x)
  {
    assert labels[..k] == labels && distances[..k] == distances;
    CollectAllValid(metadata, distances, labels);
  }

  /**
   * As written: when `top_k` exceeds the stored count, FAISS's -1 padding passes the
   * `idx < len(metadata)` guard and each padded slot returns the LAST metadata record
   * again, scored with FLT_MAX.
   */
  lemma PaddingRepeatsLast(vs: seq<Vector>, metadata: seq<Record>, query: Vector, k: nat,
                           distances: seq<real>, labels: seq<int>)
    requires AllOfDim(vs, |query|) && IsFlatSearchResult(vs, query, k, distances, labels)
    requires |vs| <= |metadata| && k > |vs| && metadata != []
    ensures Collect(metadata, distances, labels).Ok?
    ensures var rs := Collect(metadata, distances, labels).value;
            && |rs| == k
            && forall i :: |vs| <= i < k ==> rs[i] == metadata[|metadata| - 1][ScoreKey := Num(FloatMax)]
  {
    var m := |vs|;
    forall i | 0 <= i < k ensures -|metadata| <= labels[i] < |metadata| {
      if i < m {
        assert labels[..m][i] == labels[i];
      }
    }
    CollectAllValid(metadata, distances, labels);
  }

  /** The evidently intended result loop: negative (padding) labels are skipped too. */
  function CollectGuarded(metadata: seq<Record>, distances: seq<real>, labels: seq<int>): (r: seq<Record>)
    requires |distances| == |labels|
    ensures |r| <= |labels|
  {
    if |labels| == 0 then []
    else
      var n := |labels| - 1;
      CollectGuarded(metadata, distances[..n], labels[..n]) +
        (if 0 <= labels[n] < |metadata| then [metadata[labels[n]][ScoreKey := Num(distances[n])]] else [])
  }

  lemma {:induction false} CollectGuardedPrefix(metadata: seq<Record>, distances: seq<real>, labels: seq<int>, m: nat)
    requires |distances| == |labels| && m <= |labels|
    requires forall i :: m <= i < |labels| ==> labels[i] < 0
    ensures CollectGuarded(metadata, distances, labels) == CollectGuarded(metadata, distances[..m], labels[..m])
  {
    if |labels| > m {
      var n := |labels| - 1;
      assert distances[..n][..m] == distances[..m] && labels[..n][..m] == labels[..m];
      CollectGuardedPrefix(metadata, distances[..n], labels[..n], m);
    } else {
      assert distances[..m] == distances && labels[..m] == labels;
    }
  }

  lemma {:induction false} CollectGuardedAllValid(metadata: seq<Record>, distances: seq<real>, labels: seq<int>)
    requires |distances| == |labels|
    requires forall i :: 0 <= i < |labels| ==> 0 <= labels[i] < |metadata|
    ensures var rs := CollectGuarded(metadata, distances, labels);
            |rs| == |labels| && forall i :: 0 <= i < |labels| ==> rs[i] == metadata[labels[i]][ScoreKey := Num(distances[i])]
  {
    if |labels| > 0 {
      var n := |labels| - 1;
      CollectGuardedAllValid(metadata, distances[..n], labels[..n]);
    }
  }

  /**
   * Corrected: with the guard also rejecting negative labels the search never raises
   * and returns exactly the `min(top_k, n)` nearest records, with no padding.
   */
  lemma GuardedSearchHasNoPadding(vs: seq<Vector>, metadata: seq<Record>, query: Vector, k: nat,
                                  distances: seq<real>, labels: seq<int>)
    requires AllOfDim(vs, |query|) && IsFlatSearchResult(vs, query, k, distances, labels)
    requires |vs| <= |metadata|
    ensures var rs := CollectGuarded(metadata, distances, labels);
            && |rs| == Min(k, |vs|)
            && forall i :: 0 <= i < |rs| ==> rs[i] == metadata[labels[i]][ScoreKey := Num(distances[i])]
  {
    var m := Min(k, |vs|);
    CollectGuardedPrefix(metadata, distances, labels, m);
    CollectGuardedAllValid(metadata, distances[..m], labels[..m]);
  }

  lemma {:induction false} CollectSkipsAll(distances: seq<real>, labels: seq<int>)
    requires |distances| == |labels|
    requires forall i :: 0 <= i < |labels| ==> labels[i] >= 0
    ensures Collect([], distances, labels) == Ok([])
  {
    if |labels| > 0 {
      var n := |labels| - 1;
      CollectSkipsAll(distances[..n], labels[..n]);
    }
  }
}
