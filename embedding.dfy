/**
 * The user-preference engine of agents/data/embedding.py: interaction weights,
 * the weighted exponential-moving-average profile update with temporal decay and
 * normalisation, cosine relevance, and the ranking of candidate papers.
 */
module Embedding {
  import opened Wrappers
  import opened Records
  import opened Vectors
  import opened Lists

  /** The closed set of interaction kinds with their signed weights. */
  datatype InteractionType = Like | Dislike | View | Bookmark | Share | Delete

  function Weight(t: InteractionType): real
  {
    match t
    case Like => 1.0
    case Dislike => -0.5
    case View => 0.1
    case Bookmark => 0.8
    case Share => 0.6
    case Delete => -0.9
  }

  /** The lower-case name under which the interaction kind is accepted. */
  function KindName(t: InteractionType): string
  {
    match t
    case Like => "like"
    case Dislike => "dislike"
    case View => "view"
    case Bookmark => "bookmark"
    case Share => "share"
    case Delete => "delete"
  }

  /** `str.lower()` on the ASCII letters. */
  function ToLower(s: string): (r: string)
    ensures |r| == |s|
  {
    seq(|s|, i requires 0 <= i < |s| =>
      if 'A' <= s[i] <= 'Z' then (s[i] as int - 'A' as int + 'a' as int) as char else s[i])
  }

  /** The kind mapping of `handle_paper_interaction`: case-insensitive, ValueError otherwise. */
  function ParseInteraction(s: string): (r: Result<InteractionType>)
    ensures forall t :: r == Ok(t) <==> KindName(t) == ToLower(s)
    ensures r.Err? ==> r.error.ValueError?
  {
    var lower := ToLower(s);
    if lower == "like" then Ok(Like)
    else if lower == "dislike" then Ok(Dislike)
    else if lower == "view" then Ok(View)
    else if lower == "bookmark" then Ok(Bookmark)
    else if lower == "share" then Ok(Share)
    else if lower == "delete" then Ok(Delete)
    else Err(ValueError("Invalid interaction type: " + s))
  }

  /** The weight table, read through the kind names: the six weights the source fixes. */
  lemma WeightTable()
    ensures ParseInteraction("like") == Ok(Like) && Weight(Like) == 1.0
    ensures ParseInteraction("dislike") == Ok(Dislike) && Weight(Dislike) == -0.5
    ensures ParseInteraction("view") == Ok(View) && Weight(View) == 0.1
    ensures ParseInteraction("bookmark") == Ok(Bookmark) && Weight(Bookmark) == 0.8
    ensures ParseInteraction("share") == Ok(Share) && Weight(Share) == 0.6
    ensures ParseInteraction("delete") == Ok(Delete) && Weight(Delete) == -0.9
  {
    LowerFixed(KindName(Like));
    LowerFixed(KindName(Dislike));
    LowerFixed(KindName(View));
    LowerFixed(KindName(Bookmark));
    LowerFixed(KindName(Share));
    LowerFixed(KindName(Delete));
  }

  /** Lower-casing leaves text without capital letters unchanged. */
  lemma LowerFixed(s: string)
    requires forall i :: 0 <= i < |s| ==> !('A' <= s[i] <= 'Z')
    ensures ToLower(s) == s
  {
  }

  /** Kind names are matched case-insensitively. */
  lemma ParseIgnoresCase(s: string, t: string)
    requires ToLower(s) == ToLower(t)
    ensures ParseInteraction(s).Ok? == ParseInteraction(t).Ok?
    ensures ParseInteraction(s).Ok? ==> ParseInteraction(s) == ParseInteraction(t)
  {
  }

  /** The stored profile row: its vector and, when recorded, the whole days since its last update. */
  datatype ProfileRecord = ProfileRecord(embedding: Vector, daysSinceUpdate: Option<int>)

  /** What `np.linalg.norm` computes, given a square root. */
  ghost predicate IsSqrt(sqrt: real -> real)
  {
    forall x :: x >= 0.0 ==> sqrt(x) >= 0.0 && sqrt(x) * sqrt(x) == x
  }

  /** What Python's `**` is assumed to satisfy on a positive base. */
  ghost predicate IsPow(pow: (real, real) -> real)
  {
    forall b, e :: b > 0.0 ==>
      && pow(b, e) > 0.0
      && (e == 0.0 ==> pow(b, e) == 1.0)
      && (b <= 1.0 && e >= 0.0 ==> pow(b, e) <= 1.0)
  }

  /** `(1 - a)·c + a·m` lies between `c` and `m` when `0 ≤ a ≤ 1`. */
  lemma BlendIsBetween(c: real, m: real, a: real, r: real)
    requires 0.0 <= a <= 1.0 && r == (1.0 - a) * c + a * m
    ensures c <= m ==> c <= r <= m
    ensures m <= c ==> m <= r <= c
  {
    var d := m - c;
    assert r == c + a * d;
    assert (1.0 - a) * d == d - a * d;
    if c <= m {
      MulNonNegative(a, d);
      MulNonNegative(1.0 - a, d);
    } else {
      MulNonNegative(a, -d);
      MulNonNegative(1.0 - a, -d);
    }
  }

  lemma MulNonNegative(x: real, y: real)
    requires x >= 0.0 && y >= 0.0
    ensures x * y >= 0.0
  {
  }

  /** `b ** n` for a whole exponent `n`. */
  function IntPow(b: real, n: nat): real
  {
    if n == 0 then 1.0 else b * IntPow(b, n - 1)
  }

  lemma {:induction false} IntPowNonZero(b: real, n: nat)
    requires b != 0.0
    ensures IntPow(b, n) != 0.0
  {
    if n > 0 {
      IntPowNonZero(b, n - 1);
    }
  }

  const NormFloor: real := 0.00000001
  const DecayFloor: real := 0.1

  /** `d / (n * n)` is 1 when `d` is the square of a positive `n`. */
  lemma QuotientOfSquare(d: real, n: real)
    requires n >= NormFloor && n * n == d
    ensures d / (n * n) == 1.0
  {
    assert n * n > 0.0;
  }

  /** `max(0.1, x)`. */
  function AtLeastFloor(x: real): real
  {
    if DecayFloor > x then DecayFloor else x
  }

  /** The key under which a candidate carries its score. */
  const RelevanceKey: string := "relevance_score"

  /** A candidate the scoring loop keeps: it has an `id` whose embedding is found. */
  predicate Scorable(c: Record, lookup: map<Value, Vector>)
  {
    "id" in c && c["id"] in lookup
  }

  /** A candidate paper together with its relevance score. */
  datatype ScoredPaper = ScoredPaper(paper: Record, score: real)

  /** `{**paper, 'relevance_score': score}`. */
  function AsRecord(s: ScoredPaper): (r: Record)
    ensures RelevanceKey in r && r[RelevanceKey] == Num(s.score)
    ensures forall k :: k in s.paper && k != RelevanceKey ==> k in r && r[k] == s.paper[k]
    ensures r.Keys == s.paper.Keys + {RelevanceKey}
  {
    s.paper[RelevanceKey := Num(s.score)]
  }

  function AsRecords(s: seq<ScoredPaper>): (r: seq<Record>)
    ensures |r| == |s| && forall i :: 0 <= i < |s| ==> r[i] == AsRecord(s[i])
  {
    seq(|s|, i requires 0 <= i < |s| => AsRecord(s[i]))
  }

  predicate SortedDescending(s: seq<ScoredPaper>)
  {
    forall i, j :: 0 <= i < j < |s| ==> s[i].score >= s[j].score
  }

  /** Inserts `x` before the first element whose score does not exceed its own. */
  function InsertByScore(x: ScoredPaper, s: seq<ScoredPaper>): (r: seq<ScoredPaper>)
    requires SortedDescending(s)
    ensures SortedDescending(r)
    ensures multiset(r) == multiset(s) + multiset{x}
  {
    if s == [] || x.score >= s[0].score then
      [x] + s
    else
      var rest := InsertByScore(x, s[1..]);
      assert s == [s[0]] + s[1..];
      HeadBoundsInsertion(s[0], x, s[1..], rest);
      [s[0]] + rest
  }

  /** Every element of `t` with `x` inserted scores at most `h` when `x` and all of `t` do. */
  lemma HeadBoundsInsertion(h: ScoredPaper, x: ScoredPaper, t: seq<ScoredPaper>, rest: seq<ScoredPaper>)
    requires SortedDescending([h] + t) && x.score < h.score
    requires multiset(rest) == multiset(t) + multiset{x}
    ensures forall j :: 0 <= j < |rest| ==> h.score >= rest[j].score
  {
    forall j | 0 <= j < |rest| ensures h.score >= rest[j].score {
      assert rest[j] in multiset(rest);
      if rest[j] != x {
        assert rest[j] in multiset(t);
        var k :| 0 <= k < |t| && t[k] == rest[j];
        assert ([h] + t)[0] == h && ([h] + t)[k + 1] == rest[j];
      }
    }
  }

  /**
   * `sorted(..., key=score, reverse=True)`: an insertion sort that, like Python's
   * stable sort, keeps equally scored papers in their input order.
   */
  function SortByScore(s: seq<ScoredPaper>): (r: seq<ScoredPaper>)
    ensures SortedDescending(r)
    ensures multiset(r) == multiset(s)
  {
    if s == [] then []
    else
      assert s == [s[0]] + s[1..];
      InsertByScore(s[0], SortByScore(s[1..]))
  }

  /**
   * `UserEmbeddingService`. Its configuration is fixed at construction; the square
   * root and the power function of the numerics library are injected collaborators.
   */
  class UserEmbeddingService {
    const embeddingDim: nat
    const learningRate: real
    const decayFactor: real
    const minInteraction: int
    const sqrt: real -> real
    const pow: (real, real) -> real

    ghost predicate Valid()
    {
      IsSqrt(sqrt) && IsPow(pow)
    }

    constructor(sqrt: real -> real, pow: (real, real) -> real, embeddingDim: nat := 384,
                learningRate: real := 0.1, decayFactor: real := 0.95, minInteraction: int := 3)
      ensures this.sqrt == sqrt && this.pow == pow
      ensures this.embeddingDim == embeddingDim && this.learningRate == learningRate
      ensures this.decayFactor == decayFactor && this.minInteraction == minInteraction
    {
      this.sqrt := sqrt;
      this.pow := pow;
      this.embeddingDim := embeddingDim;
      this.learningRate := learningRate;
      this.decayFactor := decayFactor;
      this.minInteraction := minInteraction;
    }

    function Norm(v: Vector): real
    {
      sqrt(Dot(v, v))
    }

    /**
     * `_get_user_embedding`: the stored vector when there is one of the configured
     * dimension, otherwise the freshly drawn random vector `fallback`.
     */
    function GetUserEmbedding(record: Option<ProfileRecord>, fallback: Vector): (r: Vector)
      requires |fallback| == embeddingDim
      ensures |r| == embeddingDim
      ensures r == fallback || (record.Some? && r == record.value.embedding)
      ensures record.Some? && record.value.embedding != [] && |record.value.embedding| == embeddingDim
              ==> r == record.value.embedding
    {
      if record.Some? && record.value.embedding != [] && |record.value.embedding| == embeddingDim
      then record.value.embedding
      else fallback
    }

    /**
     * The weighted list of `_calculate_weighted_embeddings`: the items of the right
     * dimension, in order, each scaled by its interaction weight.
     */
    function Weighted(embeddings: seq<Vector>, kinds: seq<InteractionType>): (r: seq<Vector>)
      requires |embeddings| == |kinds|
      ensures |r| <= |embeddings|
      ensures AllOfDim(r, embeddingDim)
    {
      if |embeddings| == 0 then []
      else
        var n := |embeddings| - 1;
        Weighted(embeddings[..n], kinds[..n]) +
          (if |embeddings[n]| == embeddingDim then [Scale(embeddings[n], Weight(kinds[n]))] else [])
    }

    /** No item of the configured dimension means nothing is weighted, and conversely. */
    lemma {:induction false} WeightedEmptyIff(embeddings: seq<Vector>, kinds: seq<InteractionType>)
      requires |embeddings| == |kinds|
      ensures Weighted(embeddings, kinds) == [] <==>
              forall i :: 0 <= i < |embeddings| ==> |embeddings[i]| != embeddingDim
    {
      if |embeddings| > 0 {
        var n := |embeddings| - 1;
        WeightedEmptyIff(embeddings[..n], kinds[..n]);
        assert forall i :: 0 <= i < n ==> embeddings[..n][i] == embeddings[i];
      }
    }

    /** `_calculate_weighted_embeddings`. */
    method CalculateWeightedEmbeddings(embeddings: seq<Vector>, kinds: seq<InteractionType>)
      returns (r: Result<seq<Vector>>)
      ensures |embeddings| != |kinds| ==> r.Err? && r.error.ValueError?
      ensures |embeddings| == |kinds| ==> r == Ok(Weighted(embeddings, kinds))
    {
      if |embeddings| != |kinds| {
        return Err(ValueError("Number of embeddings must match number of interaction types"));
      }
      var weighted: seq<Vector> := [];
      var i := 0;
      while i < |embeddings|
        invariant 0 <= i <= |embeddings|
        invariant weighted == Weighted(embeddings[..i], kinds[..i])
      {
        assert embeddings[..i + 1][..i] == embeddings[..i];
        assert kinds[..i + 1][..i] == kinds[..i];
        if |embeddings[i]| == embeddingDim {
          weighted := weighted + [Scale(embeddings[i], Weight(kinds[i]))];
        }
        i := i + 1;
      }
      assert embeddings[..i] == embeddings && kinds[..i] == kinds;
      return Ok(weighted);
    }

    /**
     * `_exponential_moving_average_update`: `(1 - α)·current + α·mean(new)`, or
     * `current` for an empty list or a dimension mismatch.
     */
    function EmaUpdate(current: Vector, newEmbeddings: seq<Vector>): (r: Vector)
      requires |newEmbeddings| > 0 ==> AllOfDim(newEmbeddings, |newEmbeddings[0]|)
      ensures |r| == |current|
      ensures |newEmbeddings| == 0 ==> r == current
      ensures |newEmbeddings| > 0 && |newEmbeddings[0]| != |current| ==> r == current
    {
      if |newEmbeddings| == 0 then current
      else
        var avg := Mean(newEmbeddings, |newEmbeddings[0]|);
        if |avg| != |current| then current
        else Add(Scale(current, 1.0 - learningRate), Scale(avg, learningRate))
    }

    /**
     * From `update_user_embedding` the mismatch branch of the moving average is
     * unreachable: profile and weighted items all have the configured dimension, so
     * every component is the blend of the old value and the mean.
     */
    lemma EmaBlendsComponents(current: Vector, newEmbeddings: seq<Vector>, i: int)
      requires |current| == embeddingDim && |newEmbeddings| > 0
      requires AllOfDim(newEmbeddings, embeddingDim)
      requires 0 <= i < embeddingDim
      ensures EmaUpdate(current, newEmbeddings)[i] ==
              (1.0 - learningRate) * current[i] + learningRate * Mean(newEmbeddings, embeddingDim)[i]
    {
    }

    /** With 0 ≤ α ≤ 1 every component lies between the old value and the mean. */
    lemma EmaIsConvex(current: Vector, newEmbeddings: seq<Vector>, i: int)
      requires 0.0 <= learningRate <= 1.0
      requires |current| == embeddingDim && |newEmbeddings| > 0
      requires AllOfDim(newEmbeddings, embeddingDim)
      requires 0 <= i < embeddingDim
      ensures current[i] <= Mean(newEmbeddings, embeddingDim)[i] ==>
              current[i] <= EmaUpdate(current, newEmbeddings)[i] <= Mean(newEmbeddings, embeddingDim)[i]
      ensures Mean(newEmbeddings, embeddingDim)[i] <= current[i] ==>
              Mean(newEmbeddings, embeddingDim)[i] <= EmaUpdate(current, newEmbeddings)[i] <= current[i]
    {
      var m, r := Mean(newEmbeddings, embeddingDim)[i], EmaUpdate(current, newEmbeddings)[i];
      EmaBlendsComponents(current, newEmbeddings, i);
      BlendIsBetween(current[i], m, learningRate, r);
    }

    /** With α = 1 the update forgets the profile and keeps the mean of the new items. */
    lemma EmaFullRateIsMean(current: Vector, newEmbeddings: seq<Vector>)
      requires learningRate == 1.0
      requires |current| == embeddingDim && |newEmbeddings| > 0
      requires AllOfDim(newEmbeddings, embeddingDim)
      ensures EmaUpdate(current, newEmbeddings) == Mean(newEmbeddings, embeddingDim)
    {
      var r, m := EmaUpdate(current, newEmbeddings), Mean(newEmbeddings, embeddingDim);
      forall i | 0 <= i < embeddingDim ensures r[i] == m[i] {
        EmaBlendsComponents(current, newEmbeddings, i);
      }
    }

    /**
     * When Python's `decay_factor ** (days / 30)` raises inside the decay: a zero base
     * with a negative exponent, or a negative base with a fractional one.
     */
    predicate DecayRaises(days: int)
    {
      (decayFactor == 0.0 && days < 0) || (decayFactor < 0.0 && days % 30 != 0)
    }

    /**
     * The multiplier of `_apply_temporal_decay`: `max(0.1, decay_factor ** (days / 30))`
     * with Python's float power. A positive base goes through `pow`. A zero base gives
     * 0.0 for a positive exponent, 1.0 for a zero one and ZeroDivisionError for a
     * negative one. A negative base gives a real power only for a whole exponent (a
     * multiple of 30 days); otherwise the power is complex and `max` raises TypeError.
     * None stands for those exceptions, which the source catches.
     */
    function DecayMultiplier(days: int): (m: Option<real>)
      requires Valid()
      ensures m.None? <==> DecayRaises(days)
      ensures m.Some? ==> m.value >= DecayFloor
      ensures m.Some? && days >= 0 && 0.0 <= decayFactor <= 1.0 ==> m.value <= 1.0
      ensures m.Some? && days == 0 ==> m.value == 1.0
      ensures decayFactor == 0.0 && days > 0 ==> m == Some(DecayFloor)
      ensures decayFactor > 0.0 ==> m == Some(AtLeastFloor(pow(decayFactor, days as real / 30.0)))
    {
      if decayFactor > 0.0 then Some(AtLeastFloor(pow(decayFactor, days as real / 30.0)))
      else if decayFactor == 0.0 then
        (if days > 0 then Some(AtLeastFloor(0.0)) else if days == 0 then Some(AtLeastFloor(1.0)) else None)
      else if days % 30 != 0 then None
      else if days >= 0 then Some(AtLeastFloor(IntPow(decayFactor, days / 30)))
      else
        IntPowNonZero(decayFactor, -days / 30);
        Some(AtLeastFloor(1.0 / IntPow(decayFactor, -days / 30)))
    }

    /**
     * `_apply_temporal_decay`: no record, no timestamp or an exception leave the vector
     * as it is; otherwise it is scaled by the multiplier.
     */
    function ApplyTemporalDecay(days: Option<int>, v: Vector): (r: Vector)
      requires Valid()
      ensures |r| == |v|
      ensures days.None? || DecayRaises(days.value) ==> r == v
      ensures days.Some? && decayFactor == 0.0 && days.value > 0 ==> r == Scale(v, DecayFloor)
      ensures days.Some? && !DecayRaises(days.value) ==>
              exists m :: DecayFloor <= m && r == Scale(v, m) && (days.value >= 0 && 0.0 <= decayFactor <= 1.0 ==> m <= 1.0)
      ensures days.Some? && decayFactor > 0.0 ==> r == Scale(v, AtLeastFloor(pow(decayFactor, days.value as real / 30.0)))
    {
      if days.None? then v
      else
        match DecayMultiplier(days.value)
        case None => v
        case Some(m) => Scale(v, m)
    }

    /** `_normalize_embedding`: unit length when the norm exceeds 1e-8, the identity otherwise. */
    function NormalizeEmbedding(v: Vector): (r: Vector)
      requires Valid()
      ensures |r| == |v|
      ensures Norm(v) > NormFloor ==> Dot(r, r) == 1.0 && r == Scale(v, 1.0 / Norm(v))
      ensures Norm(v) <= NormFloor ==> r == v
    {
      var n := Norm(v);
      if n > NormFloor then
        var r := Scale(v, 1.0 / n);
        DotSelfNonNegative(v);
        DotScale(v, v, 1.0 / n, 1.0 / n);
        assert n * n == Dot(v, v);
        r
      else v
    }

    /** `calculate_user_similarity`: clipped cosine similarity, 0 on a mismatch or a near-zero norm. */
    function CalculateUserSimilarity(a: Vector, b: Vector): (r: real)
      ensures -1.0 <= r <= 1.0
      ensures |a| != |b| ==> r == 0.0
      ensures |a| == |b| && (Norm(a) < NormFloor || Norm(b) < NormFloor) ==> r == 0.0
    {
      if |a| != |b| then 0.0
      else
        var n1, n2 := Norm(a), Norm(b);
        if n1 < NormFloor || n2 < NormFloor then 0.0
        else
          var s := Dot(a, b) / (n1 * n2);
          if s < -1.0 then -1.0 else if s > 1.0 then 1.0 else s
    }

    /** A vector of non-negligible norm is perfectly similar to itself. */
    lemma SelfSimilarity(v: Vector)
      requires Valid() && Norm(v) >= NormFloor
      ensures CalculateUserSimilarity(v, v) == 1.0
    {
      DotSelfNonNegative(v);
      assert Norm(v) * Norm(v) == Dot(v, v);
      QuotientOfSquare(Dot(v, v), Norm(v));
      SimilarityOfSelf(v);
    }

    /** The similarity of a vector with itself, before the quotient is simplified. */
    lemma SimilarityOfSelf(v: Vector)
      requires Norm(v) >= NormFloor
      ensures CalculateUserSimilarity(v, v) ==
              (var s := Dot(v, v) / (Norm(v) * Norm(v)); if s < -1.0 then -1.0 else if s > 1.0 then 1.0 else s)
    {
    }

    /** `get_paper_relevance_score`: `(cos + 1) / 2`, 0 on a shape mismatch. */
    function GetPaperRelevanceScore(user: Vector, paper: Vector): (r: real)
      ensures 0.0 <= r <= 1.0
      ensures |user| != |paper| ==> r == 0.0
      ensures |user| == |paper| ==> r == (CalculateUserSimilarity(user, paper) + 1.0) / 2.0
    {
      if |user| != |paper| then 0.0
      else (CalculateUserSimilarity(user, paper) + 1.0) / 2.0
    }

    /** The score is monotone in the cosine similarity and is 1 for a paper equal to the profile. */
    lemma RelevanceOrdersLikeSimilarity(user: Vector, p: Vector, q: Vector)
      requires Valid() && |user| == |p| == |q|
      ensures CalculateUserSimilarity(user, p) <= CalculateUserSimilarity(user, q)
              <==> GetPaperRelevanceScore(user, p) <= GetPaperRelevanceScore(user, q)
      ensures Norm(user) >= NormFloor ==> GetPaperRelevanceScore(user, user) == 1.0
    {
      if Norm(user) >= NormFloor {
        SelfSimilarity(user);
      }
    }

    /** The vector `update_user_embedding` returns, for valid inputs. */
    function UpdatedEmbedding(current: Vector, days: Option<int>, weighted: seq<Vector>): (r: Vector)
      requires Valid() && |current| == embeddingDim && AllOfDim(weighted, embeddingDim)
      ensures |r| == embeddingDim
    {
      if |weighted| == 0 then current
      else NormalizeEmbedding(ApplyTemporalDecay(days, EmaUpdate(current, weighted)))
    }

    /**
     * Boundary case: with α = 1 and no recorded update time the result is the
     * normalised mean of the weighted items, whatever the previous profile was.
     */
    lemma FullRateForgetsProfile(c1: Vector, c2: Vector, weighted: seq<Vector>)
      requires Valid() && learningRate == 1.0
      requires |c1| == embeddingDim && |c2| == embeddingDim
      requires |weighted| > 0 && AllOfDim(weighted, embeddingDim)
      ensures UpdatedEmbedding(c1, None, weighted) == UpdatedEmbedding(c2, None, weighted)
      ensures UpdatedEmbedding(c1, None, weighted) == NormalizeEmbedding(Mean(weighted, embeddingDim))
    {
      EmaFullRateIsMean(c1, weighted);
      EmaFullRateIsMean(c2, weighted);
    }

    /**
     * `update_user_embedding`: a length mismatch raises ValueError; with no item of the
     * configured dimension the fetched profile comes back untouched; otherwise the
     * moving average is decayed and normalised.
     */
    method UpdateUserEmbedding(record: Option<ProfileRecord>, fallback: Vector,
                               embeddings: seq<Vector>, kinds: seq<InteractionType>)
      returns (r: Result<Vector>)
      requires Valid() && |fallback| == embeddingDim
      ensures |embeddings| != |kinds| ==> r.Err? && r.error.ValueError?
      ensures |embeddings| == |kinds| ==> r.Ok? && |r.value| == embeddingDim
      ensures |embeddings| == |kinds| && (forall i :: 0 <= i < |embeddings| ==> |embeddings[i]| != embeddingDim)
              ==> r == Ok(GetUserEmbedding(record, fallback))
      ensures |embeddings| == |kinds| ==>
              var days := if record.Some? then record.value.daysSinceUpdate else None;
              r.value == UpdatedEmbedding(GetUserEmbedding(record, fallback), days, Weighted(embeddings, kinds))
    {
      var current := GetUserEmbedding(record, fallback);
      var weighted := CalculateWeightedEmbeddings(embeddings, kinds);
      if weighted.Err? {
        return Err(weighted.error);
      }
      WeightedEmptyIff(embeddings, kinds);
      if |weighted.value| == 0 {
        return Ok(current);
      }
      var updated := EmaUpdate(current, weighted.value);
      var days := if record.Some? then record.value.daysSinceUpdate else None;
      updated := ApplyTemporalDecay(days, updated);
      updated := NormalizeEmbedding(updated);
      return Ok(updated);
    }

    /**
     * `handle_paper_interaction` up to the profile it hands to persistence: the
     * argument checks in their order, the paper lookup, the kind mapping, then a
     * one-item update.
     */
    method HandlePaperInteraction(userId: string, paper: Record, kind: string,
                                  paperEmbedding: Option<Vector>, record: Option<ProfileRecord>,
                                  fallback: Vector)
      returns (r: Result<Vector>)
      requires Valid() && |fallback| == embeddingDim
      ensures userId == "" || paper == map[] || kind == "" ==> r.Err? && r.error.ValueError?
      ensures !Truthy(Get(paper, "id", Null)) ==> r.Err?
      ensures paperEmbedding.None? || ParseInteraction(kind).Err? ==> r.Err?
      ensures r.Ok? ==> |r.value| == embeddingDim
      ensures userId != "" && paper != map[] && kind != "" && Truthy(Get(paper, "id", Null))
              && paperEmbedding.Some? && ParseInteraction(kind).Ok? ==>
              var days := if record.Some? then record.value.daysSinceUpdate else None;
              r == Ok(UpdatedEmbedding(GetUserEmbedding(record, fallback), days,
                                       Weighted([paperEmbedding.value], [ParseInteraction(kind).value])))
    {
      if userId == "" || paper == map[] || kind == "" {
        return Err(ValueError("Missing required parameters"));
      }
      if !Truthy(Get(paper, "id", Null)) {
        return Err(ValueError("Paper ID is required"));
      }
      if paperEmbedding.None? {
        return Err(NotFound("paper embedding"));
      }
      var parsed := ParseInteraction(kind);
      if parsed.Err? {
        return Err(parsed.error);
      }
      r := UpdateUserEmbedding(record, fallback, [paperEmbedding.value], [parsed.value]);
    }

    /** One candidate of the scoring loop: scored when it is scorable, dropped otherwise. */
    function ScoreOf(profile: Vector, c: Record, lookup: map<Value, Vector>): (d: Option<ScoredPaper>)
      ensures d.Some? <==> Scorable(c, lookup)
      ensures d.Some? ==> d.value.paper == c && d.value.score == GetPaperRelevanceScore(profile, lookup[c["id"]])
    {
      if Scorable(c, lookup) then Some(ScoredPaper(c, GetPaperRelevanceScore(profile, lookup[c["id"]]))) else None
    }

    /**
     * The scoring loop of `get_paper_recommendations`: candidates without an `id`, or
     * whose embedding cannot be found, are dropped; the rest are scored in order.
     */
    function ScoreCandidates(profile: Vector, candidates: seq<Record>, lookup: map<Value, Vector>)
      : (r: seq<ScoredPaper>)
      ensures |r| <= |candidates|
      ensures forall k :: 0 <= k < |r| ==>
                && r[k].paper in candidates
                && "id" in r[k].paper && r[k].paper["id"] in lookup
                && r[k].score == GetPaperRelevanceScore(profile, lookup[r[k].paper["id"]])
    {
      if |candidates| == 0 then []
      else
        var n := |candidates| - 1;
        var c := candidates[n];
        var prefix := ScoreCandidates(profile, candidates[..n], lookup);
        assert forall k :: 0 <= k < |prefix| ==> prefix[k].paper in candidates;
        var d := ScoreOf(profile, c, lookup);
        if d.Some? then prefix + [d.value] else prefix
    }

    /** The outcome of the scoring loop for each candidate, position by position. */
    ghost function ScoreOutcomes(profile: Vector, candidates: seq<Record>, lookup: map<Value, Vector>)
      : (ds: seq<Option<ScoredPaper>>)
      ensures |ds| == |candidates|
    {
      if |candidates| == 0 then []
      else ScoreOutcomes(profile, candidates[..|candidates| - 1], lookup) + [ScoreOf(profile, candidates[|candidates| - 1], lookup)]
    }

    lemma {:induction false} ScoreOutcomesAt(profile: Vector, candidates: seq<Record>, lookup: map<Value, Vector>, i: nat)
      requires i < |candidates|
      ensures ScoreOutcomes(profile, candidates, lookup)[i] == ScoreOf(profile, candidates[i], lookup)
    {
      var n := |candidates| - 1;
      if i < n {
        ScoreOutcomesAt(profile, candidates[..n], lookup, i);
      }
    }

    /**
     * The scored papers are the scorable candidates, each once and in the order of
     * the candidates, with their scores.
     */
    lemma {:induction false} ScoreCandidatesInOrder(profile: Vector, candidates: seq<Record>, lookup: map<Value, Vector>)
      ensures exists idx :: PicksSome(ScoreOutcomes(profile, candidates, lookup), ScoreCandidates(profile, candidates, lookup), idx)
    {
      if |candidates| == 0 {
        assert PicksSome(ScoreOutcomes(profile, candidates, lookup), ScoreCandidates(profile, candidates, lookup), []);
      } else {
        var n := |candidates| - 1;
        var init := candidates[..n];
        ScoreCandidatesInOrder(profile, init, lookup);
        var idx :| PicksSome(ScoreOutcomes(profile, init, lookup), ScoreCandidates(profile, init, lookup), idx);
        var d := ScoreOf(profile, candidates[n], lookup);
        PicksSomeAppend(ScoreOutcomes(profile, init, lookup), ScoreCandidates(profile, init, lookup), idx, d);
        assert ScoreOutcomes(profile, candidates, lookup) == ScoreOutcomes(profile, init, lookup) + [d];
        assert ScoreCandidates(profile, candidates, lookup) ==
               ScoreCandidates(profile, init, lookup) + (if d.Some? then [d.value] else []);
        assert PicksSome(ScoreOutcomes(profile, candidates, lookup), ScoreCandidates(profile, candidates, lookup),
                         idx + (if d.Some? then [n] else []));
      }
    }

    /**
     * Every candidate with an `id` and a known embedding comes back from the ranking,
     * with its original fields and its relevance score added.
     */
    lemma RecommendsEveryScorable(profile: Vector, candidates: seq<Record>, lookup: map<Value, Vector>, i: int)
      requires 0 <= i < |candidates| && Scorable(candidates[i], lookup)
      ensures AsRecord(ScoredPaper(candidates[i], GetPaperRelevanceScore(profile, lookup[candidates[i]["id"]])))
              in AsRecords(SortByScore(ScoreCandidates(profile, candidates, lookup)))
    {
      var scored := ScoreCandidates(profile, candidates, lookup);
      var outcomes := ScoreOutcomes(profile, candidates, lookup);
      ScoreCandidatesInOrder(profile, candidates, lookup);
      var idx :| PicksSome(outcomes, scored, idx);
      ScoreOutcomesAt(profile, candidates, lookup, i);
      var c := candidates[i];
      var x := ScoredPaper(c, GetPaperRelevanceScore(profile, lookup[c["id"]]));
      assert outcomes[i] == Some(x);
      var k :| 0 <= k < |idx| && idx[k] == i;
      assert scored[k] == x;
      var sorted := SortByScore(scored);
      assert x in multiset(sorted);
      var j :| 0 <= j < |sorted| && sorted[j] == x;
      var r := AsRecords(sorted);
      assert 0 <= j < |r| && r[j] == AsRecord(x);
    }

    /** The scoring loop of `get_paper_recommendations`, one candidate at a time. */
    method ScoreAll(profile: Vector, candidates: seq<Record>, lookup: map<Value, Vector>)
      returns (scored: seq<ScoredPaper>)
      ensures scored == ScoreCandidates(profile, candidates, lookup)
    {
      scored := [];
      var i := 0;
      while i < |candidates|
        invariant 0 <= i <= |candidates|
        invariant scored == ScoreCandidates(profile, candidates[..i], lookup)
      {
        assert candidates[..i + 1][..i] == candidates[..i];
        var paper := candidates[i];
        if "id" in paper && paper["id"] in lookup {
          var score := GetPaperRelevanceScore(profile, lookup[paper["id"]]);
          scored := scored + [ScoredPaper(paper, score)];
        }
        i := i + 1;
      }
      assert candidates[..i] == candidates;
    }

    /**
     * `get_paper_recommendations`: [] for an empty user id or candidate list; otherwise
     * the scored candidates with their original fields plus `relevance_score`, highest
     * score first.
     */
    method GetPaperRecommendations(userId: string, candidates: seq<Record>, record: Option<ProfileRecord>,
                                   fallback: Vector, lookup: map<Value, Vector>)
      returns (r: seq<Record>)
      requires |fallback| == embeddingDim
      ensures userId == "" || candidates == [] ==> r == []
      ensures userId != "" && candidates != [] ==>
              r == AsRecords(SortByScore(ScoreCandidates(GetUserEmbedding(record, fallback), candidates, lookup)))
      ensures |r| <= |candidates|
      ensures forall k :: 0 <= k < |r| ==>
                RelevanceKey in r[k] && r[k][RelevanceKey].Num? && 0.0 <= r[k][RelevanceKey].x <= 1.0
      ensures forall i, j :: 0 <= i < j < |r| ==> r[i][RelevanceKey].x >= r[j][RelevanceKey].x
    {
      if userId == "" || candidates == [] {
        return [];
      }
      var profile := GetUserEmbedding(record, fallback);
      var scored := ScoreAll(profile, candidates, lookup);
      var sorted := SortByScore(scored);
      assert |sorted| == |scored| by {
        assert |multiset(sorted)| == |multiset(scored)|;
      }
      forall k | 0 <= k < |sorted| ensures 0.0 <= sorted[k].score <= 1.0 {
        assert sorted[k] in multiset(scored);
      }
      r := AsRecords(sorted);
    }
  }
}
