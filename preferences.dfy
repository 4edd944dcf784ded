/**
 * `update_user_preferences` of backend/app/services/db_service.py: a user's category
 * weights, updated by deltas, pruned, capped at thirty categories and normalised.
 */
module Preferences {
  import opened Wrappers
  import Interactions

  type Weights = map<string, real>

  const MaxCategories: nat := 30

  /** Some element of a non-empty set. */
  ghost function Pick(s: set<string>): (x: string)
    requires s != {}
    ensures x in s
  {
    var x :| x in s; x
  }

  /** The sum of all weights. */
  ghost function Sum(m: Weights): real
    decreases |m|
  {
    if |m| == 0 then 0.0
    else
      var k := Pick(m.Keys);
      assert (m - {k}).Keys == m.Keys - {k};
      m[k] + Sum(m - {k})
  }

  /** The sum may be split at any key, not only the one `Sum` happens to pick. */
  lemma {:induction false} SumRemove(m: Weights, k: string)
    requires k in m
    ensures Sum(m) == m[k] + Sum(m - {k})
    decreases |m|
  {
    var j := Pick(m.Keys);
    if j != k {
      var mj, mk := m - {j}, m - {k};
      assert mj.Keys == m.Keys - {j} && mk.Keys == m.Keys - {k};
      SumRemove(mj, k);
      SumRemove(mk, j);
      assert mj - {k} == mk - {j};
    }
  }

  /** Existing categories move by their delta; unknown ones are created only for a positive delta. */
  function Apply(w: Weights, updates: Weights): (r: Weights)
    ensures r.Keys == w.Keys + set c | c in updates && updates[c] > 0.0
    ensures forall c :: c in w ==> r[c] == w[c] + (if c in updates then updates[c] else 0.0)
    ensures forall c :: c in r && c !in w ==> r[c] == updates[c] > 0.0
  {
    map c | c in w.Keys + updates.Keys && (c in w || updates[c] > 0.0) ::
      if c in w then w[c] + (if c in updates then updates[c] else 0.0) else updates[c]
  }

  /** Categories whose weight is not positive are deleted. */
  function Prune(w: Weights): (r: Weights)
    ensures r.Keys == set c | c in w && w[c] > 0.0
    ensures forall c :: c in r ==> r[c] == w[c]
  {
    map c | c in w && w[c] > 0.0 :: w[c]
  }

  /**
   * `kept` is what remains of `w` after deleting all but the `limit` heaviest
   * categories: its weights are those of `w`, it has `min(limit, |w|)` entries, and no
   * deleted category is heavier than a kept one.
   */
  predicate IsTopSelection(w: Weights, kept: Weights, limit: nat)
  {
    && kept.Keys <= w.Keys
    && (forall c :: c in kept ==> kept[c] == w[c])
    && |kept| == (if |w| <= limit then |w| else limit)
    && forall c, d :: c in kept && d in w && d !in kept ==> w[d] <= kept[c]
  }

  /** A key of least weight. */
  method MinKey(m: Weights) returns (k: string)
    requires |m| > 0
    ensures k in m && forall c :: c in m ==> m[k] <= m[c]
  {
    var rest := m.Keys;
    k :| k in rest;
    rest := rest - {k};
    while rest != {}
      invariant rest <= m.Keys && k in m
      invariant forall c :: c in m && c !in rest ==> m[k] <= m[c]
      decreases |rest|
    {
      var c :| c in rest;
      if m[c] < m[k] {
        k := c;
      }
      rest := rest - {c};
    }
  }

  /** The sorted-and-sliced deletion: lightest categories are deleted until `limit` remain. */
  method KeepTop(w: Weights, limit: nat) returns (kept: Weights)
    ensures IsTopSelection(w, kept, limit)
  {
    kept := w;
    while |kept| > limit
      invariant kept.Keys <= w.Keys
      invariant forall c :: c in kept ==> kept[c] == w[c]
      invariant |kept| >= limit || kept == w
      invariant forall c, d :: c in kept && d in w && d !in kept ==> w[d] <= kept[c]
      decreases |kept|
    {
      var k := MinKey(kept);
      assert (kept - {k}).Keys == kept.Keys - {k};
      kept := kept - {k};
    }
  }

  /** Every weight divided by the total, when the total is positive. */
  ghost function Normalize(w: Weights): (r: Weights)
    ensures r.Keys == w.Keys
  {
    var total := Sum(w);
    if total > 0.0 then map c | c in w :: w[c] / total else w
  }

  function Scaled(w: Weights, t: real): Weights
    requires t > 0.0
  {
    map c | c in w :: w[c] / t
  }

  lemma {:induction false} SumScaled(w: Weights, t: real)
    requires t > 0.0
    ensures Sum(Scaled(w, t)) == Sum(w) / t
    decreases |w|
  {
    if |w| == 0 {
      assert Scaled(w, t) == map[];
      assert 0.0 / t == 0.0;
    } else {
      var k := Pick(w.Keys);
      var rest := w - {k};
      SumRemove(w, k);
      ScaledSplit(w, t, k);
      SumScaled(rest, t);
      DivAdd(w[k], Sum(rest), t);
    }
  }

  /** Scaling commutes with removing a key, so the scaled sum splits like the sum. */
  lemma ScaledSplit(w: Weights, t: real, k: string)
    requires t > 0.0 && k in w
    ensures Sum(Scaled(w, t)) == w[k] / t + Sum(Scaled(w - {k}, t))
  {
    var s := Scaled(w, t);
    SumRemove(s, k);
    assert s - {k} == Scaled(w - {k}, t);
  }

  lemma {:induction false} SumPositive(w: Weights)
    requires |w| > 0 && forall c :: c in w ==> w[c] > 0.0
    ensures Sum(w) > 0.0
    decreases |w|
  {
    var k :| k in w;
    SumRemove(w, k);
    if |w - {k}| > 0 {
      SumPositive(w - {k});
    }
  }

  lemma DivAdd(a: real, b: real, t: real)
    requires t > 0.0
    ensures a / t + b / t == (a + b) / t
  {
  }

  lemma DivSelf(t: real)
    requires t > 0.0
    ensures t / t == 1.0
  {
  }

  lemma FractionAtMostOne(a: real, t: real)
    requires 0.0 < a <= t
    ensures 0.0 < a / t <= 1.0
  {
  }

  /** Positive weights normalise to a distribution: each in (0, 1] and summing to one. */
  lemma NormalizedIsDistribution(w: Weights)
    requires |w| > 0 && forall c :: c in w ==> w[c] > 0.0
    ensures Sum(Normalize(w)) == 1.0
    ensures forall c :: c in w ==> 0.0 < Normalize(w)[c] <= 1.0
  {
    SumPositive(w);
    var t := Sum(w);
    var n := Normalize(w);
    assert n == Scaled(w, t);
    SumScaled(w, t);
    DivSelf(t);
    forall c | c in w
      ensures 0.0 < n[c] <= 1.0
    {
      assert n[c] == w[c] / t;
      SumRemove(w, c);
      if |w - {c}| > 0 {
        SumPositive(w - {c});
      }
      assert w[c] <= t;
      FractionAtMostOne(w[c], t);
    }
  }

  /** The sum, accumulated one category at a time. */
  method Total(w: Weights) returns (total: real)
    ensures total == Sum(w)
  {
    total := 0.0;
    var rest := w;
    while |rest| > 0
      invariant rest.Keys <= w.Keys && forall c :: c in rest ==> rest[c] == w[c]
      invariant total + Sum(rest) == Sum(w)
      decreases |rest|
    {
      var c :| c in rest;
      SumRemove(rest, c);
      total := total + rest[c];
      rest := rest - {c};
    }
  }

  /** The category weights after an update, as `update_user_preferences` leaves them. */
  ghost predicate IsUpdate(w: Weights, updates: Weights, r: Weights)
  {
    exists kept :: IsTopSelection(Prune(Apply(w, updates)), kept, MaxCategories) && r == Normalize(kept)
  }

  /**
   * The category preferences of one user. A user without a preference row starts
   * with no categories.
   */
  class UserPreferences {
    var weights: Weights

    constructor()
      ensures weights == map[]
    {
      weights := map[];
    }

    /**
     * `update_user_preferences`: apply the deltas, delete non-positive categories,
     * keep the thirty heaviest and normalise; returns the new weights.
     */
    method UpdateUserPreferences(updates: Weights) returns (r: Weights)
      modifies this
      ensures weights == r && IsUpdate(old(weights), updates, r)
    {
      var pruned := Prune(Apply(weights, updates));
      var kept := KeepTop(pruned, MaxCategories);
      var total := Total(kept);
      if total > 0.0 {
        weights := map c | c in kept :: kept[c] / total;
      } else {
        weights := kept;
      }
      r := weights;
    }

    /**
     * `interac_with_paper`: the paper's category deltas for the interaction, applied as
     * an update. An unknown interaction name fails before anything changes.
     */
    method InteractWithPaper(paper: Interactions.CategorizedPaper, name: string) returns (r: Result<Weights>)
      modifies this
      ensures r.Err? <==> Interactions.UserInteraction(name).Err?
      ensures r.Err? ==> weights == old(weights)
      ensures r.Ok? ==> weights == r.value
      ensures r.Ok? ==> IsUpdate(old(weights), Interactions.UserPaperInteraction(paper, name).value, r.value)
    {
      var deltas := Interactions.UserPaperInteraction(paper, name);
      if deltas.Err? {
        return Err(deltas.error);
      }
      var w := UpdateUserPreferences(deltas.value);
      r := Ok(w);
    }
  }

  /**
   * Whatever the deltas, the result has at most thirty categories, each with a weight
   * in (0, 1], and the weights sum to one unless no category survives.
   */
  lemma UpdateIsBoundedDistribution(w: Weights, updates: Weights, r: Weights)
    requires IsUpdate(w, updates, r)
    ensures |r| <= MaxCategories
    ensures forall c :: c in r ==> 0.0 < r[c] <= 1.0
    ensures |r| > 0 ==> Sum(r) == 1.0
  {
    var kept :| IsTopSelection(Prune(Apply(w, updates)), kept, MaxCategories) && r == Normalize(kept);
    if |kept| > 0 {
      NormalizedIsDistribution(kept);
    }
  }

  /** A category with a non-positive resulting weight never survives an update. */
  lemma NonPositiveIsDeleted(w: Weights, updates: Weights, r: Weights, c: string)
    requires IsUpdate(w, updates, r)
    requires c in Apply(w, updates) && Apply(w, updates)[c] <= 0.0
    ensures c !in r
  {
  }

  /** A positive delta on a category the user never had creates it, when fewer than thirty exist. */
  lemma NewPositiveCategorySurvives(w: Weights, updates: Weights, r: Weights, c: string)
    requires IsUpdate(w, updates, r)
    requires c !in w && c in updates && updates[c] > 0.0
    requires |Prune(Apply(w, updates))| <= MaxCategories
    ensures c in r
  {
    var kept :| IsTopSelection(Prune(Apply(w, updates)), kept, MaxCategories) && r == Normalize(kept);
    var p := Prune(Apply(w, updates));
    assert kept.Keys == p.Keys by {
      SubsetOfEqualSize(kept.Keys, p.Keys);
    }
  }

  lemma {:induction false} SubsetOfEqualSize(a: set<string>, b: set<string>)
    requires a <= b && |a| == |b|
    ensures a == b
  {
    if a != b {
      var x :| x in b && x !in a;
      assert a <= b - {x};
      SubsetSize(a, b - {x});
    }
  }

  lemma SubsetSize(a: set<string>, b: set<string>)
    requires a <= b
    ensures |a| <= |b|
  {
    if a != {} {
      var x :| x in a;
      SubsetSize(a - {x}, b - {x});
    }
  }
}
