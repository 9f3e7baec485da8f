/**
 * Feature tokens of fractal codes and the Tversky ratio between two sets of
 * codes (Agent.getFractalFeatures and Agent.calculateSimilarity).
 */
module FeatureSimilarity {
  import opened Wrappers
  import opened Representation
  import opened Statistics

  /**
   * A feature token. The source builds strings whose first letter (S, D, T, R
   * or C) names the field the token comes from, so tokens of different fields
   * never coincide; the constructor plays the part of that letter. A field that
   * is `null` still yields a token (string concatenation prints "null"), except
   * the two origins, whose `toString` would fail on `null`.
   */
  datatype Token =
    | SourceToken(origin: Origin)
    | DestinationToken(origin: Origin)
    | TransformToken(transform: Option<Transform>)
    | RegionToken(size: Option<int>)
    | ContractionToken(contraction: Option<real>)

  /** The code names both origins, so that its features can be taken. */
  predicate HasOrigins(c: FractalCode) {
    c.source.Some? && c.destination.Some?
  }

  predicate AllHaveOrigins(codes: set<FractalCode>) {
    forall c :: c in codes ==> HasOrigins(c)
  }

  /**
   * `getFractalFeatures`: one token per field. The five tokens are pairwise
   * distinct, so a code always contributes exactly five features.
   */
  function Features(c: FractalCode): (f: set<Token>)
    requires HasOrigins(c)
    ensures |f| == 5
  {
    var s, d, t, r, k := SourceToken(c.source.value), DestinationToken(c.destination.value),
      TransformToken(c.transform), RegionToken(c.regionSize), ContractionToken(c.contraction);
    assert |{s}| == 1;
    assert |{s, d}| == 2 by { assert {s, d} == {s} + {d}; }
    assert |{s, d, t}| == 3 by { assert {s, d, t} == {s, d} + {t}; }
    assert |{s, d, t, r}| == 4 by { assert {s, d, t, r} == {s, d, t} + {r}; }
    assert {s, d, t, r, k} == {s, d, t, r} + {k};
    {s, d, t, r, k}
  }

  /** The features keep every field, so two codes with the same features are the same code. */
  lemma FeaturesDetermineCode(c: FractalCode, e: FractalCode)
    requires HasOrigins(c) && HasOrigins(e)
    ensures Features(c) == Features(e) <==> c == e
  {
    if Features(c) == Features(e) {
      assert SourceToken(c.source.value) in Features(e);
      assert DestinationToken(c.destination.value) in Features(e);
      assert TransformToken(c.transform) in Features(e);
      assert RegionToken(c.regionSize) in Features(e);
      assert ContractionToken(c.contraction) in Features(e);
    }
  }

  /** The features of a set of codes: the union of the features of its codes. */
  function FeatureSet(codes: set<FractalCode>): set<Token>
    requires AllHaveOrigins(codes)
  {
    set c, t | c in codes && t in Features(c) :: t
  }

  lemma FeatureSetUnion(a: set<FractalCode>, b: set<FractalCode>)
    requires AllHaveOrigins(a) && AllHaveOrigins(b)
    ensures AllHaveOrigins(a + b)
    ensures FeatureSet(a + b) == FeatureSet(a) + FeatureSet(b)
  {
  }

  /** A non-empty set of codes has at least five features. */
  lemma FeatureSetNonEmpty(codes: set<FractalCode>)
    requires AllHaveOrigins(codes) && codes != {}
    ensures |FeatureSet(codes)| >= 5
  {
    var c :| c in codes;
    assert Features(c) <= FeatureSet(codes);
    SubsetSize(Features(c), FeatureSet(codes));
  }

  lemma SubsetSize<T>(a: set<T>, b: set<T>)
    requires a <= b
    ensures |a| <= |b|
  {
    assert b == a + (b - a);
  }

  /**
   * The loops `for (fractal : fractalSet) features.addAll(getFractalFeatures(fractal))`
   * of `calculateSimilarity`, visiting the codes in some order.
   */
  method CollectFeatures(codes: set<FractalCode>) returns (features: set<Token>)
    requires AllHaveOrigins(codes)
    ensures features == FeatureSet(codes)
  {
    features := {};
    var rest := codes;
    while rest != {}
      invariant rest <= codes
      invariant features == FeatureSet(codes - rest)
      decreases |rest|
    {
      var c :| c in rest;
      FeatureSetUnion(codes - rest, {c});
      assert codes - (rest - {c}) == (codes - rest) + {c};
      features := features + Features(c);
      rest := rest - {c};
    }
    assert codes - rest == codes;
  }

  /** Weight of the features only the first set has. */
  const Alpha: real := 2.0
  /** Weight of the features only the second set has. */
  const Beta: real := 1.0

  /**
   * Every feature of either set is common or belongs to that set alone:
   * |F1| = common + onlyFirst and |F2| = common + onlySecond.
   */
  lemma SplitCounts<T>(f1: set<T>, f2: set<T>)
    ensures |f1| == |f1 * f2| + |f1 - f2|
    ensures |f2| == |f1 * f2| + |f2 - f1|
  {
    assert f1 == (f1 * f2) + (f1 - f2);
    assert (f1 * f2) * (f1 - f2) == {};
    assert f2 == (f1 * f2) + (f2 - f1);
    assert (f1 * f2) * (f2 - f1) == {};
  }

  /**
   * The Tversky ratio common / (common + 2 * onlyFirst + 1 * onlySecond). Both
   * sets empty would make it 0 / 0, so at least one must have a feature.
   */
  function Tversky(f1: set<Token>, f2: set<Token>): (r: real)
    requires f1 != {} || f2 != {}
    ensures 0.0 <= r <= 1.0
  {
    SplitCounts(f1, f2);
    var common, onlyFirst, onlySecond := |f1 * f2| as real, |f1 - f2| as real, |f2 - f1| as real;
    Ratio(common, common + Alpha * onlyFirst + Beta * onlySecond);
    common / (common + Alpha * onlyFirst + Beta * onlySecond)
  }

  /** The ratio is 1 exactly when the two feature sets are the same. */
  lemma TverskyOne(f1: set<Token>, f2: set<Token>)
    requires f1 != {} || f2 != {}
    ensures Tversky(f1, f2) == 1.0 <==> f1 == f2
  {
    SplitCounts(f1, f2);
    var common, onlyFirst, onlySecond := |f1 * f2| as real, |f1 - f2| as real, |f2 - f1| as real;
    var total := common + Alpha * onlyFirst + Beta * onlySecond;
    Ratio(common, total);
    if f1 == f2 {
      assert f1 - f2 == {} && f2 - f1 == {};
    } else {
      assert f1 - f2 != {} || f2 - f1 != {};
      assert common < total;
    }
  }

  /** The ratio is 0 exactly when the two feature sets share nothing. */
  lemma TverskyZero(f1: set<Token>, f2: set<Token>)
    requires f1 != {} || f2 != {}
    ensures Tversky(f1, f2) == 0.0 <==> f1 * f2 == {}
  {
    SplitCounts(f1, f2);
    var common, onlyFirst, onlySecond := |f1 * f2| as real, |f1 - f2| as real, |f2 - f1| as real;
    Ratio(common, common + Alpha * onlyFirst + Beta * onlySecond);
  }

  /**
   * The weights are asymmetric: a feature only the first set has costs twice
   * as much as one only the second set has.
   */
  lemma TverskyWeights(a: Token, b: Token)
    requires a != b
    ensures Tversky({a, b}, {a}) == 1.0 / 3.0
    ensures Tversky({a}, {a, b}) == 1.0 / 2.0
  {
    assert {a, b} * {a} == {a} && {a, b} - {a} == {b} && {a} - {a, b} == {};
    assert {a} * {a, b} == {a};
  }

  lemma FeatureSetsNotBothEmpty(fractalSet1: set<FractalCode>, fractalSet2: set<FractalCode>)
    requires AllHaveOrigins(fractalSet1) && AllHaveOrigins(fractalSet2)
    requires fractalSet1 != {} || fractalSet2 != {}
    ensures FeatureSet(fractalSet1) != {} || FeatureSet(fractalSet2) != {}
  {
    if fractalSet1 != {} {
      FeatureSetNonEmpty(fractalSet1);
    } else {
      FeatureSetNonEmpty(fractalSet2);
    }
  }

  /** `calculateSimilarity` on two sets of codes, not both empty. */
  function Similarity(fractalSet1: set<FractalCode>, fractalSet2: set<FractalCode>): (r: real)
    requires AllHaveOrigins(fractalSet1) && AllHaveOrigins(fractalSet2)
    requires fractalSet1 != {} || fractalSet2 != {}
    ensures 0.0 <= r <= 1.0
  {
    FeatureSetsNotBothEmpty(fractalSet1, fractalSet2);
    Tversky(FeatureSet(fractalSet1), FeatureSet(fractalSet2))
  }

  /**
   * Second half of `calculateSimilarity`: `set1` keeps the common features
   * (`retainAll`), `set2` and `set3` those of one set only (`removeAll`), and
   * the result is their weighted ratio. It is specified by `Tversky`.
   */
  method TverskyRatio(features1: set<Token>, features2: set<Token>) returns (r: real)
    requires features1 != {} || features2 != {}
    ensures r == Tversky(features1, features2)
  {
    var set1 := features1 * features2;
    var set2 := features1 - features2;
    var set3 := features2 - features1;
    assert 0.0 < |set1| as real + Alpha * |set2| as real + Beta * |set3| as real by {
      SplitCounts(features1, features2);
    }
    r := |set1| as real / (|set1| as real + Alpha * |set2| as real + Beta * |set3| as real);
  }

  /**
   * `calculateSimilarity`: collect the features of both sets, then take the
   * Tversky ratio of the two feature sets.
   */
  method CalculateSimilarity(fractalSet1: set<FractalCode>, fractalSet2: set<FractalCode>) returns (r: real)
    requires AllHaveOrigins(fractalSet1) && AllHaveOrigins(fractalSet2)
    requires fractalSet1 != {} || fractalSet2 != {}
    ensures r == Similarity(fractalSet1, fractalSet2)
  {
    var features1 := CollectFeatures(fractalSet1);
    var features2 := CollectFeatures(fractalSet2);
    FeatureSetsNotBothEmpty(fractalSet1, fractalSet2);
    r := TverskyRatio(features1, features2);
  }

  /**
   * Two sets of codes that both hold a code for the same destination fragment
   * share that feature, so their similarity is positive.
   */
  lemma SharedDestinationSimilar(fractalSet1: set<FractalCode>, fractalSet2: set<FractalCode>, o: Origin)
    requires AllHaveOrigins(fractalSet1) && AllHaveOrigins(fractalSet2)
    requires exists c :: c in fractalSet1 && c.destination == Some(o)
    requires exists c :: c in fractalSet2 && c.destination == Some(o)
    ensures Similarity(fractalSet1, fractalSet2) > 0.0
  {
    var c1 :| c1 in fractalSet1 && c1.destination == Some(o);
    var c2 :| c2 in fractalSet2 && c2.destination == Some(o);
    assert DestinationToken(o) in Features(c1) && DestinationToken(o) in Features(c2);
    var f1, f2 := FeatureSet(fractalSet1), FeatureSet(fractalSet2);
    assert DestinationToken(o) in f1 * f2;
    TverskyZero(f1, f2);
  }
}
