/**
 * The Agent's fractal algorithm for 2x2 and 3x3 Raven's Progressive Matrices.
 * Each relationship between figures (a row or a column of the matrix) is the
 * mutual fractal representation of its figures; every candidate answer is
 * scored by how similar the relationships it completes are to those the
 * matrix already shows, and the best-scoring candidate is the answer.
 */
module Agent {
  import opened Wrappers
  import opened Representation
  import opened Fractals
  import opened MutualFractals
  import opened FeatureSimilarity
  import opened Statistics

  // ---------------------------------------------------------------------------
  // Mutual representations of two and of three figures
  // ---------------------------------------------------------------------------

  /**
   * `getMutualFractals`: the codes of each image encoded from the other,
   * gathered into one set.
   */
  method GetMutualFractals(p: Platform, image1: Matrix, image2: Matrix, abstractionLevel: int)
    returns (fractals: set<FractalCode>)
    requires ValidPlatform(p) && MutualGeometry(image1, image2, abstractionLevel)
    ensures fractals == Mutual(p, image1, image2, abstractionLevel)
  {
    fractals := {};
    var forward := FractalsCommand(image1, image2, abstractionLevel).Execute(p);
    fractals := fractals + forward;
    var backward := FractalsCommand(image2, image1, abstractionLevel).Execute(p);
    fractals := fractals + backward;
  }

  // ---------------------------------------------------------------------------
  // The Agent's own copy of the encoder, as written
  // ---------------------------------------------------------------------------

  /**
   * `Agent.rotateImage` on a reference that may be null (`None`). It reads the
   * image's height before anything else, so a null image raises an exception,
   * written `None` for the result.
   */
  function RotateImageAsWritten(p: Platform, image: Option<Matrix>, rotation: Transform): Option<Matrix>
    requires ValidPlatform(p) && (image.Some? ==> IsSquare(image.value))
  {
    if image.None? then None else Some(Transformed(p, rotation, image.value))
  }

  /**
   * `Agent.reflectYNX` (`rotation` R90) and `Agent.reflectYX` (R270) as
   * written: the rotation is applied to the local `result`, still null, not to
   * the image; only then is the image flipped vertically.
   */
  function ReflectAsWritten(p: Platform, image: Matrix, rotation: Transform): Option<Matrix>
    requires ValidPlatform(p) && IsSquare(image)
  {
    var result: Option<Matrix> := None;
    var rotated := RotateImageAsWritten(p, result, rotation);
    if rotated.None? then None else Some(Transformed(p, VFlip, image))
  }

  /** Entry `t` of the transformation table that `Agent.getFractals` fills for one source fragment. */
  function AgentTransformAsWritten(p: Platform, t: Transform, fragment: Matrix): Option<Matrix>
    requires ValidPlatform(p) && IsSquare(fragment)
  {
    match t
    case Identity => Some(fragment)
    case ReflYNX => ReflectAsWritten(p, fragment, R90)
    case ReflYX => ReflectAsWritten(p, fragment, R270)
    case _ => Some(Transformed(p, t, fragment))
  }

  /**
   * The first `n` entries of that table, filled in insertion order; `None` as
   * soon as filling one of them raises an exception.
   */
  function AgentTransformTableAsWritten(p: Platform, fragment: Matrix, n: nat): Option<seq<Matrix>>
    requires ValidPlatform(p) && IsSquare(fragment) && n <= |Transforms|
  {
    if n == 0 then Some([])
    else
      var table := AgentTransformTableAsWritten(p, fragment, n - 1);
      var entry := AgentTransformAsWritten(p, Transforms[n - 1], fragment);
      if table.None? || entry.None? then None else Some(table.value + [entry.value])
  }

  /**
   * For every source fragment, `Agent.getFractals` fills the first six entries
   * of its table and then raises an exception on `reflYNX`. The first source
   * fragment is visited as soon as the grid has one fragment, so with any
   * abstraction level the call never returns a set of codes, and neither do
   * `getMutualFractals` and the two `executeFractalAlgorithm` methods that
   * call it. `GetMutualFractals` uses the `FractalsCommand` encoder instead,
   * whose reflections do rotate the fragment.
   */
  lemma {:induction false} AgentTransformTableThrows(p: Platform, fragment: Matrix)
    requires ValidPlatform(p) && IsSquare(fragment)
    ensures AgentTransformTableAsWritten(p, fragment, 6).Some?
    ensures AgentTransformTableAsWritten(p, fragment, 7) == None
    ensures AgentTransformTableAsWritten(p, fragment, |Transforms|) == None
  {
    var n := 0;
    while n < 6
      invariant 0 <= n <= 6
      invariant AgentTransformTableAsWritten(p, fragment, n).Some?
    {
      n := n + 1;
    }
    assert AgentTransformAsWritten(p, Transforms[6], fragment) == None;
    assert AgentTransformTableAsWritten(p, fragment, 8) == None;
  }

  /** The mutual representations of the three pairs (1, 2), (2, 3) and (1, 3), together. */
  function MutualThree(p: Platform, a: Matrix, b: Matrix, c: Matrix, k: int): set<FractalCode>
    requires ValidPlatform(p) && MutualGeometry(a, b, k) && MutualGeometry(a, c, k)
  {
    Mutual(p, a, b, k) + Mutual(p, b, c, k) + Mutual(p, a, c, k)
  }

  /**
   * The three-figure representation takes every pair of the figures in both
   * directions, so it does not depend on the order the figures are given in.
   */
  lemma MutualThreeSymmetric(p: Platform, a: Matrix, b: Matrix, c: Matrix, k: int)
    requires ValidPlatform(p) && MutualGeometry(a, b, k) && MutualGeometry(a, c, k)
    ensures MutualGeometry(b, a, k) && MutualGeometry(b, c, k)
    ensures MutualThree(p, a, b, c, k) == MutualThree(p, b, a, c, k)
    ensures MutualThree(p, a, b, c, k) == MutualThree(p, a, c, b, k)
  {
    MutualSymmetric(p, a, b, k);
    MutualSymmetric(p, b, c, k);
    MutualSymmetric(p, a, c, k);
  }

  /** The three-figure representation contains each of its pairwise representations. */
  lemma MutualThreeContainsPairs(p: Platform, a: Matrix, b: Matrix, c: Matrix, k: int)
    requires ValidPlatform(p) && MutualGeometry(a, b, k) && MutualGeometry(a, c, k)
    ensures Mutual(p, a, b, k) <= MutualThree(p, a, b, c, k)
    ensures Mutual(p, b, c, k) <= MutualThree(p, a, b, c, k)
    ensures Mutual(p, a, c, k) <= MutualThree(p, a, b, c, k)
  {
  }

  /**
   * Each pairwise representation holds at most two codes per fragment, so the
   * three-figure one holds at most six.
   */
  lemma MutualThreeBounds(p: Platform, a: Matrix, b: Matrix, c: Matrix, k: int)
    requires ValidPlatform(p) && MutualGeometry(a, b, k) && MutualGeometry(a, c, k)
    ensures k * k <= |MutualThree(p, a, b, c, k)| <= 6 * k * k
  {
    MutualBounds(p, a, b, k);
    MutualBounds(p, b, c, k);
    MutualBounds(p, a, c, k);
    UnionOfThreeBounds(Mutual(p, a, b, k), Mutual(p, b, c, k), Mutual(p, a, c, k), k * k, 2 * k * k);
  }

  lemma UnionOfThreeBounds<T>(s: set<T>, t: set<T>, u: set<T>, low: int, high: int)
    requires low <= |s| <= high && |t| <= high && |u| <= high
    ensures low <= |s + t + u| <= 3 * high
  {
    UnionBounds(s, t);
    UnionBounds(s + t, u);
  }

  /**
   * Every code of a three-figure representation names both origins, and some
   * code is the code of destination fragment (0, 0).
   */
  lemma MutualThreeOrigins(p: Platform, a: Matrix, b: Matrix, c: Matrix, k: int)
    requires ValidPlatform(p) && MutualGeometry(a, b, k) && MutualGeometry(a, c, k)
    ensures AllHaveOrigins(MutualThree(p, a, b, c, k))
    ensures exists e :: e in MutualThree(p, a, b, c, k) && e.destination == Some(Origin(0, 0))
  {
    MutualOrigins(p, a, b, k);
    MutualOrigins(p, b, c, k);
    MutualOrigins(p, a, c, k);
    var e :| e in Mutual(p, a, b, k) && e.destination == Some(Origin(0, 0));
    assert e in MutualThree(p, a, b, c, k);
  }

  /** `getMutualFractalsThreeByThree`: the three pairwise representations added one after the other. */
  method GetMutualFractalsThreeByThree(p: Platform, image1: Matrix, image2: Matrix, image3: Matrix, abstractionLevel: int)
    returns (fractals: set<FractalCode>)
    requires ValidPlatform(p)
    requires MutualGeometry(image1, image2, abstractionLevel) && MutualGeometry(image1, image3, abstractionLevel)
    ensures fractals == MutualThree(p, image1, image2, image3, abstractionLevel)
  {
    fractals := {};
    var first := GetMutualFractals(p, image1, image2, abstractionLevel);
    fractals := fractals + first;
    var second := GetMutualFractals(p, image2, image3, abstractionLevel);
    fractals := fractals + second;
    var third := GetMutualFractals(p, image1, image3, abstractionLevel);
    fractals := fractals + third;
  }

  // ---------------------------------------------------------------------------
  // Problems and their geometry
  // ---------------------------------------------------------------------------

  /** A candidate answer: the number its figure is named by, and its image. */
  datatype Candidate = Candidate(number: int, image: Matrix)

  /**
   * A 2x2 problem: figures A and B on the first row, C below A, and the
   * candidate answers for the missing figure, in the order the figures are visited.
   */
  datatype TwoByTwo = TwoByTwo(a: Matrix, b: Matrix, c: Matrix, candidates: seq<Candidate>)

  /** A 3x3 problem: figures A to H row by row, and the candidate answers for the ninth. */
  datatype ThreeByThree = ThreeByThree(
    a: Matrix, b: Matrix, c: Matrix,
    d: Matrix, e: Matrix, f: Matrix,
    g: Matrix, h: Matrix,
    candidates: seq<Candidate>)

  /**
   * The candidates are named by distinct digit strings, so their numbers are
   * distinct and not negative.
   */
  predicate WellNumbered(candidates: seq<Candidate>) {
    && (forall n :: 0 <= n < |candidates| ==> 0 <= candidates[n].number)
    && (forall m, n :: 0 <= m < n < |candidates| ==> candidates[m].number != candidates[n].number)
  }

  /**
   * Every figure of the problem cuts, at level `k`, into square fragments of the
   * size those of figure A have, so any two figures can be encoded from each other.
   */
  predicate TwoByTwoGrid(q: TwoByTwo, k: int) {
    && MutualGeometry(q.a, q.b, k) && MutualGeometry(q.a, q.c, k)
    && forall n {:trigger MutualGeometry(q.a, q.candidates[n].image, k)} ::
         0 <= n < |q.candidates| ==> MutualGeometry(q.a, q.candidates[n].image, k)
  }

  predicate ThreeByThreeGrid(q: ThreeByThree, k: int) {
    && MutualGeometry(q.a, q.b, k) && MutualGeometry(q.a, q.c, k) && MutualGeometry(q.a, q.d, k)
    && MutualGeometry(q.a, q.e, k) && MutualGeometry(q.a, q.f, k) && MutualGeometry(q.a, q.g, k)
    && MutualGeometry(q.a, q.h, k)
    && forall n {:trigger MutualGeometry(q.a, q.candidates[n].image, k)} ::
         0 <= n < |q.candidates| ==> MutualGeometry(q.a, q.candidates[n].image, k)
  }

  /** The abstraction levels the Agent tries, in order. */
  const AbstractionLevels: seq<int> := [2]

  // ---------------------------------------------------------------------------
  // Scores
  // ---------------------------------------------------------------------------

  /** A relationship of the matrix, and the relationship a candidate completes to compare it with. */
  datatype Comparison = Comparison(relation: set<FractalCode>, answerRelation: set<FractalCode>)

  /**
   * Both relationships name the origins of all their codes, and the first holds
   * a code, so their similarity is defined.
   */
  predicate Comparable(c: Comparison) {
    AllHaveOrigins(c.relation) && AllHaveOrigins(c.answerRelation) && c.relation != {}
  }

  predicate AllComparable(comparisons: seq<Comparison>) {
    forall n :: 0 <= n < |comparisons| ==> Comparable(comparisons[n])
  }

  lemma ComparablePair(c0: Comparison, c1: Comparison)
    requires Comparable(c0) && Comparable(c1)
    ensures AllComparable([c0, c1])
  {
  }

  lemma ComparableQuadruple(c0: Comparison, c1: Comparison, c2: Comparison, c3: Comparison)
    requires Comparable(c0) && Comparable(c1) && Comparable(c2) && Comparable(c3)
    ensures AllComparable([c0, c1, c2, c3])
  {
  }

  /**
   * The similarity vector of a list of comparisons: one similarity per
   * comparison, in order. A list of several comparisons is the vector of its
   * first comparison followed by the vector of the others.
   */
  function SimilarityVector(comparisons: seq<Comparison>): (v: seq<real>)
    requires AllComparable(comparisons)
    ensures |v| == |comparisons|
  {
    if |comparisons| == 0 then []
    else if |comparisons| == 1 then [Similarity(comparisons[0].relation, comparisons[0].answerRelation)]
    else SimilarityVector(comparisons[..1]) + SimilarityVector(comparisons[1..])
  }

  /** Entry `n` of the similarity vector is the similarity of comparison `n`. */
  lemma {:induction false} SimilarityVectorEntries(comparisons: seq<Comparison>)
    requires AllComparable(comparisons)
    ensures forall n :: 0 <= n < |comparisons| ==>
      SimilarityVector(comparisons)[n] == Similarity(comparisons[n].relation, comparisons[n].answerRelation)
  {
    if |comparisons| > 1 {
      var rest := comparisons[1..];
      SimilarityVectorEntries(rest);
      forall n | 0 <= n < |comparisons|
        ensures SimilarityVector(comparisons)[n] == Similarity(comparisons[n].relation, comparisons[n].answerRelation)
      {
        if n > 0 {
          assert rest[n - 1] == comparisons[n];
        }
      }
    }
  }

  /**
   * A list of comparisons whose first relationships are similar has a similarity
   * vector of positive length.
   */
  lemma SimilarityVectorPositive(p: Platform, comparisons: seq<Comparison>)
    requires ValidPlatform(p) && ValidSquare(p) && AllComparable(comparisons) && |comparisons| > 0
    requires Similarity(comparisons[0].relation, comparisons[0].answerRelation) > 0.0
    ensures Norm(p, SimilarityVector(comparisons)) > 0.0
  {
    SimilarityVectorEntries(comparisons);
    NormProperties(p, SimilarityVector(comparisons));
  }

  /**
   * What a 2x2 candidate is compared on: the row A-B against the row
   * C-candidate, and the column A-C against the column B-candidate.
   */
  function TwoByTwoComparisons(p: Platform, q: TwoByTwo, answer: Matrix, k: int): (comparisons: seq<Comparison>)
    requires ValidPlatform(p)
    requires MutualGeometry(q.a, q.b, k) && MutualGeometry(q.a, q.c, k) && MutualGeometry(q.a, answer, k)
    ensures |comparisons| == 2 && AllComparable(comparisons)
  {
    TwoByTwoComparable(p, q, answer, k);
    var horizontal := Comparison(Mutual(p, q.a, q.b, k), Mutual(p, q.c, answer, k));
    var vertical := Comparison(Mutual(p, q.a, q.c, k), Mutual(p, q.b, answer, k));
    ComparablePair(horizontal, vertical);
    [horizontal, vertical]
  }

  /** The score of a 2x2 candidate: the length of its similarity vector. */
  function TwoByTwoScore(p: Platform, q: TwoByTwo, answer: Matrix, k: int): real
    requires ValidPlatform(p)
    requires MutualGeometry(q.a, q.b, k) && MutualGeometry(q.a, q.c, k) && MutualGeometry(q.a, answer, k)
  {
    Norm(p, SimilarityVector(TwoByTwoComparisons(p, q, answer, k)))
  }

  /**
   * Every candidate scores above zero: the row A-B and the row C-candidate both
   * hold a code of destination fragment (0, 0), so they share a feature.
   * This is what makes the division by the best score well defined.
   */
  lemma TwoByTwoScorePositive(p: Platform, q: TwoByTwo, answer: Matrix, k: int)
    requires ValidPlatform(p) && ValidSquare(p)
    requires MutualGeometry(q.a, q.b, k) && MutualGeometry(q.a, q.c, k) && MutualGeometry(q.a, answer, k)
    ensures 0.0 < TwoByTwoScore(p, q, answer, k)
  {
    var comparisons := TwoByTwoComparisons(p, q, answer, k);
    MutualOrigins(p, q.a, q.b, k);
    MutualOrigins(p, q.c, answer, k);
    SharedDestinationSimilar(comparisons[0].relation, comparisons[0].answerRelation, Origin(0, 0));
    SimilarityVectorPositive(p, comparisons);
  }

  /** The candidates of a 2x2 problem with their scores, in order. */
  function TwoByTwoSimilarities(p: Platform, q: TwoByTwo, k: int): (s: seq<Score>)
    requires ValidPlatform(p) && TwoByTwoGrid(q, k)
    ensures |s| == |q.candidates|
  {
    TwoByTwoScores(p, q, k, |q.candidates|)
  }

  /** The first `n` candidates of a 2x2 problem with their scores. */
  function TwoByTwoScores(p: Platform, q: TwoByTwo, k: int, n: nat): (s: seq<Score>)
    requires ValidPlatform(p) && TwoByTwoGrid(q, k) && n <= |q.candidates|
    ensures |s| == n
  {
    if n == 0 then []
    else TwoByTwoScores(p, q, k, n - 1) + [Score(q.candidates[n - 1].number, TwoByTwoScore(p, q, q.candidates[n - 1].image, k))]
  }

  /**
   * Every entry of the first `n` scored candidates carries the number of its
   * own candidate and a positive score.
   */
  lemma {:induction false} TwoByTwoScoresNumbered(p: Platform, q: TwoByTwo, k: int, n: nat)
    requires ValidPlatform(p) && ValidSquare(p) && TwoByTwoGrid(q, k) && n <= |q.candidates|
    ensures forall m :: 0 <= m < n ==>
      TwoByTwoScores(p, q, k, n)[m].candidate == q.candidates[m].number && 0.0 < TwoByTwoScores(p, q, k, n)[m].value
  {
    if n > 0 {
      TwoByTwoScoresNumbered(p, q, k, n - 1);
      TwoByTwoScorePositive(p, q, q.candidates[n - 1].image, k);
    }
  }



  /**
   * What a 3x3 candidate is compared on: rows A-B-C and D-E-F against the row
   * G-H-candidate, and columns A-D-G and B-E-H against the column C-F-candidate.
   */
  function ThreeByThreeComparisons(p: Platform, q: ThreeByThree, answer: Matrix, k: int): (comparisons: seq<Comparison>)
    requires ValidPlatform(p) && ThreeByThreeGrid(q, k) && MutualGeometry(q.a, answer, k)
    ensures |comparisons| == 4 && AllComparable(comparisons)
  {
    ThreeByThreeComparable(p, q, answer, k);
    var answerHorizontal := MutualThree(p, q.g, q.h, answer, k);
    var answerVertical := MutualThree(p, q.c, q.f, answer, k);
    var horizontal1 := Comparison(MutualThree(p, q.a, q.b, q.c, k), answerHorizontal);
    var horizontal2 := Comparison(MutualThree(p, q.d, q.e, q.f, k), answerHorizontal);
    var vertical1 := Comparison(MutualThree(p, q.a, q.d, q.g, k), answerVertical);
    var vertical2 := Comparison(MutualThree(p, q.b, q.e, q.h, k), answerVertical);
    ComparableQuadruple(horizontal1, horizontal2, vertical1, vertical2);
    [horizontal1, horizontal2, vertical1, vertical2]
  }

  /** The score of a 3x3 candidate: the length of its similarity vector. */
  function ThreeByThreeScore(p: Platform, q: ThreeByThree, answer: Matrix, k: int): real
    requires ValidPlatform(p) && ThreeByThreeGrid(q, k) && MutualGeometry(q.a, answer, k)
  {
    Norm(p, SimilarityVector(ThreeByThreeComparisons(p, q, answer, k)))
  }

  /** Every 3x3 candidate scores above zero, for the reason a 2x2 candidate does. */
  lemma ThreeByThreeScorePositive(p: Platform, q: ThreeByThree, answer: Matrix, k: int)
    requires ValidPlatform(p) && ValidSquare(p) && ThreeByThreeGrid(q, k) && MutualGeometry(q.a, answer, k)
    ensures 0.0 < ThreeByThreeScore(p, q, answer, k)
  {
    var comparisons := ThreeByThreeComparisons(p, q, answer, k);
    MutualThreeOrigins(p, q.a, q.b, q.c, k);
    MutualThreeOrigins(p, q.g, q.h, answer, k);
    SharedDestinationSimilar(comparisons[0].relation, comparisons[0].answerRelation, Origin(0, 0));
    SimilarityVectorPositive(p, comparisons);
  }

  /** The candidates of a 3x3 problem with their scores, in order. */
  function ThreeByThreeSimilarities(p: Platform, q: ThreeByThree, k: int): (s: seq<Score>)
    requires ValidPlatform(p) && ThreeByThreeGrid(q, k)
    ensures |s| == |q.candidates|
  {
    ThreeByThreeScores(p, q, k, |q.candidates|)
  }

  /** The first `n` candidates of a 3x3 problem with their scores. */
  function ThreeByThreeScores(p: Platform, q: ThreeByThree, k: int, n: nat): (s: seq<Score>)
    requires ValidPlatform(p) && ThreeByThreeGrid(q, k) && n <= |q.candidates|
    ensures |s| == n
  {
    if n == 0 then []
    else ThreeByThreeScores(p, q, k, n - 1) + [Score(q.candidates[n - 1].number, ThreeByThreeScore(p, q, q.candidates[n - 1].image, k))]
  }

  /**
   * Every entry of the first `n` scored candidates carries the number of its
   * own candidate and a positive score.
   */
  lemma {:induction false} ThreeByThreeScoresNumbered(p: Platform, q: ThreeByThree, k: int, n: nat)
    requires ValidPlatform(p) && ValidSquare(p) && ThreeByThreeGrid(q, k) && n <= |q.candidates|
    ensures forall m :: 0 <= m < n ==>
      ThreeByThreeScores(p, q, k, n)[m].candidate == q.candidates[m].number && 0.0 < ThreeByThreeScores(p, q, k, n)[m].value
  {
    if n > 0 {
      ThreeByThreeScoresNumbered(p, q, k, n - 1);
      ThreeByThreeScorePositive(p, q, q.candidates[n - 1].image, k);
    }
  }



  /**
   * The answer chosen among scored candidates: the candidate of the first
   * greatest score.
   */
  function Choice(s: seq<Score>): (answer: int)
    requires |s| > 0
    ensures exists n :: (0 <= n < |s| && s[n].candidate == answer &&
                         (forall m :: 0 <= m < |s| ==> s[m].value <= s[n].value) &&
                         (forall m :: 0 <= m < n ==> s[m].value < s[n].value))
  {
    var best := ArgMax(Values(s));
    ValuesEntries(s);
    assert IsFirstMaximum(Values(s), best);
    s[best].candidate
  }

  // ---------------------------------------------------------------------------
  // Scoring one candidate
  // ---------------------------------------------------------------------------

  lemma Pair(v: seq<real>)
    requires |v| == 2
    ensures v == [v[0], v[1]]
  {
  }

  lemma Quadruple(v: seq<real>)
    requires |v| == 4
    ensures v == [v[0], v[1], v[2], v[3]]
  {
  }

  /** The similarities, as the entries of a fresh array, and the length of that vector. */
  method Distance(p: Platform, similarities: seq<real>) returns (score: real)
    ensures score == Norm(p, similarities)
  {
    var vector := new real[|similarities|](n requires 0 <= n < |similarities| => similarities[n]);
    assert vector[..] == similarities;
    score := CalculateEuclideanDistance(p, vector);
  }

  /** Two similarities into a two-entry vector, then its length. */
  method DistanceOfTwo(p: Platform, x0: set<FractalCode>, y0: set<FractalCode>,
                       x1: set<FractalCode>, y1: set<FractalCode>)
    returns (score: real)
    requires Comparable(Comparison(x0, y0)) && Comparable(Comparison(x1, y1))
    ensures score == Norm(p, SimilarityVector([Comparison(x0, y0), Comparison(x1, y1)]))
  {
    var s0 := CalculateSimilarity(x0, y0);
    var s1 := CalculateSimilarity(x1, y1);
    ghost var comparisons := [Comparison(x0, y0), Comparison(x1, y1)];
    ComparablePair(comparisons[0], comparisons[1]);
    SimilarityVectorEntries(comparisons);
    Pair(SimilarityVector(comparisons));
    score := Distance(p, [s0, s1]);
  }

  /** Four similarities into a four-entry vector, then its length. */
  method DistanceOfFour(p: Platform, x0: set<FractalCode>, y0: set<FractalCode>,
                        x1: set<FractalCode>, y1: set<FractalCode>,
                        x2: set<FractalCode>, y2: set<FractalCode>,
                        x3: set<FractalCode>, y3: set<FractalCode>)
    returns (score: real)
    requires Comparable(Comparison(x0, y0)) && Comparable(Comparison(x1, y1))
    requires Comparable(Comparison(x2, y2)) && Comparable(Comparison(x3, y3))
    ensures score == Norm(p, SimilarityVector([Comparison(x0, y0), Comparison(x1, y1), Comparison(x2, y2), Comparison(x3, y3)]))
  {
    var s0 := CalculateSimilarity(x0, y0);
    var s1 := CalculateSimilarity(x1, y1);
    var s2 := CalculateSimilarity(x2, y2);
    var s3 := CalculateSimilarity(x3, y3);
    ghost var comparisons := [Comparison(x0, y0), Comparison(x1, y1), Comparison(x2, y2), Comparison(x3, y3)];
    ComparableQuadruple(comparisons[0], comparisons[1], comparisons[2], comparisons[3]);
    SimilarityVectorEntries(comparisons);
    Quadruple(SimilarityVector(comparisons));
    score := Distance(p, [s0, s1, s2, s3]);
  }

  /** The two pairs of relationships a 2x2 candidate is scored on can be compared. */
  lemma TwoByTwoComparable(p: Platform, q: TwoByTwo, answer: Matrix, k: int)
    requires ValidPlatform(p)
    requires MutualGeometry(q.a, q.b, k) && MutualGeometry(q.a, q.c, k) && MutualGeometry(q.a, answer, k)
    ensures MutualGeometry(q.c, answer, k) && MutualGeometry(q.b, answer, k)
    ensures Comparable(Comparison(Mutual(p, q.a, q.b, k), Mutual(p, q.c, answer, k)))
    ensures Comparable(Comparison(Mutual(p, q.a, q.c, k), Mutual(p, q.b, answer, k)))
  {
    MutualOrigins(p, q.a, q.b, k);
    MutualOrigins(p, q.a, q.c, k);
    MutualOrigins(p, q.c, answer, k);
    MutualOrigins(p, q.b, answer, k);
  }

  /** The four pairs of relationships a 3x3 candidate is scored on can be compared. */
  lemma ThreeByThreeComparable(p: Platform, q: ThreeByThree, answer: Matrix, k: int)
    requires ValidPlatform(p) && ThreeByThreeGrid(q, k) && MutualGeometry(q.a, answer, k)
    ensures MutualGeometry(q.g, q.h, k) && MutualGeometry(q.g, answer, k)
    ensures MutualGeometry(q.c, q.f, k) && MutualGeometry(q.c, answer, k)
    ensures Comparable(Comparison(MutualThree(p, q.a, q.b, q.c, k), MutualThree(p, q.g, q.h, answer, k)))
    ensures Comparable(Comparison(MutualThree(p, q.d, q.e, q.f, k), MutualThree(p, q.g, q.h, answer, k)))
    ensures Comparable(Comparison(MutualThree(p, q.a, q.d, q.g, k), MutualThree(p, q.c, q.f, answer, k)))
    ensures Comparable(Comparison(MutualThree(p, q.b, q.e, q.h, k), MutualThree(p, q.c, q.f, answer, k)))
  {
    MutualThreeOrigins(p, q.a, q.b, q.c, k);
    MutualThreeOrigins(p, q.d, q.e, q.f, k);
    MutualThreeOrigins(p, q.a, q.d, q.g, k);
    MutualThreeOrigins(p, q.b, q.e, q.h, k);
    MutualThreeOrigins(p, q.g, q.h, answer, k);
    MutualThreeOrigins(p, q.c, q.f, answer, k);
  }

  /**
   * The body of the 2x2 candidate loop: the row and column the candidate
   * completes, their similarities to the row and column of the matrix, and
   * the length of that vector.
   */
  method ScoreTwoByTwo(p: Platform, q: TwoByTwo, horizontalRelations: set<FractalCode>,
                       verticalRelations: set<FractalCode>, answer: Matrix, k: int)
    returns (score: real)
    requires ValidPlatform(p)
    requires MutualGeometry(q.a, q.b, k) && MutualGeometry(q.a, q.c, k) && MutualGeometry(q.a, answer, k)
    requires horizontalRelations == Mutual(p, q.a, q.b, k)
    requires verticalRelations == Mutual(p, q.a, q.c, k)
    ensures score == TwoByTwoScore(p, q, answer, k)
  {
    TwoByTwoComparable(p, q, answer, k);
    var answerHorizontal := GetMutualFractals(p, q.c, answer, k);
    var answerVertical := GetMutualFractals(p, q.b, answer, k);
    score := DistanceOfTwo(p, horizontalRelations, answerHorizontal, verticalRelations, answerVertical);
  }

  /** The body of the 3x3 candidate loop. */
  method ScoreThreeByThree(p: Platform, q: ThreeByThree, horizontalRelations1: set<FractalCode>,
                           horizontalRelations2: set<FractalCode>, verticalRelations1: set<FractalCode>,
                           verticalRelations2: set<FractalCode>, answer: Matrix, k: int)
    returns (score: real)
    requires ValidPlatform(p) && ThreeByThreeGrid(q, k) && MutualGeometry(q.a, answer, k)
    requires horizontalRelations1 == MutualThree(p, q.a, q.b, q.c, k)
    requires horizontalRelations2 == MutualThree(p, q.d, q.e, q.f, k)
    requires verticalRelations1 == MutualThree(p, q.a, q.d, q.g, k)
    requires verticalRelations2 == MutualThree(p, q.b, q.e, q.h, k)
    ensures score == ThreeByThreeScore(p, q, answer, k)
  {
    ThreeByThreeComparable(p, q, answer, k);
    var answerHorizontal := GetMutualFractalsThreeByThree(p, q.g, q.h, answer, k);
    var answerVertical := GetMutualFractalsThreeByThree(p, q.c, q.f, answer, k);
    score := DistanceOfFour(p, horizontalRelations1, answerHorizontal, horizontalRelations2, answerHorizontal,
                            verticalRelations1, answerVertical, verticalRelations2, answerVertical);
  }

  // ---------------------------------------------------------------------------
  // Solving a problem
  // ---------------------------------------------------------------------------

  /** All candidates of a 2x2 problem scored at level `k`, into a fresh array. */
  method ScoreCandidatesTwoByTwo(p: Platform, q: TwoByTwo, k: int) returns (similarities: array<Score>)
    requires ValidPlatform(p) && TwoByTwoGrid(q, k)
    ensures fresh(similarities)
    ensures similarities[..] == TwoByTwoSimilarities(p, q, k)
  {
    var horizontalRelations := GetMutualFractals(p, q.a, q.b, k);
    var verticalRelations := GetMutualFractals(p, q.a, q.c, k);
    similarities := new Score[|q.candidates|];
    for n := 0 to |q.candidates|
      invariant similarities[..n] == TwoByTwoScores(p, q, k, n)
    {
      var candidate := q.candidates[n];
      var score := ScoreTwoByTwo(p, q, horizontalRelations, verticalRelations, candidate.image, k);
      similarities[n] := Score(candidate.number, score);
      assert similarities[..n + 1] == similarities[..n] + [similarities[n]];
    }
    assert similarities[..] == similarities[..|q.candidates|];
  }

  /** All candidates of a 3x3 problem scored at level `k`, into a fresh array. */
  method ScoreCandidatesThreeByThree(p: Platform, q: ThreeByThree, k: int) returns (similarities: array<Score>)
    requires ValidPlatform(p) && ThreeByThreeGrid(q, k)
    ensures fresh(similarities)
    ensures similarities[..] == ThreeByThreeSimilarities(p, q, k)
  {
    var horizontalRelations1 := GetMutualFractalsThreeByThree(p, q.a, q.b, q.c, k);
    var horizontalRelations2 := GetMutualFractalsThreeByThree(p, q.d, q.e, q.f, k);
    var verticalRelations1 := GetMutualFractalsThreeByThree(p, q.a, q.d, q.g, k);
    var verticalRelations2 := GetMutualFractalsThreeByThree(p, q.b, q.e, q.h, k);
    similarities := new Score[|q.candidates|];
    for n := 0 to |q.candidates|
      invariant similarities[..n] == ThreeByThreeScores(p, q, k, n)
    {
      var candidate := q.candidates[n];
      var score := ScoreThreeByThree(p, q, horizontalRelations1, horizontalRelations2,
                                     verticalRelations1, verticalRelations2, candidate.image, k);
      similarities[n] := Score(candidate.number, score);
      assert similarities[..n + 1] == similarities[..n] + [similarities[n]];
    }
    assert similarities[..] == similarities[..|q.candidates|];
  }

  /**
   * `executeFractalAlgorithmTwoByTwo`: at each abstraction level, while no answer
   * is chosen, score every candidate, answer the best one, then normalise the
   * scores and gate them by their z-scores. An answer is chosen on the first
   * pass, so only the first level is ever used; with no levels the answer is -1.
   */
  method ExecuteTwoByTwo(p: Platform, q: TwoByTwo, abstractionLevels: seq<int>, threshold: real)
    returns (answer: int)
    requires ValidPlatform(p) && ValidSquare(p) && WellNumbered(q.candidates)
    requires |abstractionLevels| > 0 ==> |q.candidates| > 0 && TwoByTwoGrid(q, abstractionLevels[0])
    ensures |abstractionLevels| == 0 ==> answer == -1
    ensures |abstractionLevels| > 0 ==> answer == Choice(TwoByTwoSimilarities(p, q, abstractionLevels[0]))
  {
    var abstraction := 0;
    answer := -1;
    while answer == -1 && abstraction < |abstractionLevels|
      invariant 0 <= abstraction <= |abstractionLevels|
      invariant abstraction == 0 ==> answer == -1
      invariant abstraction > 0 ==> answer == Choice(TwoByTwoSimilarities(p, q, abstractionLevels[0]))
      invariant abstraction > 0 ==> answer != -1
      decreases |abstractionLevels| - abstraction
    {
      var k := abstractionLevels[abstraction];
      assert abstraction == 0;
      var similarities := ScoreCandidatesTwoByTwo(p, q, k);
      var best := SelectBest(similarities);
      answer := similarities[best].candidate;
      assert answer == Choice(TwoByTwoSimilarities(p, q, abstractionLevels[0]));
      TwoByTwoScoresNumbered(p, q, k, |q.candidates|);
      var answers := Gate(p, similarities, best, threshold);
      abstraction := abstraction + 1;
    }
  }

  /** `executeFractalAlgorithmThreeByThree`: as for a 2x2 problem, with the 3x3 scores. */
  method ExecuteThreeByThree(p: Platform, q: ThreeByThree, abstractionLevels: seq<int>, threshold: real)
    returns (answer: int)
    requires ValidPlatform(p) && ValidSquare(p) && WellNumbered(q.candidates)
    requires |abstractionLevels| > 0 ==> |q.candidates| > 0 && ThreeByThreeGrid(q, abstractionLevels[0])
    ensures |abstractionLevels| == 0 ==> answer == -1
    ensures |abstractionLevels| > 0 ==> answer == Choice(ThreeByThreeSimilarities(p, q, abstractionLevels[0]))
  {
    var abstraction := 0;
    answer := -1;
    while answer == -1 && abstraction < |abstractionLevels|
      invariant 0 <= abstraction <= |abstractionLevels|
      invariant abstraction == 0 ==> answer == -1
      invariant abstraction > 0 ==> answer == Choice(ThreeByThreeSimilarities(p, q, abstractionLevels[0]))
      invariant abstraction > 0 ==> answer != -1
      decreases |abstractionLevels| - abstraction
    {
      var k := abstractionLevels[abstraction];
      assert abstraction == 0;
      var similarities := ScoreCandidatesThreeByThree(p, q, k);
      var best := SelectBest(similarities);
      answer := similarities[best].candidate;
      assert answer == Choice(ThreeByThreeSimilarities(p, q, abstractionLevels[0]));
      ThreeByThreeScoresNumbered(p, q, k, |q.candidates|);
      var answers := Gate(p, similarities, best, threshold);
      abstraction := abstraction + 1;
    }
  }
}
