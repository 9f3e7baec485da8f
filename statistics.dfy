/**
 * Scoring and selection in the Agent: the Euclidean norm of a similarity
 * vector, choosing the best-scoring candidate, normalising the scores by the
 * best one, their mean, standard deviation and standard error, the z-score of
 * each candidate, and the candidates whose z-score passes a threshold.
 */
module Statistics {
  import opened Fractals

  // ---------------------------------------------------------------------------
  // Real arithmetic
  // ---------------------------------------------------------------------------

  /** A part over a positive whole lies in [0, 1]; it is 1 only for the whole and 0 only for nothing. */
  lemma Ratio(part: real, whole: real)
    requires 0.0 <= part <= whole && 0.0 < whole
    ensures 0.0 <= part / whole <= 1.0
    ensures part / whole == 1.0 <==> part == whole
    ensures part / whole == 0.0 <==> part == 0.0
  {
    var r := part / whole;
    assert r * whole == part;
    assert (1.0 - r) * whole == whole - part;
  }

  lemma DivideSelf(a: real)
    requires a != 0.0
    ensures a / a == 1.0
  {
    var r := a / a;
    assert r * a == a;
    assert (r - 1.0) * a == 0.0;
  }

  /** Dividing by a positive number keeps the order. */
  lemma DivideMonotone(a: real, b: real, d: real)
    requires a < b && 0.0 < d
    ensures a / d < b / d
  {
    assert (b / d - a / d) * d == b - a;
  }

  // ---------------------------------------------------------------------------
  // Euclidean norm (calculateEuclideanDistance)
  // ---------------------------------------------------------------------------

  /** `Math.pow(x, 2)` is never negative and is zero only at zero. */
  ghost predicate ValidSquare(p: Platform) {
    forall x :: 0.0 <= p.square(x) && (p.square(x) == 0.0 <==> x == 0.0)
  }

  /** v[0]^2 + v[1]^2 + ..., added up from the left, each square by `Math.pow(x, 2)`. */
  function SumOfSquares(p: Platform, v: seq<real>): real {
    if |v| == 0 then 0.0 else SumOfSquares(p, v[..|v| - 1]) + p.square(v[|v| - 1])
  }

  /**
   * A sum of squares is never negative; it is zero for the zero vector and
   * positive for any other.
   */
  lemma {:induction false} SumOfSquaresZero(p: Platform, v: seq<real>)
    requires ValidSquare(p)
    ensures 0.0 <= SumOfSquares(p, v)
    ensures (forall n :: 0 <= n < |v| ==> v[n] == 0.0) ==> SumOfSquares(p, v) == 0.0
    ensures (exists n :: 0 <= n < |v| && v[n] != 0.0) ==> SumOfSquares(p, v) > 0.0
  {
    if |v| > 0 {
      var w, last := v[..|v| - 1], v[|v| - 1];
      SumOfSquaresZero(p, w);
      assert SumOfSquares(p, v) == SumOfSquares(p, w) + p.square(last);
      assert 0.0 <= p.square(last) && (p.square(last) == 0.0 <==> last == 0.0);
      assert forall n :: 0 <= n < |w| ==> w[n] == v[n];
      if exists n :: 0 <= n < |v| && v[n] != 0.0 {
        var n :| 0 <= n < |v| && v[n] != 0.0;
        if n < |w| {
          assert w[n] != 0.0;
          assert 0.0 < SumOfSquares(p, w);
        } else {
          assert 0.0 < p.square(last);
        }
      }
    }
  }

  /** The length of `v`: the square root of its sum of squares. */
  function Norm(p: Platform, v: seq<real>): real {
    p.sqrt(SumOfSquares(p, v))
  }

  /** The norm is never negative, and it is zero only for the zero vector. */
  lemma NormProperties(p: Platform, v: seq<real>)
    requires ValidPlatform(p) && ValidSquare(p)
    ensures 0.0 <= Norm(p, v)
    ensures Norm(p, v) == 0.0 <==> forall n :: 0 <= n < |v| ==> v[n] == 0.0
  {
    SumOfSquaresZero(p, v);
  }

  /** `calculateEuclideanDistance`: sum the squares in a loop, then take the root. */
  method CalculateEuclideanDistance(p: Platform, vector: array<real>) returns (r: real)
    ensures r == Norm(p, vector[..])
  {
    var sum := 0.0;
    for i := 0 to vector.Length
      invariant sum == SumOfSquares(p, vector[..i])
    {
      assert vector[..i + 1][..i] == vector[..i];
      sum := sum + p.square(vector[i]);
    }
    assert vector[..vector.Length] == vector[..];
    r := p.sqrt(sum);
  }

  // ---------------------------------------------------------------------------
  // Mean, standard deviation, standard error
  // ---------------------------------------------------------------------------

  function Sum(v: seq<real>): real {
    if |v| == 0 then 0.0 else Sum(v[..|v| - 1]) + v[|v| - 1]
  }

  /** Values between `lo` and `hi` add up to between |v| * lo and |v| * hi. */
  lemma {:induction false} SumWithin(v: seq<real>, lo: real, hi: real)
    requires forall n :: 0 <= n < |v| ==> lo <= v[n] <= hi
    ensures |v| as real * lo <= Sum(v) <= |v| as real * hi
  {
    if |v| > 0 {
      var w := v[..|v| - 1];
      assert forall n :: 0 <= n < |w| ==> w[n] == v[n];
      SumWithin(w, lo, hi);
    }
  }

  /** The arithmetic mean of a non-empty collection. */
  function MeanOf(v: seq<real>): real
    requires |v| > 0
  {
    Sum(v) / |v| as real
  }

  /** The mean lies between any bounds of the values. */
  lemma MeanWithin(v: seq<real>, lo: real, hi: real)
    requires |v| > 0
    requires forall n :: 0 <= n < |v| ==> lo <= v[n] <= hi
    ensures lo <= MeanOf(v) <= hi
  {
    SumWithin(v, lo, hi);
    var size := |v| as real;
    assert MeanOf(v) * size == Sum(v);
    assert (MeanOf(v) - lo) * size == Sum(v) - size * lo;
    assert (hi - MeanOf(v)) * size == size * hi - Sum(v);
  }

  /** `mean`: add the values in a loop and divide by their number. */
  method Mean(vector: seq<real>) returns (m: real)
    requires |vector| > 0
    ensures m == MeanOf(vector)
  {
    var sum := 0.0;
    for i := 0 to |vector|
      invariant sum == Sum(vector[..i])
    {
      assert vector[..i + 1][..i] == vector[..i];
      sum := sum + vector[i];
    }
    assert vector[..|vector|] == vector;
    m := sum / |vector| as real;
  }

  /** (v[0] - mean)^2 + (v[1] - mean)^2 + ..., added up from the left. */
  function SquaredDeviations(p: Platform, v: seq<real>, mean: real): real {
    if |v| == 0 then 0.0 else SquaredDeviations(p, v[..|v| - 1], mean) + p.square(v[|v| - 1] - mean)
  }

  /**
   * The squared deviations are never negative; they are zero when every value
   * is the mean and positive when any value differs from it.
   */
  lemma {:induction false} SquaredDeviationsZero(p: Platform, v: seq<real>, mean: real)
    requires ValidSquare(p)
    ensures 0.0 <= SquaredDeviations(p, v, mean)
    ensures (forall n :: 0 <= n < |v| ==> v[n] == mean) ==> SquaredDeviations(p, v, mean) == 0.0
    ensures (exists n :: 0 <= n < |v| && v[n] != mean) ==> SquaredDeviations(p, v, mean) > 0.0
  {
    if |v| > 0 {
      var w, last := v[..|v| - 1], v[|v| - 1];
      SquaredDeviationsZero(p, w, mean);
      assert SquaredDeviations(p, v, mean) == SquaredDeviations(p, w, mean) + p.square(last - mean);
      assert 0.0 <= p.square(last - mean) && (p.square(last - mean) == 0.0 <==> last - mean == 0.0);
      assert forall n :: 0 <= n < |w| ==> w[n] == v[n];
      if exists n :: 0 <= n < |v| && v[n] != mean {
        var n :| 0 <= n < |v| && v[n] != mean;
        if n < |w| {
          assert w[n] != mean;
          assert 0.0 < SquaredDeviations(p, w, mean);
        } else {
          assert 0.0 < p.square(last - mean);
        }
      }
    }
  }

  /**
   * The population standard deviation: the square root of the squared
   * deviations over their number (`Math.pow(n, -1) * sum`).
   */
  function StandardDeviationOf(p: Platform, v: seq<real>, mean: real): real
    requires |v| > 0
  {
    p.sqrt(SquaredDeviations(p, v, mean) / |v| as real)
  }

  /**
   * The standard deviation is never negative, and it is zero exactly when
   * every value equals the mean it is taken about.
   */
  lemma StandardDeviationZero(p: Platform, v: seq<real>, mean: real)
    requires ValidPlatform(p) && ValidSquare(p) && |v| > 0
    ensures 0.0 <= StandardDeviationOf(p, v, mean)
    ensures StandardDeviationOf(p, v, mean) == 0.0 <==> forall n :: 0 <= n < |v| ==> v[n] == mean
  {
    SquaredDeviationsZero(p, v, mean);
    Ratio(0.0, |v| as real);
    var spread := SquaredDeviations(p, v, mean);
    if exists n :: 0 <= n < |v| && v[n] != mean {
      assert 0.0 < spread / |v| as real;
    }
  }

  /** `standardDeviation`: add the squared deviations in a loop, scale, take the root. */
  method StandardDeviation(p: Platform, vector: seq<real>, mean: real) returns (sd: real)
    requires |vector| > 0
    ensures sd == StandardDeviationOf(p, vector, mean)
  {
    var sum := 0.0;
    for i := 0 to |vector|
      invariant sum == SquaredDeviations(p, vector[..i], mean)
    {
      assert vector[..i + 1][..i] == vector[..i];
      sum := sum + p.square(vector[i] - mean);
    }
    assert vector[..|vector|] == vector;
    sd := p.sqrt(sum / |vector| as real);
  }

  /**
   * `standardError`: the standard deviation over the square root of the
   * number of values. It is zero exactly when the standard deviation is, and
   * has the same sign.
   */
  function StandardError(p: Platform, size: int, standardDeviation: real): (se: real)
    requires ValidPlatform(p) && size > 0
    ensures se == 0.0 <==> standardDeviation == 0.0
    ensures 0.0 <= standardDeviation ==> 0.0 <= se
  {
    var root := p.sqrt(size as real);
    assert 0.0 < root;
    assert (standardDeviation / root) * root == standardDeviation;
    standardDeviation / root
  }

  // ---------------------------------------------------------------------------
  // Java doubles at a division by zero
  // ---------------------------------------------------------------------------

  /**
   * The outcome of a Java `double` division. Dividing by zero does not fail:
   * it gives an infinity with the dividend's sign, or NaN for 0 / 0.
   */
  datatype Double = Finite(value: real) | PositiveInfinity | NegativeInfinity | NaN

  function Divide(a: real, b: real): (d: Double)
    ensures d.Finite? <==> b != 0.0
    ensures d.Finite? ==> d.value * b == a
    ensures d.NaN? <==> a == 0.0 && b == 0.0
  {
    if b != 0.0 then Finite(a / b)
    else if a > 0.0 then PositiveInfinity
    else if a < 0.0 then NegativeInfinity
    else NaN
  }

  /** Java's `d > threshold`: false for NaN and for negative infinity. */
  predicate Exceeds(d: Double, threshold: real) {
    match d
    case Finite(v) => v > threshold
    case PositiveInfinity => true
    case NegativeInfinity => false
    case NaN => false
  }

  // ---------------------------------------------------------------------------
  // Choosing the best candidate
  // ---------------------------------------------------------------------------

  /**
   * One entry of the `similarities` map: a candidate answer's number and its
   * score. The map's entries are taken in its iteration order.
   */
  datatype Score = Score(candidate: int, value: real)

  function Values(s: seq<Score>): seq<real> {
    seq(|s|, n requires 0 <= n < |s| => s[n].value)
  }

  /** Entry `n` of `Values(s)` is the score of entry `n` of `s`. */
  lemma ValuesEntries(s: seq<Score>)
    ensures |Values(s)| == |s|
    ensures forall n :: 0 <= n < |s| ==> Values(s)[n] == s[n].value
  {
  }

  function Candidates(s: seq<Score>): seq<int> {
    seq(|s|, n requires 0 <= n < |s| => s[n].candidate)
  }

  /** `m` holds the greatest value of `s`, and every earlier value is smaller. */
  predicate IsFirstMaximum(s: seq<real>, m: int) {
    && 0 <= m < |s|
    && (forall n :: 0 <= n < |s| ==> s[n] <= s[m])
    && (forall n :: 0 <= n < m ==> s[n] < s[m])
  }

  /**
   * The scan `if (best == null || best.getValue() < entry.getValue()) best = entry`
   * over `s` in order: the current best is replaced only by a strictly greater value.
   */
  function ArgMax(s: seq<real>): (m: nat)
    requires |s| > 0
    ensures IsFirstMaximum(s, m)
  {
    if |s| == 1 then 0
    else
      var m := ArgMax(s[..|s| - 1]);
      if s[m] < s[|s| - 1] then |s| - 1 else m
  }

  /** The loop that picks `bestAnswer` from the `similarities` entries. */
  method SelectBest(similarities: array<Score>) returns (best: nat)
    requires similarities.Length > 0
    ensures best == ArgMax(Values(similarities[..]))
  {
    var scores := Values(similarities[..]);
    best := 0;
    for n := 1 to similarities.Length
      invariant best == ArgMax(scores[..n])
    {
      assert scores[..n + 1][..n] == scores[..n];
      if similarities[best].value < similarities[n].value {
        best := n;
      }
    }
    assert scores[..similarities.Length] == scores;
  }

  // ---------------------------------------------------------------------------
  // Normalising by the best score
  // ---------------------------------------------------------------------------

  /** Every score divided by `divisor`, each candidate kept in place. */
  function Normalized(s: seq<Score>, divisor: real): seq<Score>
    requires divisor != 0.0
  {
    seq(|s|, n requires 0 <= n < |s| => s[n].(value := s[n].value / divisor))
  }

  /**
   * Scaling non-negative scores by the best of them brings every score into
   * [0, 1], gives the best exactly 1 and keeps the order between scores.
   */
  lemma NormalizedBounds(s: seq<Score>, best: nat)
    requires IsFirstMaximum(Values(s), best) && s[best].value > 0.0
    requires forall n :: 0 <= n < |s| ==> 0.0 <= s[n].value
    ensures var t := Normalized(s, s[best].value);
      && Candidates(t) == Candidates(s)
      && t[best].value == 1.0
      && (forall n :: 0 <= n < |t| ==> 0.0 <= t[n].value <= 1.0)
      && (forall m, n :: 0 <= m < |t| && 0 <= n < |t| && s[m].value < s[n].value ==> t[m].value < t[n].value)
  {
    var t, d := Normalized(s, s[best].value), s[best].value;
    assert Candidates(t) == Candidates(s);
    Ratio(d, d);
    forall n | 0 <= n < |t|
      ensures 0.0 <= t[n].value <= 1.0
    {
      assert Values(s)[n] <= Values(s)[best];
      Ratio(s[n].value, d);
    }
    forall m, n | 0 <= m < |t| && 0 <= n < |t| && s[m].value < s[n].value
      ensures t[m].value < t[n].value
    {
      DivideMonotone(s[m].value, s[n].value, d);
    }
  }

  /**
   * The normalisation as intended: read the best score once, then divide every
   * entry by it.
   */
  method Normalize(similarities: array<Score>, best: nat)
    requires best < similarities.Length && similarities[best].value != 0.0
    modifies similarities
    ensures similarities[..] == Normalized(old(similarities[..]), old(similarities[best].value))
  {
    var divisor := similarities[best].value;
    for n := 0 to similarities.Length
      invariant similarities[..n] == Normalized(old(similarities[..]), divisor)[..n]
      invariant similarities[n..] == old(similarities[..])[n..]
    {
      similarities[n] := similarities[n].(value := similarities[n].value / divisor);
    }
  }

  /**
   * The normalisation as the loop is written: each entry is divided by the
   * current value of the best entry, which is itself one of the entries being
   * rewritten. Once the best entry has become 1.0, later entries are divided
   * by 1.0 and keep their raw scores.
   */
  function NormalizedAsWritten(s: seq<Score>, best: nat): seq<Score>
    requires best < |s| && s[best].value != 0.0
  {
    seq(|s|, n requires 0 <= n < |s| =>
      if n <= best then s[n].(value := s[n].value / s[best].value) else s[n])
  }

  /** The loop `entry.setValue(entry.getValue() / bestAnswer.getValue())`, entry by entry. */
  method NormalizeAsWritten(similarities: array<Score>, best: nat)
    requires best < similarities.Length && similarities[best].value != 0.0
    modifies similarities
    ensures similarities[..] == NormalizedAsWritten(old(similarities[..]), best)
  {
    ghost var s := similarities[..];
    ghost var expected := NormalizedAsWritten(s, best);
    for n := 0 to similarities.Length
      invariant forall i :: 0 <= i < n ==> similarities[i] == expected[i]
      invariant forall i :: n <= i < similarities.Length ==> similarities[i] == s[i]
      invariant n > best ==> similarities[best].value == 1.0
    {
      if n == best {
        DivideSelf(s[n].value);
      }
      similarities[n] := similarities[n].(value := similarities[n].value / similarities[best].value);
    }
    assert similarities[..] == expected;
  }

  /**
   * With scores [4.0, 2.0] the best is the first entry; the loop as written
   * leaves the second at 2.0, above the intended range [0, 1], where dividing
   * by the best score gives 0.5.
   */
  lemma NormalizeAsWrittenMissesLaterEntries()
    ensures var s := [Score(1, 4.0), Score(2, 2.0)];
      && ArgMax(Values(s)) == 0
      && NormalizedAsWritten(s, 0)[1].value == 2.0
      && Normalized(s, 4.0)[1].value == 0.5
  {
    var s := [Score(1, 4.0), Score(2, 2.0)];
    assert Values(s) == [4.0, 2.0];
  }

  // ---------------------------------------------------------------------------
  // Deviations and the confidence threshold
  // ---------------------------------------------------------------------------

  /** One entry of the `deviations` map: a candidate and its z-score. */
  datatype Deviation = Deviation(candidate: int, value: Double)

  /**
   * `getDeviations`: every candidate keeps its place and gets the z-score
   * (value - mean) / standardError.
   */
  function Deviations(s: seq<Score>, mean: real, standardError: real): (d: seq<Deviation>)
    ensures |d| == |s|
    ensures forall n :: 0 <= n < |s| ==> d[n].candidate == s[n].candidate
  {
    seq(|s|, n requires 0 <= n < |s| => Deviation(s[n].candidate, Divide(s[n].value - mean, standardError)))
  }

  /** The loop of `getDeviations` over the entries of the map. */
  method GetDeviations(map_: seq<Score>, mean: real, standardError: real) returns (deviations: seq<Deviation>)
    ensures deviations == Deviations(map_, mean, standardError)
  {
    deviations := [];
    for n := 0 to |map_|
      invariant deviations == Deviations(map_, mean, standardError)[..n]
    {
      deviations := deviations + [Deviation(map_[n].candidate, Divide(map_[n].value - mean, standardError))];
    }
  }

  /** The candidates whose z-score is strictly above the threshold, in order. */
  function Above(d: seq<Deviation>, threshold: real): (a: seq<int>)
    ensures |a| <= |d|
  {
    if |d| == 0 then []
    else
      var last := d[|d| - 1];
      Above(d[..|d| - 1], threshold) + (if Exceeds(last.value, threshold) then [last.candidate] else [])
  }

  /** A candidate is collected exactly when one of its deviations exceeds the threshold. */
  lemma {:induction false} AboveMembers(d: seq<Deviation>, threshold: real)
    ensures forall x :: x in Above(d, threshold) <==>
      exists n :: 0 <= n < |d| && d[n].candidate == x && Exceeds(d[n].value, threshold)
  {
    if |d| > 0 {
      var w := d[..|d| - 1];
      AboveMembers(w, threshold);
      assert forall n :: 0 <= n < |w| ==> w[n] == d[n];
    }
  }

  /** The loop that fills `answers` with the candidates above the threshold. */
  method CollectAnswers(deviations: seq<Deviation>, threshold: real) returns (answers: seq<int>)
    ensures answers == Above(deviations, threshold)
  {
    answers := [];
    for n := 0 to |deviations|
      invariant answers == Above(deviations[..n], threshold)
    {
      assert deviations[..n + 1][..n] == deviations[..n];
      if Exceeds(deviations[n].value, threshold) {
        answers := answers + [deviations[n].candidate];
      }
    }
    assert deviations[..|deviations|] == deviations;
  }

  /**
   * The candidates whose z-score among the scores `s` (already normalised)
   * exceeds the threshold.
   */
  function Confident(p: Platform, s: seq<Score>, threshold: real): seq<int>
    requires ValidPlatform(p) && ValidSquare(p) && |s| > 0
  {
    var mean := MeanOf(Values(s));
    var se := StandardError(p, |s|, StandardDeviationOf(p, Values(s), mean));
    Above(Deviations(s, mean, se), threshold)
  }

  /**
   * With a non-negative threshold only candidates scoring above the mean are
   * collected.
   */
  lemma ConfidentAboveMean(p: Platform, s: seq<Score>, threshold: real)
    requires ValidPlatform(p) && ValidSquare(p) && |s| > 0 && 0.0 <= threshold
    ensures forall x :: x in Confident(p, s, threshold) ==>
      exists n :: 0 <= n < |s| && s[n].candidate == x && s[n].value > MeanOf(Values(s))
  {
    var v := Values(s);
    var mean := MeanOf(v);
    var sd := StandardDeviationOf(p, v, mean);
    StandardDeviationZero(p, v, mean);
    var se := StandardError(p, |s|, sd);
    var d := Deviations(s, mean, se);
    AboveMembers(d, threshold);
    forall x | x in Confident(p, s, threshold)
      ensures exists n :: 0 <= n < |s| && s[n].candidate == x && s[n].value > mean
    {
      var n :| 0 <= n < |d| && d[n].candidate == x && Exceeds(d[n].value, threshold);
      ZScoreAboveMean(s[n].value, mean, se, threshold);
    }
  }

  /** A z-score over a non-negative standard error that exceeds a non-negative threshold comes from a value above the mean. */
  lemma ZScoreAboveMean(value: real, mean: real, standardError: real, threshold: real)
    requires 0.0 <= standardError && 0.0 <= threshold
    requires Exceeds(Divide(value - mean, standardError), threshold)
    ensures value > mean
  {
    if standardError != 0.0 {
      var z := (value - mean) / standardError;
      assert z * standardError == value - mean;
      assert 0.0 < z;
    }
  }

  /**
   * When every candidate has the same score the standard error is zero, every
   * z-score is 0 / 0 (NaN), and no candidate passes any threshold.
   */
  lemma EqualScoresGiveNoAnswers(p: Platform, s: seq<Score>, threshold: real)
    requires ValidPlatform(p) && ValidSquare(p) && |s| > 0
    requires forall n :: 0 <= n < |s| ==> s[n].value == s[0].value
    ensures Confident(p, s, threshold) == []
  {
    var v := Values(s);
    MeanWithin(v, s[0].value, s[0].value);
    var mean := MeanOf(v);
    StandardDeviationZero(p, v, mean);
    var se := StandardError(p, |s|, StandardDeviationOf(p, v, mean));
    var d := Deviations(s, mean, se);
    forall n | 0 <= n < |d|
      ensures !Exceeds(d[n].value, threshold)
    {
      assert d[n].value == Divide(s[n].value - mean, se) == NaN;
    }
    AboveNone(d, threshold);
  }

  lemma {:induction false} AboveNone(d: seq<Deviation>, threshold: real)
    requires forall n :: 0 <= n < |d| ==> !Exceeds(d[n].value, threshold)
    ensures Above(d, threshold) == []
  {
    if |d| > 0 {
      AboveNone(d[..|d| - 1], threshold);
    }
  }

  /**
   * The block after the choice of `bestAnswer`: normalise the scores by the
   * best one, take their mean, standard deviation and standard error, compute
   * each candidate's z-score and collect those above the threshold.
   */
  method Gate(p: Platform, similarities: array<Score>, best: nat, threshold: real) returns (answers: seq<int>)
    requires ValidPlatform(p) && ValidSquare(p)
    requires best < similarities.Length && similarities[best].value != 0.0
    modifies similarities
    ensures similarities[..] == Normalized(old(similarities[..]), old(similarities[best].value))
    ensures answers == Confident(p, similarities[..], threshold)
  {
    Normalize(similarities, best);
    var values := Values(similarities[..]);
    var mean := Mean(values);
    var standardDeviation := StandardDeviation(p, values, mean);
    var standardError := StandardError(p, similarities.Length, standardDeviation);
    var deviations := GetDeviations(similarities[..], mean, standardError);
    answers := CollectAnswers(deviations, threshold);
  }
}
