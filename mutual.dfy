/**
 * Mutual fractal representations (MutualFractalsCommand.java): the union of the
 * encodings of a pair of images in both directions, collected into a set field.
 */
module MutualFractals {
  import opened Representation
  import opened Wrappers
  import opened Fractals

  /**
   * Both images cut into square fragments of one common size at level `k`, so
   * that each can serve as source and as destination for the other.
   */
  predicate MutualGeometry(a: Matrix, b: Matrix, k: int) {
    && SquareFragments(a, k) && SquareFragments(b, k)
    && FragmentSize(a, k) == FragmentSize(b, k)
  }

  /**
   * Encoding in both directions returns normally exactly when the two images
   * cut into square fragments of one size: each image is a source once, so its
   * fragments must be square, and each fragment size bounds the other.
   */
  lemma MutualGeometryIsBothDirections(a: Matrix, b: Matrix, k: int)
    ensures MutualGeometry(a, b, k) <==> FractalsCommand(a, b, k).Valid() && FractalsCommand(b, a, k).Valid()
  {
  }

  /** The codes of `a` encoded from `b` together with those of `b` encoded from `a`. */
  function Mutual(p: Platform, a: Matrix, b: Matrix, k: int): set<FractalCode>
    requires ValidPlatform(p) && MutualGeometry(a, b, k)
  {
    FractalsCommand(a, b, k).Encode(p) + FractalsCommand(b, a, k).Encode(p)
  }

  /** The mutual representation does not depend on which image comes first. */
  lemma MutualSymmetric(p: Platform, a: Matrix, b: Matrix, k: int)
    requires ValidPlatform(p) && MutualGeometry(a, b, k)
    ensures MutualGeometry(b, a, k)
    ensures Mutual(p, a, b, k) == Mutual(p, b, a, k)
  {
  }

  /**
   * A mutual representation holds between k * k codes (one direction's worth)
   * and 2 * k * k codes (no code shared between the directions).
   */
  lemma MutualBounds(p: Platform, a: Matrix, b: Matrix, k: int)
    requires ValidPlatform(p) && MutualGeometry(a, b, k)
    ensures k * k <= |Mutual(p, a, b, k)| <= 2 * k * k
  {
    var forward, backward := FractalsCommand(a, b, k).Encode(p), FractalsCommand(b, a, k).Encode(p);
    FractalsCommand(a, b, k).EncodeCardinality(p);
    FractalsCommand(b, a, k).EncodeCardinality(p);
    UnionBounds(forward, backward);
  }

  lemma UnionBounds<T>(s: set<T>, t: set<T>)
    ensures |s| <= |s + t| <= |s| + |t|
  {
    assert |s + t| == |s| + |t - s| by {
      assert s + t == s + (t - s);
      assert s !! (t - s);
    }
    assert |t - s| <= |t| by {
      assert t == (t - s) + (t * s);
    }
  }

  /**
   * Every code of a mutual representation names both origins, and the code of
   * destination fragment (0, 0) is always among them.
   */
  lemma MutualOrigins(p: Platform, a: Matrix, b: Matrix, k: int)
    requires ValidPlatform(p) && MutualGeometry(a, b, k)
    ensures forall c :: c in Mutual(p, a, b, k) ==> c.source.Some? && c.destination.Some?
    ensures exists c :: c in Mutual(p, a, b, k) && c.destination == Some(Origin(0, 0))
  {
    FractalsCommand(a, b, k).EncodeOrigins(p);
    FractalsCommand(b, a, k).EncodeOrigins(p);
    var c :| c in FractalsCommand(a, b, k).Encode(p) && c.destination == Some(Origin(0, 0));
    assert c in Mutual(p, a, b, k);
  }

  /** One `MutualFractalsCommand`: two images, a grid level, and the codes gathered so far. */
  class MutualFractalsCommand {
    var source: Matrix
    var destination: Matrix
    var abstractionLevel: int
    var fractals: set<FractalCode>

    /** A new command starts with no codes. */
    constructor (source: Matrix, destination: Matrix, abstractionLevel: int)
      ensures this.source == source && this.destination == destination
      ensures this.abstractionLevel == abstractionLevel
      ensures fractals == {}
    {
      this.source := source;
      this.destination := destination;
      this.abstractionLevel := abstractionLevel;
      fractals := {};
    }

    /** `getFractals`: the codes gathered so far. */
    function GetFractals(): (r: set<FractalCode>)
      reads this
      ensures r == fractals
    {
      fractals
    }

    /**
     * `run`: add the encoding in each direction to the gathered codes. Only
     * codes are added; the images and the level stay as they were.
     */
    method Run(p: Platform)
      requires ValidPlatform(p) && MutualGeometry(source, destination, abstractionLevel)
      modifies this`fractals
      ensures fractals == old(fractals) + Mutual(p, source, destination, abstractionLevel)
      ensures old(fractals) <= fractals
    {
      var forward := FractalsCommand(source, destination, abstractionLevel).Execute(p);
      fractals := fractals + forward;
      var backward := FractalsCommand(destination, source, abstractionLevel).Execute(p);
      fractals := fractals + backward;
    }
  }

  /** A fresh command that has run once holds exactly the mutual representation of its images. */
  method RunFresh(p: Platform, source: Matrix, destination: Matrix, abstractionLevel: int) returns (fractals: set<FractalCode>)
    requires ValidPlatform(p) && MutualGeometry(source, destination, abstractionLevel)
    ensures fractals == Mutual(p, source, destination, abstractionLevel)
  {
    var command := new MutualFractalsCommand(source, destination, abstractionLevel);
    command.Run(p);
    fractals := command.GetFractals();
  }
}
