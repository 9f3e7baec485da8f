/**
 * The fractal code of one destination fragment (FractalRepresentation.java):
 * five nullable fields, setters that overwrite one field each, and an
 * `equals`/`hashCode` pair that compares and combines all five fields.
 */
module Representation {
  import opened Wrappers

  /** A fragment's grid coordinate: `x` is the grid row, `y` the grid column. */
  datatype Origin = Origin(x: int, y: int)

  /** The eight orthonormal transformation tags, in the order the encoder tries them. */
  datatype Transform = Identity | HFlip | VFlip | R90 | R180 | R270 | ReflYNX | ReflYX

  /** The value of a code: its five fields, `None` where the Java field is null. */
  datatype FractalCode = FractalCode(
    source: Option<Origin>,
    destination: Option<Origin>,
    transform: Option<Transform>,
    regionSize: Option<int>,
    contraction: Option<real>)

  /** A code none of whose fields has been set. */
  const Unset := FractalCode(None, None, None, None, None)

  /** What `equals(Object)` can be handed: null, an object of another class, or a code. */
  datatype Argument = Null | Foreign | Fractal(other: FractalRepresentation) {
    function Footprint(): set<object> {
      if Fractal? then {other} else {}
    }
  }

  /** The null-safe comparison `a == null ? b == null : a.equals(b)` of one field. */
  predicate FieldEquals<T(==)>(a: Option<T>, b: Option<T>) {
    if a.None? then b.None? else b.Some? && a.value == b.value
  }

  /** Java `int` arithmetic: reduce an integer to the 32-bit two's-complement range. */
  function Wrap32(n: int): (r: int)
    ensures -0x8000_0000 <= r < 0x8000_0000
    ensures (r - n) % 0x1_0000_0000 == 0
  {
    (n + 0x8000_0000) % 0x1_0000_0000 - 0x8000_0000
  }

  /**
   * The `hashCode` of the library classes the fields hold. `Integer.hashCode` is
   * the value itself; the hashes of `Pair`, `String` and `Double` are the
   * platform's and are given here.
   */
  datatype FieldHashes = FieldHashes(
    origin: Origin -> int,
    transform: Transform -> int,
    contraction: real -> int)

  /** The hash of one nullable field: 0 for null. */
  function FieldHash<T>(field: Option<T>, hash: T -> int): int {
    if field.None? then 0 else Wrap32(hash(field.value))
  }

  /** One step `result = prime * result + h` of the hash, in 32-bit arithmetic. */
  function HashStep(result: int, h: int): int {
    Wrap32(31 * result + h)
  }

  /** The mutable code object. Getters are plain field reads. */
  class FractalRepresentation {
    var sourceFragmentOrigin: Option<Origin>
    var destinationFragmentOrigin: Option<Origin>
    var orthonormalTransformation: Option<Transform>
    var regionSize: Option<int>
    var colorimetricContraction: Option<real>

    /** The value the five fields currently hold. */
    function Value(): FractalCode
      reads this
    {
      FractalCode(sourceFragmentOrigin, destinationFragmentOrigin, orthonormalTransformation,
                  regionSize, colorimetricContraction)
    }

    /** Java's implicit constructor: every field starts out null. */
    constructor ()
      ensures Value() == Unset
    {
      sourceFragmentOrigin := None;
      destinationFragmentOrigin := None;
      orthonormalTransformation := None;
      regionSize := None;
      colorimetricContraction := None;
    }

    method SetSourceFragmentOrigin(origin: Option<Origin>)
      modifies this
      ensures Value() == old(Value()).(source := origin)
    {
      sourceFragmentOrigin := origin;
    }

    method SetDestinationFragmentOrigin(origin: Option<Origin>)
      modifies this
      ensures Value() == old(Value()).(destination := origin)
    {
      destinationFragmentOrigin := origin;
    }

    method SetOrthonormalTransformation(transform: Option<Transform>)
      modifies this
      ensures Value() == old(Value()).(transform := transform)
    {
      orthonormalTransformation := transform;
    }

    method SetRegionSize(size: Option<int>)
      modifies this
      ensures Value() == old(Value()).(regionSize := size)
    {
      regionSize := size;
    }

    method SetColorimetricContraction(contraction: Option<real>)
      modifies this
      ensures Value() == old(Value()).(contraction := contraction)
    {
      colorimetricContraction := contraction;
    }

    /**
     * `equals`: true for the same object; false for null and for objects of other
     * classes; otherwise the five null-safe field comparisons in the source's order.
     * It holds exactly when the argument is a code with the same field values.
     */
    predicate Equals(obj: Argument)
      reads this, obj.Footprint()
      ensures Equals(obj) <==> obj.Fractal? && obj.other.Value() == Value()
    {
      if obj.Fractal? && obj.other == this then true
      else if obj.Null? then false
      else if !obj.Fractal? then false
      else
        var other := obj.other;
        && FieldEquals(colorimetricContraction, other.colorimetricContraction)
        && FieldEquals(destinationFragmentOrigin, other.destinationFragmentOrigin)
        && FieldEquals(orthonormalTransformation, other.orthonormalTransformation)
        && FieldEquals(regionSize, other.regionSize)
        && FieldEquals(sourceFragmentOrigin, other.sourceFragmentOrigin)
    }

    /**
     * `hashCode`: starting from 1, each field's hash (0 for null) is folded in with
     * prime 31 in the order contraction, destination, transformation, region size,
     * source. The result is a Java `int`.
     */
    function HashCode(h: FieldHashes): (r: int)
      reads this
      ensures -0x8000_0000 <= r < 0x8000_0000
    {
      var r0 := HashStep(1, FieldHash(colorimetricContraction, h.contraction));
      var r1 := HashStep(r0, FieldHash(destinationFragmentOrigin, h.origin));
      var r2 := HashStep(r1, FieldHash(orthonormalTransformation, h.transform));
      var r3 := HashStep(r2, FieldHash(regionSize, (n: int) => n));
      HashStep(r3, FieldHash(sourceFragmentOrigin, h.origin))
    }
  }

  /** `equals` is reflexive. */
  lemma EqualsReflexive(a: FractalRepresentation)
    ensures a.Equals(Fractal(a))
  {
  }

  /** `equals` rejects null and objects of any other class. */
  lemma EqualsRejectsNullAndForeign(a: FractalRepresentation)
    ensures !a.Equals(Null) && !a.Equals(Foreign)
  {
  }

  /** `equals` is symmetric. */
  lemma EqualsSymmetric(a: FractalRepresentation, b: FractalRepresentation)
    ensures a.Equals(Fractal(b)) <==> b.Equals(Fractal(a))
  {
  }

  /** Equal codes hash alike, whatever the library hashes of the fields are. */
  lemma EqualsAgreesWithHashCode(a: FractalRepresentation, b: FractalRepresentation, h: FieldHashes)
    requires a.Equals(Fractal(b))
    ensures a.HashCode(h) == b.HashCode(h)
  {
  }
}
