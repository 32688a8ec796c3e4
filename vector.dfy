/**
 * The 2-D vector of src/vector.js. `plus`, `minus`, `times` and `copy` build new vectors and
 * `set` overwrites the receiver; the arithmetic is stated on the value type `Vec`, and the
 * class's methods are proved to produce those values.
 */
module Vectors {

  datatype Vec = Vec(x: real, y: real)

  function Add(a: Vec, b: Vec): Vec
  {
    Vec(a.x + b.x, a.y + b.y)
  }

  function Sub(a: Vec, b: Vec): Vec
  {
    Vec(a.x - b.x, a.y - b.y)
  }

  function Scale(a: Vec, s: real): Vec
  {
    Vec(a.x * s, a.y * s)
  }

  /** `v.plus(w).minus(w)` is v again, and `minus` undoes `plus` the other way round too. */
  lemma PlusMinusCancel(v: Vec, w: Vec)
    ensures Sub(Add(v, w), w) == v
    ensures Add(Sub(v, w), w) == v
  {
  }

  /** `plus` is commutative and associative. */
  lemma PlusCommutesAndAssociates(u: Vec, v: Vec, w: Vec)
    ensures Add(v, w) == Add(w, v)
    ensures Add(Add(u, v), w) == Add(u, Add(v, w))
  {
  }

  /** `times(1)` is the identity and `times` distributes over `plus`. */
  lemma TimesProperties(v: Vec, w: Vec, s: real)
    ensures Scale(v, 1.0) == v
    ensures Scale(Add(v, w), s) == Add(Scale(v, s), Scale(w, s))
  {
  }

  class Vector {
    var x: real
    var y: real

    function Value(): Vec
      reads this
    {
      Vec(x, y)
    }

    constructor (x: real, y: real)
      ensures Value() == Vec(x, y)
    {
      this.x := x;
      this.y := y;
    }

    /** `new Vector()`: both coordinates default to 0. */
    constructor Origin()
      ensures Value() == Vec(0.0, 0.0)
    {
      x, y := 0.0, 0.0;
    }

    /** `new Vector(x)`: the missing y defaults to 0. */
    constructor OnXAxis(x: real)
      ensures Value() == Vec(x, 0.0)
    {
      this.x, this.y := x, 0.0;
    }

    /** A new vector equal to this one; later changes to either do not reach the other. */
    method Copy() returns (c: Vector)
      ensures fresh(c) && c.Value() == Value()
    {
      c := new Vector(x, y);
    }

    method Plus(other: Vector) returns (r: Vector)
      ensures fresh(r) && r.Value() == Add(Value(), other.Value())
    {
      r := new Vector(x + other.x, y + other.y);
    }

    method Minus(other: Vector) returns (r: Vector)
      ensures fresh(r) && r.Value() == Sub(Value(), other.Value())
    {
      r := new Vector(x - other.x, y - other.y);
    }

    method Times(scalar: real) returns (r: Vector)
      ensures fresh(r) && r.Value() == Scale(Value(), scalar)
    {
      r := new Vector(x * scalar, y * scalar);
    }

    /** Coordinate-wise equality: the two vectors hold the same value. */
    predicate Equals(other: Vector)
      reads this, other
      ensures Equals(other) <==> Value() == other.Value()
    {
      x == other.x && y == other.y
    }

    /** Overwrite both coordinates. */
    method Set(x: real, y: real)
      modifies this
      ensures Value() == Vec(x, y)
    {
      this.x := x;
      this.y := y;
    }
  }

  /** `equals` is reflexive and symmetric. */
  lemma EqualsReflexiveSymmetric(v: Vector, w: Vector)
    ensures v.Equals(v)
    ensures v.Equals(w) == w.Equals(v)
  {
  }
}
