/** One drawn shape: a position, a colour and the pen that drew it. */
module CanvasShape {
  import opened Java

  /** The pen shapes. */
  datatype PenShape = Round | Square

  /** An immutable shape; the fields are the constructor's arguments in its order. */
  datatype CShape = CShape(x: int32, y: int32, color: int32, penSize: int32, penShape: PenShape)

  /** The `CShape` constructor: a null pen shape throws; otherwise the getters return the arguments. */
  function NewCShape(x: int32, y: int32, color: int32, penSize: int32, penShape: Option<PenShape>): (r: Result<CShape>)
    ensures penShape == None <==> r == Throws(NullPointer)
    ensures r.Ok? ==>
      && r.value.x == x && r.value.y == y && r.value.color == color
      && r.value.penSize == penSize && Some(r.value.penShape) == penShape
  {
    if penShape == None then Throws(NullPointer)
    else Ok(CShape(x, y, color, penSize, penShape.value))
  }

  /** `equals`: another `CShape` with the same colour, pen size, pen shape and coordinates; never a foreign object or null. */
  predicate Equals(s: CShape, o: Obj<CShape>)
  {
    o.Instance?
    && o.value.color == s.color && o.value.penSize == s.penSize && o.value.penShape == s.penShape
    && o.value.x == s.x && o.value.y == s.y
  }

  /** `equals` is an equivalence, and it is exactly equality of shapes. */
  lemma EqualsIsEquivalence(a: CShape, b: CShape, c: CShape)
    ensures Equals(a, Instance(a))
    ensures Equals(a, Instance(b)) <==> a == b
    ensures Equals(a, Instance(b)) ==> Equals(b, Instance(a))
    ensures Equals(a, Instance(b)) && Equals(b, Instance(c)) ==> Equals(a, Instance(c))
    ensures !Equals(a, Foreign) && !Equals(a, Null)
  {
  }

  /**
   * `hashCode`: 17, then `31 * result + v` in `int` arithmetic for the colour,
   * the pen size, x, y and the pen shape's own hash code, which is a parameter.
   */
  function HashCode(s: CShape, shapeHash: PenShape -> int32): int32
  {
    var h := HashStep(17, s.color);
    var h := HashStep(h, s.penSize);
    var h := HashStep(h, s.x);
    var h := HashStep(h, s.y);
    HashStep(h, shapeHash(s.penShape))
  }

  /** Equal shapes have equal hash codes. */
  lemma HashConsistent(a: CShape, b: CShape, shapeHash: PenShape -> int32)
    requires Equals(a, Instance(b))
    ensures HashCode(a, shapeHash) == HashCode(b, shapeHash)
  {
  }

  /** The hash is the base-31 polynomial with leading term 17, reduced to 32 bits once at the end. */
  lemma HashIsPolynomial(s: CShape, shapeHash: PenShape -> int32)
    ensures HashCode(s, shapeHash) as int
      == Wrap(17 * 31 * 31 * 31 * 31 * 31 + s.color as int * 31 * 31 * 31 * 31 + s.penSize as int * 31 * 31 * 31
              + s.x as int * 31 * 31 + s.y as int * 31 + shapeHash(s.penShape) as int) as int
  {
    var c, p, x, y, e := s.color as int, s.penSize as int, s.x as int, s.y as int, shapeHash(s.penShape) as int;
    var p1 := 17 * 31 + c;
    var p2 := p1 * 31 + p;
    var p3 := p2 * 31 + x;
    var p4 := p3 * 31 + y;
    var p5 := p4 * 31 + e;
    HashStepExact(17, c);
    HashStepExact(p1, p);
    HashStepExact(p2, x);
    HashStepExact(p3, y);
    HashStepExact(p4, e);
    assert Wrap(c) == s.color && Wrap(p) == s.penSize && Wrap(x) == s.x && Wrap(y) == s.y;
    assert Wrap(e) == shapeHash(s.penShape) && Wrap(17) == 17;
    assert p5 == 17 * 31 * 31 * 31 * 31 * 31 + c * 31 * 31 * 31 * 31 + p * 31 * 31 * 31 + x * 31 * 31 + y * 31 + e;
  }
}
