/**
 * The grid point of the game: a pair of Java `int` coordinates with structural equality.
 * Java's `equals(Object)` first compares references and then fields; the model keeps both
 * by describing a Java reference as an address together with the value it points to.
 */
module Points {

  newtype int32 = x: int | -0x8000_0000 <= x < 0x8000_0000

  datatype Point2D = Point2D(x: int32, y: int32)

  /** The no-argument constructor: both public fields keep their initial value 0. */
  function Origin(): (p: Point2D)
    ensures p.x == 0 && p.y == 0
  {
    Point2D(0, 0)
  }

  /** The two-argument constructor stores its arguments unchanged. */
  function Make(newX: int32, newY: int32): (p: Point2D)
    ensures p.x == newX && p.y == newY
  {
    Point2D(newX, newY)
  }

  /** A reference to a `Point2D` object: its identity (an address) and its current fields. */
  datatype PointRef = PointRef(addr: nat, value: Point2D)

  /** What may be passed as the `Object other` argument of `equals`. */
  datatype Object = Null | NotAPoint(addr: nat) | APoint(ref: PointRef)

  /** `Object.equals`, the check `super.equals(other)` makes: the same object, never null. */
  predicate SameObject(self: PointRef, other: Object) {
    match other
    case Null => false
    case NotAPoint(a) => a == self.addr
    case APoint(q) => q.addr == self.addr
  }

  /** The heap holds one object per address: a second reference to `self` sees `self`'s fields. */
  predicate Consistent(self: PointRef, other: Object) {
    match other
    case Null => true
    case NotAPoint(a) => a != self.addr
    case APoint(q) => q.addr == self.addr ==> q.value == self.value
  }

  /** The field comparison `x == other.x && y == other.y`. */
  predicate SameFields(p: Point2D, q: Point2D) {
    p.x == q.x && p.y == q.y
  }

  /** `Point2D.equals`: the reference check, then the type test, then the field comparison. */
  predicate Equals(self: PointRef, other: Object)
    ensures other.Null? ==> !Equals(self, other)
    ensures Consistent(self, other) ==>
      (Equals(self, other) <==> other.APoint? && SameFields(self.value, other.ref.value))
  {
    if SameObject(self, other) then true
    else if !other.APoint? then false
    else SameFields(self.value, other.ref.value)
  }

  /** `clone`: a new object (at an address no other object has) with the same coordinates. */
  function Clone(self: PointRef, freshAddr: nat): (c: PointRef)
    requires freshAddr != self.addr
    ensures c.addr == freshAddr && c.addr != self.addr
    ensures c.value.x == self.value.x && c.value.y == self.value.y
  {
    PointRef(freshAddr, Make(self.value.x, self.value.y))
  }

  /** On a consistent heap, `equals` on two points holds exactly when both coordinates agree. */
  lemma EqualsIffSameCoordinates(self: PointRef, q: PointRef)
    requires Consistent(self, APoint(q))
    ensures Equals(self, APoint(q)) <==> self.value.x == q.value.x && self.value.y == q.value.y
  {
  }

  /** Reflexivity: the reference check succeeds, and the field comparison it skips would too. */
  lemma EqualsReflexive(self: PointRef)
    ensures SameObject(self, APoint(self))
    ensures Equals(self, APoint(self))
    ensures SameFields(self.value, self.value)
  {
  }

  /** Equality between two points does not depend on which one receives the call. */
  lemma EqualsSymmetric(p: PointRef, q: PointRef)
    requires Consistent(p, APoint(q))
    ensures Consistent(q, APoint(p))
    ensures Equals(p, APoint(q)) == Equals(q, APoint(p))
  {
  }

  /** Equality between points chains. */
  lemma EqualsTransitive(p: PointRef, q: PointRef, r: PointRef)
    requires Consistent(p, APoint(q)) && Consistent(q, APoint(r)) && Consistent(p, APoint(r))
    requires Equals(p, APoint(q)) && Equals(q, APoint(r))
    ensures Equals(p, APoint(r))
  {
  }

  /** `null` and objects of another class are never equal to a point. */
  lemma EqualsNonPointFalse(self: PointRef, other: Object)
    requires Consistent(self, other)
    requires !other.APoint?
    ensures !Equals(self, other)
  {
  }

  /** A clone is a different object that is equal to its original, in both directions. */
  lemma CloneEqualsOriginal(self: PointRef, freshAddr: nat)
    requires freshAddr != self.addr
    ensures !SameObject(Clone(self, freshAddr), APoint(self))
    ensures Equals(Clone(self, freshAddr), APoint(self))
    ensures Equals(self, APoint(Clone(self, freshAddr)))
    ensures Clone(self, freshAddr).value == self.value
  {
  }
}
