/** Value types of the host UI framework that both layout panels and the
    converters consume: sizes, rectangles, orientations, the IEEE values a
    dependency property may be assigned, and the records of the calls a
    panel makes into its children (measure and arrange). */
module Host {

  datatype Option<+T> = None | Some(value: T) {
    function GetOr(default: T): T {
      match this
      case Some(v) => v
      case None => default
    }
  }

  /** What a property setter or accessor signals instead of completing. */
  datatype Error =
    | ArgumentNull      // ArgumentNullException: a null element was passed
    | ArgumentInvalid   // ArgumentException: the value is out of range or undefined
    | NullReference     // NullReferenceException: a null reference was unboxed
    | InvalidCast       // InvalidCastException: a boxed value was unboxed to the wrong type

  datatype Result<+T> = Ok(value: T) | Fail(error: Error)

  datatype Outcome = Done | Rejected(error: Error)

  /** A value of an enumeration type: one of its named members, or an
      integer cast to the enumeration that names none of them. */
  datatype EnumValue<+T> = Member(value: T) | NotAMember

  /** The double-precision values a size property can be assigned;
      arithmetic on them is not modelled, only their classification. */
  datatype Double = NaN | PositiveInfinity | NegativeInfinity | Finite(value: real)

  datatype Orientation = Horizontal | Vertical

  datatype Visibility = Visible | Collapsed

  /** The `Int32` value underlying each member of `Visibility`. */
  function VisibilityValue(v: Visibility): int {
    match v
    case Visible => 0
    case Collapsed => 1
  }

  /** A value as a converter receives it, typed `object`: null, a boxed
      `Visibility` (possibly an integer naming no member), a boxed boolean,
      a boxed `Int32` (or a value of another enumeration over `Int32`,
      which boxes and unboxes alike), or a value of any other type. */
  datatype Boxed =
    | Null
    | BoxedVisibility(visibility: EnumValue<Visibility>)
    | BoxedBool(flag: bool)
    | BoxedInt(number: int)
    | BoxedOther

  /** One dimension of an available size: a finite extent or positive infinity. */
  datatype Extent = Bounded(value: real) | Unbounded

  /** A desired or final size: both dimensions finite. */
  datatype Size = Size(width: real, height: real)

  /** The size a parent offers to measure against; either dimension may be infinite. */
  datatype AvailableSize = AvailableSize(width: Extent, height: Extent)

  datatype Rect = Rect(x: real, y: real, width: real, height: real)

  /** One call `child.Measure(constraint)` on the child at `index`. */
  datatype MeasureCall = MeasureCall(index: nat, constraint: AvailableSize)

  /** One call `child.Arrange(rect)` on the child at `index`. */
  datatype Placement = Placement(index: nat, rect: Rect)

  function Max(a: real, b: real): (m: real)
    ensures m >= a && m >= b && (m == a || m == b)
  {
    if a >= b then a else b
  }

  /** `Math.Max(0.0, e - used)`, where subtracting from infinity leaves infinity. */
  function Remaining(e: Extent, used: real): (r: Extent)
    ensures r.Unbounded? <==> e.Unbounded?
    ensures r.Bounded? ==> r.value >= 0.0 && r.value >= e.value - used
    ensures r.Bounded? && used <= e.value ==> r.value == e.value - used
  {
    match e
    case Unbounded => Unbounded
    case Bounded(v) => Bounded(Max(0.0, v - used))
  }

  /** `x > bound`, where nothing exceeds positive infinity. */
  predicate Exceeds(x: real, bound: Extent) {
    bound.Bounded? && x > bound.value
  }

  /** The indices of the non-null entries of `children[a..b]`, in increasing order. */
  function NonNullIn<T>(children: seq<Option<T>>, a: nat, b: nat): (r: seq<nat>)
    requires a <= b <= |children|
    ensures forall j :: 0 <= j < |r| ==> a <= r[j] < b && children[r[j]].Some?
    ensures forall j, j' :: 0 <= j < j' < |r| ==> r[j] < r[j']
    decreases b
  {
    if b == a then []
    else NonNullIn(children, a, b - 1) + (if children[b - 1].Some? then [b - 1] else [])
  }

  /** The indices of all non-null children, in order. */
  function NonNullIndices<T>(children: seq<Option<T>>): seq<nat> {
    NonNullIn(children, 0, |children|)
  }

  lemma {:induction false} NonNullInSplit<T>(children: seq<Option<T>>, a: nat, b: nat, c: nat)
    requires a <= b <= c <= |children|
    ensures NonNullIn(children, a, b) + NonNullIn(children, b, c) == NonNullIn(children, a, c)
    decreases c
  {
    if c == b {
      assert NonNullIn(children, b, c) == [];
    } else {
      NonNullInSplit(children, a, b, c - 1);
    }
  }

  /** Every non-null index of `children[a..b]` is listed: the listing is complete. */
  lemma {:induction false} NonNullInComplete<T>(children: seq<Option<T>>, a: nat, b: nat, k: nat)
    requires a <= k < b <= |children| && children[k].Some?
    ensures k in NonNullIn(children, a, b)
    decreases b
  {
    if k < b - 1 {
      NonNullInComplete(children, a, b - 1, k);
    }
  }

  /** The child indices that a sequence of arrange calls addresses, in call order. */
  function Indices(ps: seq<Placement>): (r: seq<nat>)
    ensures |r| == |ps| && forall j :: 0 <= j < |ps| ==> r[j] == ps[j].index
  {
    seq(|ps|, j requires 0 <= j < |ps| => ps[j].index)
  }

  lemma IndicesConcat(a: seq<Placement>, b: seq<Placement>)
    ensures Indices(a + b) == Indices(a) + Indices(b)
  {
  }
}
