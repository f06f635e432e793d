/** The Windows Runtime library's VisibilityToBooleanConverter. It unboxes
    its argument without a type check, so null and values of the wrong
    type throw, and a `Visibility` naming no member is rejected. The
    runtime unboxes an enumeration from its underlying type, so a boxed
    `Int32` is read as the visibility it numbers. */
module WinRTConverter {
  import opened Host
  import SharedConverter

  /** The visibility a boxed `Int32` unboxes to: the member it numbers, if any. */
  function VisibilityOf(n: int): (v: EnumValue<Visibility>)
    ensures v.Member? <==> exists m: Visibility :: VisibilityValue(m) == n
    ensures v.Member? ==> VisibilityValue(v.value) == n
  {
    if n == VisibilityValue(Visible) then Member(Visible)
    else if n == VisibilityValue(Collapsed) then Member(Collapsed)
    else NotAMember
  }

  /** `Visibility` to `bool`: true for Visible, false for Collapsed, whether
      boxed as a `Visibility` or as its `Int32` value; null fails to unbox,
      another type fails the cast, and a value naming no member is an
      invalid argument. */
  function Convert(value: Boxed): (r: Result<bool>)
    ensures r.Ok? <==> (value.BoxedVisibility? && value.visibility.Member?) || (value.BoxedInt? && VisibilityOf(value.number).Member?)
    ensures r.Ok? && value.BoxedVisibility? ==> (r.value <==> value.visibility.value == Visible)
    ensures r.Ok? && value.BoxedInt? ==> (r.value <==> value.number == VisibilityValue(Visible))
    ensures value == Null ==> r == Fail(NullReference)
    ensures value.BoxedBool? || value.BoxedOther? ==> r == Fail(InvalidCast)
    ensures value == BoxedVisibility(NotAMember) ==> r == Fail(ArgumentInvalid)
    ensures value.BoxedInt? && VisibilityOf(value.number).NotAMember? ==> r == Fail(ArgumentInvalid)
  {
    var unboxed: Result<EnumValue<Visibility>> :=
      match value
      case Null => Fail(NullReference)
      case BoxedVisibility(v) => Ok(v)
      case BoxedInt(n) => Ok(VisibilityOf(n))
      case _ => Fail(InvalidCast);
    match unboxed
    case Fail(e) => Fail(e)
    case Ok(Member(Visible)) => Ok(true)
    case Ok(Member(Collapsed)) => Ok(false)
    case Ok(NotAMember) => Fail(ArgumentInvalid)
  }

  /** A visibility boxed as its `Int32` value converts as the visibility itself. */
  lemma IntegerConvertsAsVisibility(v: Visibility)
    ensures Convert(BoxedInt(VisibilityValue(v))) == Convert(BoxedVisibility(Member(v)))
  {
  }

  /** `bool` to `Visibility`: Visible for true, Collapsed for false; null
      fails to unbox and another type fails the cast. */
  function ConvertBack(value: Boxed): (r: Result<Visibility>)
    ensures r.Ok? <==> value.BoxedBool?
    ensures r.Ok? ==> (r.value == Visible <==> value.flag)
    ensures value == Null ==> r == Fail(NullReference)
    ensures !value.Null? && !value.BoxedBool? ==> r == Fail(InvalidCast)
  {
    match value
    case Null => Fail(NullReference)
    case BoxedBool(b) => if b then Ok(Visible) else Ok(Collapsed)
    case _ => Fail(InvalidCast)
  }

  /** Converting a visibility to a boolean and back gives it back. */
  lemma VisibilityRoundTrip(v: Visibility)
    ensures Convert(BoxedVisibility(Member(v))).Ok?
    ensures ConvertBack(BoxedBool(Convert(BoxedVisibility(Member(v))).value)) == Ok(v)
  {
  }

  /** Converting a boolean to a visibility and back gives it back. */
  lemma BoolRoundTrip(b: bool)
    ensures ConvertBack(BoxedBool(b)).Ok?
    ensures Convert(BoxedVisibility(Member(ConvertBack(BoxedBool(b)).value))) == Ok(b)
  {
  }

  /** Where this converter succeeds on anything but a boxed integer it
      agrees with the shared library's; where it throws, the shared one
      returns its default instead. A boxed integer numbering `Visible` is
      where they part: this one unboxes it to true, the shared one's exact
      type test sends it to false. */
  lemma AgreesWithShared(value: Boxed)
    ensures Convert(value).Ok? && !value.BoxedInt? ==> Convert(value).value == SharedConverter.Convert(value)
    ensures value.BoxedInt? ==> !SharedConverter.Convert(value) && (Convert(value) == Ok(true) <==> value.number == VisibilityValue(Visible))
    ensures Convert(value).Fail? ==> !SharedConverter.Convert(value)
    ensures ConvertBack(value).Ok? ==> ConvertBack(value).value == SharedConverter.ConvertBack(value)
    ensures ConvertBack(value).Fail? ==> SharedConverter.ConvertBack(value) == Collapsed
  {
  }
}
