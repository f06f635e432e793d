/** The shared library's VisibilityToBooleanConverter, a binding value
    converter between `Visibility` and `bool` that never throws: any value
    of the wrong type converts to the default, false or Collapsed. */
module SharedConverter {
  import opened Host

  /** `Visibility` to `bool`: true exactly for a boxed `Visible`. */
  function Convert(value: Boxed): (r: bool)
    ensures r <==> value == BoxedVisibility(Member(Visible))
  {
    match value
    case BoxedVisibility(v) => v == Member(Visible)
    case _ => false
  }

  /** `bool` to `Visibility`: Visible exactly for a boxed true. */
  function ConvertBack(value: Boxed): (r: Visibility)
    ensures r == Visible <==> value == BoxedBool(true)
  {
    var flag := if value.BoxedBool? then value.flag else false;
    if flag then Visible else Collapsed
  }

  /** Converting a visibility to a boolean and back gives it back. */
  lemma VisibilityRoundTrip(v: Visibility)
    ensures ConvertBack(BoxedBool(Convert(BoxedVisibility(Member(v))))) == v
  {
  }

  /** Converting a boolean to a visibility and back gives it back. */
  lemma BoolRoundTrip(b: bool)
    ensures Convert(BoxedVisibility(Member(ConvertBack(BoxedBool(b))))) == b
  {
  }

  /** A value of the wrong type, null, or a visibility naming no member
      converts to the default rather than failing. */
  lemma WrongTypeDefaults(value: Boxed)
    ensures !value.BoxedVisibility? ==> !Convert(value)
    ensures value.BoxedVisibility? && value.visibility.NotAMember? ==> !Convert(value)
    ensures !value.BoxedBool? ==> ConvertBack(value) == Collapsed
  {
  }
}
