/** The `ValidatedString` descriptor (stuff/practice.py): an attribute that
    accepts only strings whose length lies within `[min_length, max_length]`,
    and reads as the empty string until it is first set. One instance of the
    class below is the attribute's storage on one owning object. */
module Descriptors {
  import opened Wrappers

  datatype FieldError = TypeError | ValueError

  /** The value assigned to the attribute: a string or anything else. */
  datatype Assigned = Str(s: string) | NonString

  /** The check `__set__` makes before storing. */
  function Check(minLength: int, maxLength: int, v: Assigned): (o: Outcome<FieldError>)
    ensures o == Pass <==> v.Str? && minLength <= |v.s| <= maxLength
    ensures v.NonString? ==> o == Fail(TypeError)
    ensures v.Str? && !(minLength <= |v.s| <= maxLength) ==> o == Fail(ValueError)
  {
    if v.NonString? then Fail(TypeError)
    else if !(minLength <= |v.s| <= maxLength) then Fail(ValueError)
    else Pass
  }

  class ValidatedString {
    const minLength: int
    const maxLength: int
    /** The hidden `_name` attribute of the owner; `None` until first set. */
    var stored: Option<string>

    /** Whatever has been stored passed the length check. */
    ghost predicate Valid()
      reads this
    {
      stored.Some? ==> minLength <= |stored.value| <= maxLength
    }

    constructor (minLength: int := 0, maxLength: int := 1000)
      ensures Valid() && stored == None
      ensures this.minLength == minLength && this.maxLength == maxLength
    {
      this.minLength := minLength;
      this.maxLength := maxLength;
      stored := None;
    }

    /** `__get__`: the stored string, or `''` before the first assignment;
        never a string of a length the descriptor would refuse, except that
        empty default. */
    function Get(): (r: string)
      requires Valid()
      reads this
      ensures stored.None? ==> r == ""
      ensures stored.Some? ==> minLength <= |r| <= maxLength
    {
      if stored.Some? then stored.value else ""
    }

    /** `__set__`: a non-string raises `TypeError`, a string of the wrong
        length raises `ValueError`, and in both cases the old value stays;
        otherwise the string is stored. */
    method Set(v: Assigned) returns (o: Outcome<FieldError>)
      requires Valid()
      modifies this
      ensures Valid()
      ensures o == Check(minLength, maxLength, v)
      ensures o.Pass? ==> stored == Some(v.s)
      ensures o.Fail? ==> stored == old(stored)
    {
      if v.NonString? {
        return Fail(TypeError);
      }
      if !(minLength <= |v.s| <= maxLength) {
        return Fail(ValueError);
      }
      stored := Some(v.s);
      o := Pass;
    }
  }

  /** A value that is set is read back unchanged, and a refused value leaves
      what was read before. */
  method SetThenGet(field: ValidatedString, v: Assigned) returns (before: string, after: string, o: Outcome<FieldError>)
    requires field.Valid()
    modifies field
    ensures field.Valid()
    ensures o.Pass? ==> v.Str? && after == v.s
    ensures o.Fail? ==> after == before
  {
    before := field.Get();
    o := field.Set(v);
    after := field.Get();
  }
}
