/**
 * How a document path stores a body value. Assigning a value to a path
 * (`doc[key] = value`, or a key of the object given to a model's
 * constructor) casts it to the path's declared type; a value that does
 * not fit makes the following `save()` throw, which the handlers answer
 * with 500. Each cast below returns None for such a value.
 */
module Schema {

  import opened Wrappers
  import opened Values
  import opened Text

  /** A `String` path with `required: true, trim: true`: the value's text, trimmed, which must not be empty. */
  function RequiredText(v: Value): (r: Option<string>)
    ensures r.Some? <==> Stringify(v).Some? && !Blank(Stringify(v).value)
    ensures r.Some? ==> r.value == Trim(Stringify(v).value) && r.value != [] && Trimmed(r.value)
  {
    var text := Stringify(v);
    if text.Some? && Trim(text.value) != [] then Some(Trim(text.value)) else None
  }

  /** A `String` path with `trim: true`: null clears it, any other value but an array is stored as its trimmed text. */
  function OptionalText(v: Value): (r: Option<Option<string>>)
    ensures r.Some? <==> !v.Arr?
    ensures r == Some(None) <==> v.Null?
    ensures r.Some? && r.value.Some? ==> r.value.value == Trim(Stringify(v).value) && Trimmed(r.value.value)
  {
    if v.Null? then Some(None)
    else if v.Arr? then None
    else Some(Some(Trim(Stringify(v).value)))
  }

  /** An `ObjectId` path. */
  function Ref(v: Value): (r: Option<Id>)
    ensures r.Some? <==> v.Oid?
    ensures r.Some? ==> r.value == v.id
  {
    if v.Oid? then Some(v.id) else None
  }

  /** An optional `ObjectId` path: null clears it. */
  function OptionalRef(v: Value): (r: Option<Option<Id>>)
    ensures r.Some? <==> v.Null? || v.Oid?
    ensures r == Some(None) <==> v.Null?
    ensures r.Some? && r.value.Some? ==> v.Oid? && r.value.value == v.id
  {
    match v
    case Null => Some(None)
    case Oid(id) => Some(Some(id))
    case _ => None
  }

  /**
   * What an optional `ObjectId` path of a stored document holds: nothing
   * when no value was ever written (the path reads as undefined), null when
   * it was cleared, or an id.
   */
  datatype Link = Unset | Cleared | Linked(id: Id)

  /** The link an optional `ObjectId` path stores for a value that fits it. */
  function LinkOf(v: Value): (l: Link)
    requires OptionalRef(v).Some?
    ensures !l.Unset?
    ensures l.Cleared? <==> v.Null?
    ensures l.Linked? ==> v == Oid(l.id)
  {
    if v.Null? then Cleared else Linked(v.id)
  }

  /** The elements of an array of `ObjectId`s, in order; None when some element is not an ObjectId. */
  function RefItems(items: seq<Value>): (r: Option<seq<Id>>)
    ensures r.Some? <==> forall i :: 0 <= i < |items| ==> items[i].Oid?
    ensures r.Some? ==> |r.value| == |items| && forall i :: 0 <= i < |items| ==> r.value[i] == items[i].id
  {
    if items == [] then Some([])
    else
      var rest := RefItems(items[1..]);
      if items[0].Oid? && rest.Some? then Some([items[0].id] + rest.value) else None
  }

  /** An array-of-`ObjectId` path. */
  function RefList(v: Value): (r: Option<seq<Id>>)
    ensures r.Some? <==> v.Arr? && forall i :: 0 <= i < |v.items| ==> v.items[i].Oid?
    ensures r.Some? ==> |r.value| == |v.items|
    ensures r.Some? ==> forall i :: 0 <= i < |v.items| ==> v.items[i] == Oid(r.value[i])
  {
    if v.Arr? then RefItems(v.items) else None
  }

  /** A `Date` path, as a number of milliseconds; null clears it. */
  function OptionalDate(v: Value): (r: Option<Option<int>>)
    ensures r.Some? <==> v.Null? || v.Num?
    ensures r.Some? && r.value.Some? ==> v.Num? && r.value.value == v.n
  {
    match v
    case Null => Some(None)
    case Num(n) => Some(Some(n))
    case _ => None
  }
}
