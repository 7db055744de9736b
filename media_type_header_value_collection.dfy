/**
 * The supported-media-type list of a formatter: a list that refuses null
 * and media ranges on every insert and replace.
 */
module MediaTypeHeaderValueCollection {
  import opened Common
  import opened MediaTypes

  /** ValidateMediaType: null is an ArgumentNullException, a media range an ArgumentException. */
  function ValidateMediaType(item: Option<MediaTypeHeaderValue>): (error: Option<Exception>)
    ensures item.None? ==> error == Some(ArgumentNull("item"))
    ensures item.Some? && (IsAllMediaRange(item.value) || IsSubtypeMediaRange(item.value)) ==> error == Some(Argument("item"))
    ensures error.None? <==> item.Some? && !IsSubtypeMediaRange(item.value)
  {
    if item.None? then Some(ArgumentNull("item"))
    else if IsAllMediaRange(item.value) || IsSubtypeMediaRange(item.value) then Some(Argument("item"))
    else None
  }

  class MediaTypeHeaderValueCollection {
    var items: seq<MediaTypeHeaderValue>

    /** The list never holds a media range. */
    ghost predicate Valid()
      reads this
    {
      forall i :: 0 <= i < |items| ==> !IsSubtypeMediaRange(items[i]) && !IsAllMediaRange(items[i])
    }

    constructor ()
      ensures Valid() && items == []
    {
      items := [];
    }

    /** InsertItem: validate, then insert at index (the caller has checked index). */
    method InsertItem(index: nat, item: Option<MediaTypeHeaderValue>) returns (error: Option<Exception>)
      requires Valid() && index <= |items|
      modifies this
      ensures Valid()
      ensures error == ValidateMediaType(item)
      ensures error.None? ==> items == old(items[..index]) + [item.value] + old(items[index..])
      ensures error.Some? ==> items == old(items)
    {
      error := ValidateMediaType(item);
      if error.None? {
        items := items[..index] + [item.value] + items[index..];
      }
    }

    /** SetItem: validate, then replace the item at index. */
    method SetItem(index: nat, item: Option<MediaTypeHeaderValue>) returns (error: Option<Exception>)
      requires Valid() && index < |items|
      modifies this
      ensures Valid()
      ensures error == ValidateMediaType(item)
      ensures error.None? ==> items == old(items)[index := item.value]
      ensures error.Some? ==> items == old(items)
    {
      error := ValidateMediaType(item);
      if error.None? {
        items := items[index := item.value];
      }
    }
  }
}
