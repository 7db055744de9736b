/**
 * A list of name/value header parameters that mirrors every change into a
 * string dictionary: the dictionary is updated first, then the list.
 */
module DictionaryAdapterCollection {
  import opened Common
  import opened MediaTypes

  /** The string dictionary folds keys to one case. */
  function Key(name: string): string
  {
    Upper(name)
  }

  class DictionaryAdapterCollection {
    /** The mirrored string dictionary, by folded key. */
    var source: map<string, Option<string>>
    var items: seq<NameValue>

    constructor (source: map<string, Option<string>>)
      ensures this.source == source && items == []
    {
      this.source := source;
      items := [];
    }

    /** ClearItems: empties the dictionary and the list. */
    method ClearItems()
      modifies this
      ensures source == map[] && items == []
    {
      source := map[];
      items := [];
    }

    /**
     * InsertItem: adds (Name, Value) to the dictionary, then inserts into the
     * list; a name already in the dictionary throws before the list changes.
     */
    method InsertItem(index: nat, item: NameValue) returns (error: Option<Exception>)
      requires index <= |items|
      modifies this
      ensures Key(item.name) in old(source) ==> error == Some(Argument("")) && source == old(source) && items == old(items)
      ensures Key(item.name) !in old(source) ==> (error.None? &&
        source == old(source)[Key(item.name) := item.value] &&
        items == old(items[..index]) + [item] + old(items[index..]))
    {
      if Key(item.name) in source {
        return Some(Argument(""));
      }
      source := source[Key(item.name) := item.value];
      items := items[..index] + [item] + items[index..];
      return None;
    }

    /** RemoveItem: removes the removed item's name from the dictionary, then the item. */
    method RemoveItem(index: nat)
      requires index < |items|
      modifies this
      ensures source == old(source) - {Key(old(items)[index].name)}
      ensures items == old(items[..index]) + old(items[index + 1..])
    {
      var item := items[index];
      source := source - {Key(item.name)};
      items := items[..index] + items[index + 1..];
    }

    /**
     * SetItem: sets the dictionary entry of the new name and replaces the
     * list slot; the replaced item's own key stays in the dictionary.
     */
    method SetItem(index: nat, item: NameValue)
      requires index < |items|
      modifies this
      ensures source == old(source)[Key(item.name) := item.value]
      ensures items == old(items)[index := item]
      ensures Key(old(items)[index].name) in old(source) ==> Key(old(items)[index].name) in source
    {
      source := source[Key(item.name) := item.value];
      items := items[index := item];
    }
  }
}
