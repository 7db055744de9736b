/**
 * The framework's NameValueCollection as the modelled code uses it: an
 * ordered list of keys (null allowed, compared ignoring case), each with
 * its list of non-null values; reading a key joins its values with ','.
 */
module NameValues {
  import opened Common

  datatype Entry = Entry(key: Option<string>, values: seq<string>)

  datatype NameValueCollection = NameValueCollection(entries: seq<Entry>)

  /** Key comparison of the collection: null matches only null, strings ignore case. */
  predicate KeyEquals(a: Option<string>, b: Option<string>)
  {
    (a.None? && b.None?) || (a.Some? && b.Some? && EqualsIgnoreCase(a.value, b.value))
  }

  /** No key occurs twice. */
  predicate Valid(c: NameValueCollection)
  {
    forall i, j :: 0 <= i < j < |c.entries| ==> !KeyEquals(c.entries[i].key, c.entries[j].key)
  }

  const Empty := NameValueCollection([])

  /** Index of the entry for key, or -1. */
  function IndexOfKey(entries: seq<Entry>, key: Option<string>): (r: int)
    ensures -1 <= r < |entries|
    ensures r >= 0 ==> KeyEquals(entries[r].key, key) && forall i :: 0 <= i < r ==> !KeyEquals(entries[i].key, key)
    ensures r == -1 ==> forall i :: 0 <= i < |entries| ==> !KeyEquals(entries[i].key, key)
  {
    if entries == [] then -1
    else if KeyEquals(entries[0].key, key) then 0
    else var k := IndexOfKey(entries[1..], key); if k == -1 then -1 else k + 1
  }

  /** NameValueCollection.Add: appends the value to the key's list (a new key goes last); a null value is not stored. */
  function Add(c: NameValueCollection, key: Option<string>, value: Option<string>): (r: NameValueCollection)
    ensures |r.entries| == |c.entries| || |r.entries| == |c.entries| + 1
    ensures Valid(c) ==> Valid(r)
  {
    var extra := if value.Some? then [value.value] else [];
    var k := IndexOfKey(c.entries, key);
    if k == -1 then NameValueCollection(c.entries + [Entry(key, extra)])
    else NameValueCollection(c.entries[k := Entry(c.entries[k].key, c.entries[k].values + extra)])
  }

  /** The keys in insertion order (AllKeys). */
  function AllKeys(c: NameValueCollection): (r: seq<Option<string>>)
    ensures |r| == |c.entries| && forall i :: 0 <= i < |r| ==> r[i] == c.entries[i].key
  {
    seq(|c.entries|, i requires 0 <= i < |c.entries| => c.entries[i].key)
  }

  /** The values joined with ','. */
  function Join(values: seq<string>): (r: string)
    requires values != []
    ensures |values| == 1 ==> r == values[0]
  {
    if |values| == 1 then values[0] else Join(values[..|values| - 1]) + "," + values[|values| - 1]
  }

  /** The indexer: null for a missing key or a key without values, else the joined values. */
  function Get(c: NameValueCollection, key: Option<string>): (r: Option<string>)
    ensures IndexOfKey(c.entries, key) == -1 ==> r.None?
  {
    var k := IndexOfKey(c.entries, key);
    if k == -1 || c.entries[k].values == [] then None else Some(Join(c.entries[k].values))
  }

  /** GetValues: null for a missing key or a key without values, else the values in order. */
  function GetValues(c: NameValueCollection, key: Option<string>): (r: Option<seq<string>>)
    ensures r.Some? ==> r.value != []
  {
    var k := IndexOfKey(c.entries, key);
    if k == -1 || c.entries[k].values == [] then None else Some(c.entries[k].values)
  }

  /** A value added under a key is the last value read back under any spelling of that key. */
  lemma {:induction false} AddThenGetValues(c: NameValueCollection, key: Option<string>, other: Option<string>, value: string)
    requires KeyEquals(key, other)
    ensures var r := GetValues(Add(c, key, Some(value)), other);
      r.Some? && r.value[|r.value| - 1] == value
  {
    var k := IndexOfKey(c.entries, key);
    var r := Add(c, key, Some(value));
    if k == -1 {
      assert r.entries == c.entries + [Entry(key, [value])];
      NoEarlierMatch(r.entries, key, other, |c.entries|);
      FirstMatchAt(r.entries, other, |c.entries|);
    } else {
      assert r.entries == c.entries[k := Entry(c.entries[k].key, c.entries[k].values + [value])];
      NoEarlierMatch(r.entries, key, other, k);
      KeysMatch(r.entries[k].key, key, other);
      FirstMatchAt(r.entries, other, k);
    }
  }

  /** Keys that miss one spelling of a key miss every spelling of it. */
  lemma NoEarlierMatch(entries: seq<Entry>, key: Option<string>, other: Option<string>, n: nat)
    requires n <= |entries| && KeyEquals(key, other)
    requires forall i :: 0 <= i < n ==> !KeyEquals(entries[i].key, key)
    ensures forall i :: 0 <= i < n ==> !KeyEquals(entries[i].key, other)
  {
    forall i | 0 <= i < n
      ensures !KeyEquals(entries[i].key, other)
    {
      if KeyEquals(entries[i].key, other) {
        KeysMatch(entries[i].key, other, key);
        assert false;
      }
    }
  }

  /** Key comparison is transitive through a key that matches both. */
  lemma KeysMatch(a: Option<string>, b: Option<string>, c: Option<string>)
    requires KeyEquals(a, b) && (KeyEquals(b, c) || KeyEquals(c, b))
    ensures KeyEquals(a, c)
  {
    if a.Some? {
      EqualsIgnoreCaseIsEquivalence(a.value, b.value, c.value);
      EqualsIgnoreCaseIsEquivalence(c.value, b.value, a.value);
    }
  }

  /** The first entry whose key matches is the one IndexOfKey finds. */
  lemma FirstMatchAt(entries: seq<Entry>, key: Option<string>, n: nat)
    requires n < |entries| && KeyEquals(entries[n].key, key)
    requires forall i :: 0 <= i < n ==> !KeyEquals(entries[i].key, key)
    ensures IndexOfKey(entries, key) == n
  {
  }
}
