/**
 * The order in which the negotiator reads Accept values: descending by
 * quality (a missing quality counts as 1.0) and, between equal qualities,
 * a literal media type before a subtype range before the all range. The
 * comparer is that of the formatting library the source calls; the sort
 * is its stable OrderByDescending.
 */
module MediaTypeQualityOrder {
  import opened Common
  import opened MediaTypes

  /** The quality an Accept value stands for. */
  function QualityOf(m: MediaTypeHeaderValue): real
  {
    m.quality.GetOr(1.0)
  }

  /** The quality comparer: -1, 0 or 1 as x ranks below, with or above y. */
  function Compare(x: MediaTypeHeaderValue, y: MediaTypeHeaderValue): (r: int)
    ensures -1 <= r <= 1
  {
    if QualityOf(x) < QualityOf(y) then -1
    else if QualityOf(x) > QualityOf(y) then 1
    else if !EqualsIgnoreCase(TypeOf(x), TypeOf(y)) then
      if IsAllMediaRange(x) then -1
      else if IsAllMediaRange(y) then 1
      else if IsSubtypeMediaRange(x) && !IsSubtypeMediaRange(y) then -1
      else if !IsSubtypeMediaRange(x) && IsSubtypeMediaRange(y) then 1
      else 0
    else if !EqualsIgnoreCase(SubtypeOf(x), SubtypeOf(y)) then
      if IsSubtypeMediaRange(x) then -1
      else if IsSubtypeMediaRange(y) then 1
      else 0
    else 0
  }

  /** How specific a media type is: 0 for the all range, 1 for a subtype range, 2 for a literal type. */
  function Specificity(m: MediaTypeHeaderValue): (r: int)
    ensures 0 <= r <= 2
  {
    if IsAllMediaRange(m) then 0 else if IsSubtypeMediaRange(m) then 1 else 2
  }

  /** The comparison of (quality, specificity) pairs, lexicographically. */
  function KeyCompare(x: MediaTypeHeaderValue, y: MediaTypeHeaderValue): int
  {
    if QualityOf(x) < QualityOf(y) then -1
    else if QualityOf(x) > QualityOf(y) then 1
    else if Specificity(x) < Specificity(y) then -1
    else if Specificity(x) > Specificity(y) then 1
    else 0
  }

  /** Only "*" equals "*" ignoring case. */
  lemma StarIgnoringCase(s: string)
    ensures EqualsIgnoreCase(s, "*") <==> s == "*"
  {
    if EqualsIgnoreCase(s, "*") {
      assert Upper(s)[0] == '*';
      assert UpperChar(s[0]) == '*';
      assert s == [s[0]];
    }
  }

  /** The library comparer is exactly the (quality, specificity) order. */
  lemma {:induction false} CompareIsKeyOrder(x: MediaTypeHeaderValue, y: MediaTypeHeaderValue)
    ensures Compare(x, y) == KeyCompare(x, y)
  {
    StarIgnoringCase(TypeOf(x));
    StarIgnoringCase(TypeOf(y));
    StarIgnoringCase(SubtypeOf(x));
    StarIgnoringCase(SubtypeOf(y));
    EqualsIgnoreCaseIsEquivalence(TypeOf(x), TypeOf(y), "*");
    EqualsIgnoreCaseIsEquivalence(TypeOf(y), TypeOf(x), "*");
    EqualsIgnoreCaseIsEquivalence(SubtypeOf(x), SubtypeOf(y), "*");
    EqualsIgnoreCaseIsEquivalence(SubtypeOf(y), SubtypeOf(x), "*");
  }

  /** The comparer is antisymmetric and transitive, so sorting by it is well defined. */
  lemma CompareIsTotalPreorder(x: MediaTypeHeaderValue, y: MediaTypeHeaderValue, z: MediaTypeHeaderValue)
    ensures Compare(x, y) == -Compare(y, x)
    ensures Compare(x, y) >= 0 && Compare(y, z) >= 0 ==> Compare(x, z) >= 0
  {
    CompareIsKeyOrder(x, y);
    CompareIsKeyOrder(y, x);
    CompareIsKeyOrder(y, z);
    CompareIsKeyOrder(x, z);
  }

  /** Descending order: no value ranks below a later one. */
  predicate SortedDescending(s: seq<MediaTypeHeaderValue>)
  {
    forall i, j :: 0 <= i < j < |s| ==> Compare(s[i], s[j]) >= 0
  }

  /** Insert x after every value that ranks with or above it. */
  function Insert(x: MediaTypeHeaderValue, sorted: seq<MediaTypeHeaderValue>): (r: seq<MediaTypeHeaderValue>)
    ensures multiset(r) == multiset(sorted) + multiset{x}
    ensures |r| == |sorted| + 1
  {
    if sorted == [] then [x]
    else if Compare(x, sorted[0]) > 0 then [x] + sorted
    else
      assert sorted == [sorted[0]] + sorted[1..];
      [sorted[0]] + Insert(x, sorted[1..])
  }

  lemma {:induction false} InsertKeepsOrder(x: MediaTypeHeaderValue, sorted: seq<MediaTypeHeaderValue>)
    requires SortedDescending(sorted)
    ensures SortedDescending(Insert(x, sorted))
    ensures forall k :: 0 <= k < |Insert(x, sorted)| ==> Insert(x, sorted)[k] == x || Insert(x, sorted)[k] in sorted
    decreases |sorted|
  {
    if sorted == [] {
    } else if Compare(x, sorted[0]) > 0 {
      assert Insert(x, sorted) == [x] + sorted;
      PrependKeepsOrder(x, sorted);
    } else {
      assert Insert(x, sorted) == [sorted[0]] + Insert(x, sorted[1..]);
      InsertKeepsOrder(x, sorted[1..]);
      InsertAfterHeadKeepsOrder(x, sorted, Insert(x, sorted[1..]));
      InsertAfterHeadMembers(x, sorted, Insert(x, sorted[1..]));
    }
  }

  /** A value ranking above the head of a sorted list can go in front of it. */
  lemma PrependKeepsOrder(x: MediaTypeHeaderValue, sorted: seq<MediaTypeHeaderValue>)
    requires SortedDescending(sorted) && sorted != [] && Compare(x, sorted[0]) > 0
    ensures SortedDescending([x] + sorted)
  {
    var r := [x] + sorted;
    forall i, j | 0 <= i < j < |r| ensures Compare(r[i], r[j]) >= 0 {
      if i == 0 {
        CompareIsTotalPreorder(x, sorted[0], sorted[j - 1]);
        if j > 1 {
          assert Compare(sorted[0], sorted[j - 1]) >= 0;
        }
      }
    }
  }

  /**
   * A value not ranking above the head goes into the tail: the head ranks
   * with or above everything the sorted insertion into the tail holds.
   */
  lemma InsertAfterHeadKeepsOrder(x: MediaTypeHeaderValue, sorted: seq<MediaTypeHeaderValue>, tail: seq<MediaTypeHeaderValue>)
    requires SortedDescending(sorted) && sorted != [] && Compare(x, sorted[0]) <= 0
    requires SortedDescending(tail)
    requires forall k :: 0 <= k < |tail| ==> tail[k] == x || tail[k] in sorted[1..]
    ensures SortedDescending([sorted[0]] + tail)
  {
    var r := [sorted[0]] + tail;
    forall i, j | 0 <= i < j < |r| ensures Compare(r[i], r[j]) >= 0 {
      if i == 0 {
        var v := tail[j - 1];
        if v == x {
          CompareIsTotalPreorder(x, sorted[0], x);
        } else {
          HeadRanksAboveRest(sorted, v);
        }
      } else {
        assert r[i] == tail[i - 1] && r[j] == tail[j - 1];
      }
    }
  }

  /** What the insertion into the tail holds, with the head in front, is x or a value of the list. */
  lemma InsertAfterHeadMembers(x: MediaTypeHeaderValue, sorted: seq<MediaTypeHeaderValue>, tail: seq<MediaTypeHeaderValue>)
    requires sorted != []
    requires forall k :: 0 <= k < |tail| ==> tail[k] == x || tail[k] in sorted[1..]
    ensures forall k :: 0 <= k < |tail| + 1 ==> ([sorted[0]] + tail)[k] == x || ([sorted[0]] + tail)[k] in sorted
  {
    var r := [sorted[0]] + tail;
    forall k | 0 <= k < |r| ensures r[k] == x || r[k] in sorted {
      if k > 0 && r[k] != x {
        assert tail[k - 1] in sorted[1..];
      }
    }
  }

  /** The head of a descending list ranks with or above every later value. */
  lemma HeadRanksAboveRest(sorted: seq<MediaTypeHeaderValue>, v: MediaTypeHeaderValue)
    requires SortedDescending(sorted) && sorted != [] && v in sorted[1..]
    ensures Compare(sorted[0], v) >= 0
  {
    var k :| 0 <= k < |sorted[1..]| && sorted[1..][k] == v;
    assert sorted[k + 1] == v;
  }

  /** The stable sort: each value is inserted, in order, into the sorted prefix. */
  function SortDescending(s: seq<MediaTypeHeaderValue>): (r: seq<MediaTypeHeaderValue>)
    ensures multiset(r) == multiset(s)
    ensures |r| == |s|
  {
    if s == [] then []
    else
      assert s == s[..|s| - 1] + [s[|s| - 1]];
      Insert(s[|s| - 1], SortDescending(s[..|s| - 1]))
  }

  lemma {:induction false} SortDescendingIsSorted(s: seq<MediaTypeHeaderValue>)
    ensures SortedDescending(SortDescending(s))
  {
    if s != [] {
      SortDescendingIsSorted(s[..|s| - 1]);
      InsertKeepsOrder(s[|s| - 1], SortDescending(s[..|s| - 1]));
    }
  }

  /** The values of s that rank with k (the comparer gives 0), in their order in s. */
  function RankClass(s: seq<MediaTypeHeaderValue>, k: MediaTypeHeaderValue): seq<MediaTypeHeaderValue>
  {
    if s == [] then [] else (if Compare(s[0], k) == 0 then [s[0]] else []) + RankClass(s[1..], k)
  }

  lemma {:induction false} RankClassAppend(a: seq<MediaTypeHeaderValue>, b: seq<MediaTypeHeaderValue>, k: MediaTypeHeaderValue)
    ensures RankClass(a + b, k) == RankClass(a, k) + RankClass(b, k)
  {
    if a == [] {
      assert a + b == b;
    } else {
      assert (a + b)[0] == a[0] && (a + b)[1..] == a[1..] + b;
      RankClassAppend(a[1..], b, k);
    }
  }

  /** A sorted list whose head ranks strictly below x holds nothing ranking with x. */
  lemma {:induction false} NothingRanksWith(x: MediaTypeHeaderValue, sorted: seq<MediaTypeHeaderValue>, k: MediaTypeHeaderValue)
    requires SortedDescending(sorted) && sorted != [] && Compare(x, sorted[0]) > 0 && Compare(x, k) == 0
    ensures RankClass(sorted, k) == []
    decreases |sorted|
  {
    CompareIsKeyOrder(x, sorted[0]);
    CompareIsKeyOrder(x, k);
    CompareIsKeyOrder(sorted[0], k);
    if |sorted| > 1 {
      CompareIsKeyOrder(sorted[0], sorted[1]);
      CompareIsKeyOrder(x, sorted[1]);
      NothingRanksWith(x, sorted[1..], k);
    }
  }

  /** Insertion keeps the order among equally ranked values and puts x after those already there. */
  lemma {:induction false} InsertIsStable(x: MediaTypeHeaderValue, sorted: seq<MediaTypeHeaderValue>, k: MediaTypeHeaderValue)
    requires SortedDescending(sorted)
    ensures RankClass(Insert(x, sorted), k) == RankClass(sorted, k) + (if Compare(x, k) == 0 then [x] else [])
    decreases |sorted|
  {
    if sorted == [] {
    } else if Compare(x, sorted[0]) > 0 {
      assert ([x] + sorted)[1..] == sorted;
      if Compare(x, k) == 0 {
        NothingRanksWith(x, sorted, k);
      }
    } else {
      var tail := Insert(x, sorted[1..]);
      assert ([sorted[0]] + tail)[1..] == tail;
      InsertIsStable(x, sorted[1..], k);
    }
  }

  /**
   * The sort is stable: for every value k, the values ranking with k come
   * out in the order they came in.
   */
  lemma {:induction false} SortDescendingIsStable(s: seq<MediaTypeHeaderValue>)
    ensures forall k :: RankClass(SortDescending(s), k) == RankClass(s, k)
  {
    if s != [] {
      var init, last := s[..|s| - 1], s[|s| - 1];
      SortDescendingIsStable(init);
      SortDescendingIsSorted(init);
      assert s == init + [last];
      forall k ensures RankClass(SortDescending(s), k) == RankClass(s, k) {
        InsertIsStable(last, SortDescending(init), k);
        RankClassAppend(init, [last], k);
      }
    }
  }

  /**
   * SortMediaTypeWithQualityHeaderValuesByQFactor: more than one value is
   * sorted stably, otherwise the list is returned as is.
   */
  function SortByQFactor(headerValues: Option<seq<MediaTypeHeaderValue>>): (r: Result<seq<MediaTypeHeaderValue>>)
    ensures headerValues.None? <==> r == Err(ArgumentNull("headerValues"))
    ensures r.Ok? ==> multiset(r.value) == multiset(headerValues.value) && SortedDescending(r.value)
    ensures r.Ok? ==> forall k :: RankClass(r.value, k) == RankClass(headerValues.value, k)
  {
    if headerValues.None? then Err(ArgumentNull("headerValues"))
    else if |headerValues.value| > 1 then
      SortDescendingIsSorted(headerValues.value);
      SortDescendingIsStable(headerValues.value);
      Ok(SortDescending(headerValues.value))
    else Ok(headerValues.value)
  }

  /** In a sorted list, an earlier value never has a lower quality than a later one. */
  lemma {:induction false} SortedMeansQualityDescending(s: seq<MediaTypeHeaderValue>, i: int, j: int)
    requires SortedDescending(s) && 0 <= i < j < |s|
    ensures QualityOf(s[i]) >= QualityOf(s[j])
    ensures QualityOf(s[i]) == QualityOf(s[j]) ==> Specificity(s[i]) >= Specificity(s[j])
  {
    CompareIsKeyOrder(s[i], s[j]);
  }
}
