/**
 * The feed entry shared by every source, and its reverse-chronological
 * ordering: newer items sort first, undated items sort after all dated ones.
 *
 * Timestamps are UTC instants written as integers (seconds, say); only
 * their order matters here.
 */
module FeedItems {
  import opened Wrappers

  /** A single feed entry. Equality is structural over all six fields. */
  datatype FeedItem = FeedItem(
    id: string,
    title: string,
    description: Option<string>,
    link: Option<string>,
    published: Option<int>,
    sourceName: string)

  /** `std::cmp::Ordering`. */
  datatype Ordering = Less | Equal | Greater {
    /** `Ordering::reverse`. */
    function Reverse(): Ordering {
      match this
      case Less => Greater
      case Equal => Equal
      case Greater => Less
    }
  }

  /** `Ord for i64`-style comparison of two integers. */
  function CmpInt(x: int, y: int): Ordering {
    if x < y then Less else if x == y then Equal else Greater
  }

  /** `Ord for Option<T>` from the Rust standard library: `None` is below every `Some`. */
  function CmpOption(x: Option<int>, y: Option<int>): Ordering {
    match (x, y)
    case (None, None) => Equal
    case (None, Some(_)) => Less
    case (Some(_), None) => Greater
    case (Some(a), Some(b)) => CmpInt(a, b)
  }

  /**
   * Reference reading of "more recent": a dated timestamp is more recent than
   * no timestamp, and a later instant is more recent than an earlier one.
   */
  predicate MoreRecent(p: Option<int>, q: Option<int>) {
    p.Some? && (q.None? || p.value > q.value)
  }

  /**
   * `Ord::cmp` for `FeedItem`: the arguments' timestamps compared in reverse.
   * `Less` means `self` sorts first, that is, it is the more recent one.
   */
  function Cmp(self: FeedItem, other: FeedItem): (r: Ordering)
    ensures r == Less <==> MoreRecent(self.published, other.published)
    ensures r == Greater <==> MoreRecent(other.published, self.published)
    ensures r == Equal <==> self.published == other.published
  {
    CmpOption(other.published, self.published)
  }

  /** `PartialOrd::partial_cmp`: always defined, and agrees with `Cmp`. */
  function PartialCmp(self: FeedItem, other: FeedItem): (r: Option<Ordering>)
    ensures r.Some?
    ensures r.value == Less <==> MoreRecent(self.published, other.published)
    ensures r.value == Greater <==> MoreRecent(other.published, self.published)
    ensures r.value == Equal <==> self.published == other.published
  {
    Some(Cmp(self, other))
  }

  /** `a <= b` in the item order: `a` may stand before `b` in a sorted list. */
  predicate SortsNoLater(a: FeedItem, b: FeedItem) {
    Cmp(a, b) != Greater
  }

  lemma CmpReflexive(a: FeedItem)
    ensures Cmp(a, a) == Equal
  {
  }

  /** Swapping the arguments reverses the answer. */
  lemma CmpAntisymmetric(a: FeedItem, b: FeedItem)
    ensures Cmp(b, a) == Cmp(a, b).Reverse()
  {
  }

  lemma CmpTransitive(a: FeedItem, b: FeedItem, c: FeedItem)
    requires SortsNoLater(a, b) && SortsNoLater(b, c)
    ensures SortsNoLater(a, c)
    ensures Cmp(a, b) == Less || Cmp(b, c) == Less ==> Cmp(a, c) == Less
  {
  }

  /** Any two items are comparable, so the order is a total preorder. */
  lemma CmpTotal(a: FeedItem, b: FeedItem)
    ensures SortsNoLater(a, b) || SortsNoLater(b, a)
  {
  }

  /** A later timestamp sorts before an earlier one. */
  lemma NewerSortsFirst(a: FeedItem, b: FeedItem)
    requires a.published.Some? && b.published.Some?
    requires a.published.value > b.published.value
    ensures Cmp(a, b) == Less && Cmp(b, a) == Greater
  {
  }

  /** A dated item sorts before an undated one, whatever the dates are. */
  lemma DatedSortsBeforeUndated(a: FeedItem, b: FeedItem)
    requires a.published.Some? && b.published.None?
    ensures Cmp(a, b) == Less && Cmp(b, a) == Greater
  {
  }

  /** Equal timestamps (two `None`s included) compare `Equal` whatever the other fields hold. */
  lemma SameTimestampCompareEqual(a: FeedItem, b: FeedItem)
    requires a.published == b.published
    ensures Cmp(a, b) == Equal && Cmp(b, a) == Equal
  {
  }

  /** `Equal` in the order does not mean equal items: the order sees only `published`. */
  lemma EqualOrderingIsNotEquality()
    ensures exists a: FeedItem, b: FeedItem :: Cmp(a, b) == Equal && a != b
  {
    var a := FeedItem("a", "A", None, None, Some(0), "test");
    var b := FeedItem("b", "B", None, None, Some(0), "test");
    assert Cmp(a, b) == Equal && a != b;
  }

  // -- sorting -----------------------------------------------------------------

  /** Non-decreasing in the item order: newest first. */
  ghost predicate Sorted(s: seq<FeedItem>) {
    forall i, j {:trigger SortsNoLater(s[i], s[j])} :: 0 <= i < j < |s| ==> SortsNoLater(s[i], s[j])
  }

  /** What sortedness means for the timestamps: newest first, undated last. */
  lemma SortedIsNewestFirst(s: seq<FeedItem>, i: int, j: int)
    requires Sorted(s) && 0 <= i < j < |s|
    ensures !MoreRecent(s[j].published, s[i].published)
    ensures s[j].published.Some? ==> s[i].published.Some? && s[i].published.value >= s[j].published.value
  {
    assert SortsNoLater(s[i], s[j]);
  }

  /** A sorted list stays sorted when an item that sorts no later than all of it is put in front. */
  lemma SortedCons(h: FeedItem, t: seq<FeedItem>)
    requires Sorted(t)
    requires forall y | y in t :: SortsNoLater(h, y)
    ensures Sorted([h] + t)
  {
    var s := [h] + t;
    forall i, j | 0 <= i < j < |s| ensures SortsNoLater(s[i], s[j]) {
      if i == 0 {
        assert s[j] == t[j - 1];
      } else {
        assert s[i] == t[i - 1] && s[j] == t[j - 1];
      }
    }
  }

  /** No two entries share a timestamp. */
  ghost predicate DistinctTimes(s: seq<FeedItem>) {
    forall i, j :: 0 <= i < j < |s| ==> s[i].published != s[j].published
  }

  /** The head of a sorted list sorts no later than any of its entries. */
  lemma SortedHeadFirst(r: seq<FeedItem>, x: FeedItem)
    requires Sorted(r) && x in r
    ensures SortsNoLater(r[0], x)
  {
    var k :| 0 <= k < |r| && r[k] == x;
    if k > 0 {
      assert SortsNoLater(r[0], r[k]);
    }
  }

  /** Among items with distinct timestamps, the timestamp identifies the item. */
  lemma DistinctTimesSame(s: seq<FeedItem>, x: FeedItem, y: FeedItem)
    requires DistinctTimes(s) && x in s && y in s && x.published == y.published
    ensures x == y
  {
    var i :| 0 <= i < |s| && s[i] == x;
    var j :| 0 <= j < |s| && s[j] == y;
    assert i == j;
  }

  lemma SortedTail(r: seq<FeedItem>)
    requires Sorted(r) && r != []
    ensures Sorted(r[1..])
  {
    var t := r[1..];
    forall i, j | 0 <= i < j < |t| ensures SortsNoLater(t[i], t[j]) {
      assert SortsNoLater(r[i + 1], r[j + 1]);
    }
  }

  lemma DistinctTimesTail(r: seq<FeedItem>)
    requires DistinctTimes(r) && r != []
    ensures DistinctTimes(r[1..])
  {
    var t := r[1..];
    forall i, j | 0 <= i < j < |t| ensures t[i].published != t[j].published {
      assert t[i] == r[i + 1] && t[j] == r[j + 1];
    }
  }

  /** Two sorted arrangements of the same items with distinct timestamps start with the same item. */
  lemma SortedSameHead(r1: seq<FeedItem>, r2: seq<FeedItem>)
    requires Sorted(r1) && Sorted(r2) && multiset(r1) == multiset(r2) && DistinctTimes(r1) && r1 != []
    ensures r2 != [] && r1[0] == r2[0] && multiset(r1[1..]) == multiset(r2[1..])
  {
    assert |r2| == |multiset(r2)| == |multiset(r1)| == |r1|;
    var h1, h2 := r1[0], r2[0];
    assert h1 == h2 by {
      assert h1 in multiset(r2) && h2 in multiset(r1);
      SortedHeadFirst(r1, h2);
      SortedHeadFirst(r2, h1);
      DistinctTimesSame(r1, h1, h2);
    }
    assert multiset(r1[1..]) == multiset(r1) - multiset{h1} by {
      assert r1 == [h1] + r1[1..];
    }
    assert multiset(r2[1..]) == multiset(r2) - multiset{h1} by {
      assert r2 == [h1] + r2[1..];
    }
  }

  /**
   * When no two items share a timestamp the order leaves no choice: two
   * sorted arrangements of the same items are the same list, whatever
   * algorithm produced them.
   */
  lemma {:induction false} SortedUnique(r1: seq<FeedItem>, r2: seq<FeedItem>)
    requires Sorted(r1) && Sorted(r2) && multiset(r1) == multiset(r2) && DistinctTimes(r1)
    ensures r1 == r2
    decreases |r1|
  {
    if r1 == [] {
      assert |r2| == |multiset(r2)| == 0;
    } else {
      SortedSameHead(r1, r2);
      SortedTail(r1);
      SortedTail(r2);
      DistinctTimesTail(r1);
      SortedUnique(r1[1..], r2[1..]);
      assert r1 == [r1[0]] + r1[1..] && r2 == [r2[0]] + r2[1..];
    }
  }

  /** Places `x` in sorted `s` before the first element it does not sort after. */
  function Insert(x: FeedItem, s: seq<FeedItem>): (r: seq<FeedItem>)
    requires Sorted(s)
    ensures Sorted(r)
    ensures multiset(r) == multiset(s) + multiset{x}
  {
    if s == [] then [x]
    else if SortsNoLater(x, s[0]) then
      assert forall y | y in s :: SortsNoLater(x, y) by {
        forall y | y in s ensures SortsNoLater(x, y) {
          var k :| 0 <= k < |s| && s[k] == y;
          if k > 0 { assert SortsNoLater(s[0], s[k]); }
        }
      }
      SortedCons(x, s);
      [x] + s
    else
      var rest := Insert(x, s[1..]);
      assert forall y | y in rest :: SortsNoLater(s[0], y) by {
        forall y | y in rest ensures SortsNoLater(s[0], y) {
          assert y in multiset(rest);
          if y != x {
            assert y in s[1..];
            var k :| 0 <= k < |s[1..]| && s[1..][k] == y;
            assert SortsNoLater(s[0], s[k + 1]);
          }
        }
      }
      SortedCons(s[0], rest);
      assert s == [s[0]] + s[1..];
      [s[0]] + rest
  }

  /**
   * Sorts a list of items into the item order. It stands for the standard
   * library's unstable sort: callers rely only on "sorted, and a
   * permutation", never on the order it leaves among equal items.
   */
  function SortItems(s: seq<FeedItem>): (r: seq<FeedItem>)
    ensures Sorted(r)
    ensures multiset(r) == multiset(s)
  {
    if s == [] then []
    else
      assert s == [s[0]] + s[1..];
      Insert(s[0], SortItems(s[1..]))
  }
}
