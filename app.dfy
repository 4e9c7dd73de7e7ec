/**
 * Application state: the de-duplicated, newest-first item list, the set of
 * ids already seen, the list selection, the quit flag and the status line.
 *
 * The first part defines, on values, which items of a batch a merge admits
 * and the moves of the selection cursor; the class `App` below is the state
 * the program updates in place, specified by those functions.
 */
module AppState {
  import opened Wrappers
  import opened FeedItems

  // -- ids and de-duplication ---------------------------------------------------

  /** The ids of a list of items. */
  function Ids(s: seq<FeedItem>): set<string> {
    set x | x in s :: x.id
  }

  /** No two entries of `s` share an id. */
  ghost predicate NoDupIds(s: seq<FeedItem>) {
    forall i, j :: 0 <= i < j < |s| ==> s[i].id != s[j].id
  }

  /**
   * The items a merge of `batch` admits into a store that has seen `seen`,
   * in batch order: an item is pushed when its id is neither stored already
   * nor taken by an earlier item of the same batch. Defined from the last
   * item backwards, so that it follows the merge loop one item at a time.
   */
  function Admitted(seen: set<string>, batch: seq<FeedItem>): (r: seq<FeedItem>)
    ensures |r| <= |batch|
    decreases |batch|
  {
    if batch == [] then []
    else
      var prefix := batch[..|batch| - 1];
      var item := batch[|batch| - 1];
      Admitted(seen, prefix) + (if item.id in seen + Ids(prefix) then [] else [item])
  }

  /** One more batch item: it is admitted exactly when its id is still new. */
  lemma AdmittedSnoc(seen: set<string>, batch: seq<FeedItem>, item: FeedItem)
    ensures Admitted(seen, batch + [item]) ==
            Admitted(seen, batch) + (if item.id in seen + Ids(batch) then [] else [item])
  {
    assert (batch + [item])[..|batch|] == batch;
  }

  /**
   * The merge loop's step: from the state after the first `k` batch items,
   * item `k` is pushed exactly when its id is not yet recorded, and its id is
   * recorded in any case.
   */
  lemma PushStep(seen: set<string>, stored: seq<FeedItem>, batch: seq<FeedItem>, k: nat,
                 pushed: seq<FeedItem>, ids: set<string>)
    requires k < |batch|
    requires pushed == stored + Admitted(seen, batch[..k]) && ids == seen + Ids(batch[..k])
    ensures (if batch[k].id in ids then pushed else pushed + [batch[k]]) == stored + Admitted(seen, batch[..k + 1])
    ensures ids + {batch[k].id} == seen + Ids(batch[..k + 1])
  {
    assert batch[..k + 1] == batch[..k] + [batch[k]];
    IdsSnoc(batch[..k], batch[k]);
    AdmittedSnoc(seen, batch[..k], batch[k]);
  }

  /** Reference reading of first-seen-wins: index `i` holds the first item of the batch with its id, and that id is new. */
  ghost predicate FirstFresh(seen: set<string>, batch: seq<FeedItem>, i: int)
    requires 0 <= i < |batch|
  {
    batch[i].id !in seen && forall j :: 0 <= j < i ==> batch[j].id != batch[i].id
  }

  lemma IdsAppend(a: seq<FeedItem>, b: seq<FeedItem>)
    ensures Ids(a + b) == Ids(a) + Ids(b)
  {
    assert forall x | x in a + b :: x in a || x in b;
  }

  /** Appending one item adds its id. */
  lemma IdsSnoc(s: seq<FeedItem>, x: FeedItem)
    ensures Ids(s + [x]) == Ids(s) + {x.id}
  {
    var t := s + [x];
    forall y | y in t ensures y in s || y == x {
      var k :| 0 <= k < |t| && t[k] == y;
      if k < |s| { assert t[k] == s[k]; }
    }
    assert t[|s|] == x;
  }

  lemma NoDupAppend(a: seq<FeedItem>, b: seq<FeedItem>)
    requires NoDupIds(a) && NoDupIds(b) && Ids(a) !! Ids(b)
    ensures NoDupIds(a + b)
  {
    var s := a + b;
    forall i, j | 0 <= i < j < |s| ensures s[i].id != s[j].id {
      if j < |a| {
        assert s[i] == a[i] && s[j] == a[j];
      } else if i >= |a| {
        assert s[i] == b[i - |a|] && s[j] == b[j - |a|];
      } else {
        assert s[i] == a[i] && s[i].id in Ids(a);
        assert s[j] == b[j - |a|] && s[j].id in Ids(b);
      }
    }
  }

  /** The admitted items carry exactly the batch's ids that were not seen before. */
  lemma {:induction false} AdmittedIds(seen: set<string>, batch: seq<FeedItem>)
    ensures Ids(Admitted(seen, batch)) == Ids(batch) - seen
    decreases |batch|
  {
    if batch != [] {
      var prefix, item := batch[..|batch| - 1], batch[|batch| - 1];
      AdmittedIds(seen, prefix);
      assert batch == prefix + [item];
      IdsAppend(prefix, [item]);
      IdsAppend(Admitted(seen, prefix), if item.id in seen + Ids(prefix) then [] else [item]);
    }
  }

  /** No two admitted items share an id. */
  lemma {:induction false} AdmittedNoDup(seen: set<string>, batch: seq<FeedItem>)
    ensures NoDupIds(Admitted(seen, batch))
    decreases |batch|
  {
    if batch != [] {
      var prefix, item := batch[..|batch| - 1], batch[|batch| - 1];
      AdmittedNoDup(seen, prefix);
      AdmittedIds(seen, prefix);
      if item.id !in seen + Ids(prefix) {
        NoDupAppend(Admitted(seen, prefix), [item]);
      }
    }
  }

  /** Every first occurrence of a new id in the batch is admitted. */
  lemma {:induction false} FirstFreshAdmitted(seen: set<string>, batch: seq<FeedItem>, i: int)
    requires 0 <= i < |batch| && FirstFresh(seen, batch, i)
    ensures batch[i] in Admitted(seen, batch)
    decreases |batch|
  {
    var prefix, item := batch[..|batch| - 1], batch[|batch| - 1];
    var n := |prefix|;
    if i < n {
      assert prefix[i] == batch[i];
      assert FirstFresh(seen, prefix, i);
      FirstFreshAdmitted(seen, prefix, i);
    } else {
      forall y | y in prefix ensures y.id != item.id {
        var j :| 0 <= j < n && prefix[j] == y;
        assert batch[j] == y;
      }
      assert item.id !in seen + Ids(prefix);
    }
  }

  /** Only first occurrences of new ids are admitted. */
  lemma {:induction false} AdmittedAreFirstFresh(seen: set<string>, batch: seq<FeedItem>, x: FeedItem)
    requires x in Admitted(seen, batch)
    ensures exists i :: 0 <= i < |batch| && batch[i] == x && FirstFresh(seen, batch, i)
    decreases |batch|
  {
    var prefix, item := batch[..|batch| - 1], batch[|batch| - 1];
    var n := |prefix|;
    if x in Admitted(seen, prefix) {
      AdmittedAreFirstFresh(seen, prefix, x);
      var i :| 0 <= i < n && prefix[i] == x && FirstFresh(seen, prefix, i);
      FirstFreshInPrefix(seen, batch, i);
    } else {
      assert x == item && item.id !in seen + Ids(prefix);
      LastFirstFresh(seen, batch);
    }
  }

  /** A first fresh occurrence in the batch without its last item is one in the whole batch. */
  lemma FirstFreshInPrefix(seen: set<string>, batch: seq<FeedItem>, i: int)
    requires 0 <= i < |batch| - 1 && FirstFresh(seen, batch[..|batch| - 1], i)
    ensures batch[i] == batch[..|batch| - 1][i] && FirstFresh(seen, batch, i)
  {
  }

  /** The last item is a first fresh occurrence when its id is new to the seen ids and to the items before it. */
  lemma LastFirstFresh(seen: set<string>, batch: seq<FeedItem>)
    requires batch != [] && batch[|batch| - 1].id !in seen + Ids(batch[..|batch| - 1])
    ensures FirstFresh(seen, batch, |batch| - 1)
  {
    var n := |batch| - 1;
    forall j | 0 <= j < n ensures batch[j].id != batch[n].id {
      assert batch[..n][j] in batch[..n];
    }
  }

  /**
   * `Admitted` is exactly first-seen-wins: an item is admitted if and only if
   * it stands at an index of the batch whose id is new and not taken earlier
   * in the batch.
   */
  lemma AdmittedExactly(seen: set<string>, batch: seq<FeedItem>, x: FeedItem)
    ensures x in Admitted(seen, batch) <==>
            exists i :: 0 <= i < |batch| && batch[i] == x && FirstFresh(seen, batch, i)
  {
    if x in Admitted(seen, batch) {
      AdmittedAreFirstFresh(seen, batch, x);
    } else if i :| 0 <= i < |batch| && batch[i] == x && FirstFresh(seen, batch, i) {
      FirstFreshAdmitted(seen, batch, i);
    }
  }

  /**
   * Merging `a` and then `b` admits what merging `a + b` at once admits:
   * the second merge sees the ids the first one added.
   */
  lemma {:induction false} AdmittedAppend(seen: set<string>, a: seq<FeedItem>, b: seq<FeedItem>)
    ensures Admitted(seen, a + b) == Admitted(seen, a) + Admitted(seen + Ids(a), b)
    decreases |b|
  {
    if b == [] {
      assert a + b == a;
    } else {
      var prefix, item := b[..|b| - 1], b[|b| - 1];
      SplitLast(a, b);
      AdmittedAppend(seen, a, prefix);
      IdsAppend(a, prefix);
      var last := if item.id in seen + Ids(a + prefix) then [] else [item];
      AdmittedSnocOf(seen, a + prefix, item, a + b);
      AdmittedSnocOf(seen + Ids(a), prefix, item, b);
      Regroup(Admitted(seen, a + b), Admitted(seen, a + prefix), Admitted(seen, a),
              Admitted(seen + Ids(a), prefix), Admitted(seen + Ids(a), b), last);
    }
  }

  /** Regrouping of concatenations used by the step above. */
  lemma Regroup<T>(whole: seq<T>, front: seq<T>, x: seq<T>, y: seq<T>, back: seq<T>, last: seq<T>)
    requires whole == front + last && front == x + y && back == y + last
    ensures whole == x + back
  {
  }

  /** A non-empty `b` is its prefix and its last item, also behind `a`. */
  lemma SplitLast<T>(a: seq<T>, b: seq<T>)
    requires b != []
    ensures b == b[..|b| - 1] + [b[|b| - 1]]
    ensures a + b == (a + b[..|b| - 1]) + [b[|b| - 1]]
  {
  }

  /** `AdmittedSnoc` for a batch already known to be `batch + [item]`. */
  lemma AdmittedSnocOf(seen: set<string>, batch: seq<FeedItem>, item: FeedItem, whole: seq<FeedItem>)
    requires whole == batch + [item]
    ensures Admitted(seen, whole) ==
            Admitted(seen, batch) + (if item.id in seen + Ids(batch) then [] else [item])
  {
    AdmittedSnoc(seen, batch, item);
  }

  /** A batch whose ids are distinct and all new is admitted whole, in order. */
  lemma {:induction false} AdmittedAllNew(seen: set<string>, batch: seq<FeedItem>)
    requires NoDupIds(batch) && Ids(batch) !! seen
    ensures Admitted(seen, batch) == batch
    decreases |batch|
  {
    if batch != [] {
      var prefix, item := batch[..|batch| - 1], batch[|batch| - 1];
      assert batch == prefix + [item];
      IdsSnoc(prefix, item);
      assert NoDupIds(prefix) by {
        forall i, j | 0 <= i < j < |prefix| ensures prefix[i].id != prefix[j].id {
          assert prefix[i] == batch[i] && prefix[j] == batch[j];
        }
      }
      assert item.id !in Ids(prefix) by {
        forall y | y in prefix ensures y.id != item.id {
          var j :| 0 <= j < |prefix| && prefix[j] == y;
          assert batch[j] == y;
        }
      }
      AdmittedAllNew(seen, prefix);
    }
  }

  /** A list without repeated ids has as many distinct ids as entries. */
  lemma {:induction false} NoDupIdsCount(s: seq<FeedItem>)
    requires NoDupIds(s)
    ensures |Ids(s)| == |s|
    decreases |s|
  {
    if s != [] {
      var prefix, item := s[..|s| - 1], s[|s| - 1];
      assert NoDupIds(prefix) by {
        forall i, j | 0 <= i < j < |prefix| ensures prefix[i].id != prefix[j].id {
          assert prefix[i] == s[i] && prefix[j] == s[j];
        }
      }
      NoDupIdsCount(prefix);
      assert item.id !in Ids(prefix) by {
        forall y | y in prefix ensures y.id != item.id {
          var j :| 0 <= j < |prefix| && prefix[j] == y;
          assert s[j] == y;
        }
      }
      assert s == prefix + [item];
      IdsSnoc(prefix, item);
    }
  }

  /** A merge admits one item per distinct new id of the batch. */
  lemma AdmittedLength(seen: set<string>, batch: seq<FeedItem>)
    ensures |Admitted(seen, batch)| == |Ids(batch) - seen|
  {
    AdmittedIds(seen, batch);
    AdmittedNoDup(seen, batch);
    NoDupIdsCount(Admitted(seen, batch));
  }

  /** An empty batch admits nothing. */
  lemma AdmittedEmpty(seen: set<string>)
    ensures Admitted(seen, []) == []
  {
  }

  // -- permutations ---------------------------------------------------------------

  lemma IdsPermutation(a: seq<FeedItem>, b: seq<FeedItem>)
    requires multiset(a) == multiset(b)
    ensures Ids(a) == Ids(b)
  {
    forall x ensures x in a <==> x in b {
      assert x in a <==> x in multiset(a);
      assert x in b <==> x in multiset(b);
    }
  }

  /** In a list without repeated ids every entry occurs once. */
  lemma {:induction false} NoDupOccursOnce(s: seq<FeedItem>, k: int)
    requires NoDupIds(s) && 0 <= k < |s|
    ensures multiset(s)[s[k]] == 1
    decreases |s|
  {
    assert s == [s[0]] + s[1..];
    var t := s[1..];
    if k == 0 {
      forall j | 0 <= j < |t| ensures t[j] != s[0] {
        assert t[j] == s[j + 1];
      }
      assert s[0] !in multiset(t);
    } else {
      assert s[k] == t[k - 1] && s[0] != s[k];
      NoDupOccursOnce(t, k - 1);
    }
  }

  /** An entry at two indices occurs at least twice. */
  lemma OccursTwice(s: seq<FeedItem>, i: int, j: int)
    requires 0 <= i < j < |s| && s[i] == s[j]
    ensures multiset(s)[s[i]] >= 2
  {
    assert s == s[..j] + [s[j]] + s[j + 1..];
    assert s[i] in s[..j];
  }

  /** Reordering a list keeps its ids distinct. */
  lemma NoDupPermutation(a: seq<FeedItem>, b: seq<FeedItem>)
    requires multiset(a) == multiset(b) && NoDupIds(a)
    ensures NoDupIds(b)
  {
    forall i, j | 0 <= i < j < |b| ensures b[i].id != b[j].id {
      if b[i].id == b[j].id {
        assert b[i] in multiset(a) && b[j] in multiset(a);
        var p :| 0 <= p < |a| && a[p] == b[i];
        var q :| 0 <= q < |a| && a[q] == b[j];
        if p == q {
          OccursTwice(b, i, j);
          NoDupOccursOnce(a, p);
        }
        assert false;
      }
    }
  }

  /**
   * First-seen wins across calls: once an item is stored, every item with its
   * id in the merged list is that same item, with all its fields.
   */
  lemma FirstSeenWins(stored: seq<FeedItem>, batch: seq<FeedItem>, x: FeedItem, y: FeedItem)
    requires NoDupIds(stored) && x in stored
    requires y in stored + Admitted(Ids(stored), batch) && y.id == x.id
    ensures y == x
  {
    var added := Admitted(Ids(stored), batch);
    AdmittedIds(Ids(stored), batch);
    assert x.id in Ids(stored);
    assert y !in added by {
      assert forall z | z in added :: z.id in Ids(added);
    }
    var i :| 0 <= i < |stored| && stored[i] == x;
    var j :| 0 <= j < |stored| && stored[j] == y;
    assert i == j;
  }

  /**
   * What a merge leaves, whatever order the sort picks: the stored ids plus the
   * batch's ids, no id twice, and one new entry per distinct new id.
   */
  lemma MergeOutcome(stored: seq<FeedItem>, batch: seq<FeedItem>, merged: seq<FeedItem>)
    requires NoDupIds(stored)
    requires multiset(merged) == multiset(stored) + multiset(Admitted(Ids(stored), batch))
    ensures Ids(merged) == Ids(stored) + Ids(batch)
    ensures NoDupIds(merged)
    ensures |merged| == |stored| + |Ids(batch) - Ids(stored)|
  {
    var added := Admitted(Ids(stored), batch);
    var pushed := stored + added;
    assert multiset(merged) == multiset(pushed);
    assert Ids(added) == Ids(batch) - Ids(stored) by {
      AdmittedIds(Ids(stored), batch);
    }
    assert Ids(pushed) == Ids(stored) + Ids(batch) by {
      IdsAppend(stored, added);
    }
    assert NoDupIds(pushed) by {
      AdmittedNoDup(Ids(stored), batch);
      NoDupAppend(stored, added);
    }
    IdsPermutation(pushed, merged);
    NoDupPermutation(pushed, merged);
    assert |merged| == |pushed| by {
      assert |merged| == |multiset(merged)| && |pushed| == |multiset(pushed)|;
    }
    AdmittedLength(Ids(stored), batch);
  }

  /**
   * First-seen wins, stated on the merged list: every stored item is kept, and
   * every entry whose id was already stored is one of the old entries.
   */
  lemma MergeKeepsStored(stored: seq<FeedItem>, batch: seq<FeedItem>, merged: seq<FeedItem>)
    requires multiset(merged) == multiset(stored) + multiset(Admitted(Ids(stored), batch))
    ensures forall x | x in stored :: x in merged
    ensures forall x | x in merged && x.id in Ids(stored) :: x in stored
  {
    var added := Admitted(Ids(stored), batch);
    assert multiset(merged) == multiset(stored + added);
    AdmittedIds(Ids(stored), batch);
    forall x | x in stored ensures x in merged {
      assert x in multiset(stored + added);
    }
    forall x | x in merged && x.id in Ids(stored) ensures x in stored {
      assert x in multiset(stored + added);
      assert x !in added by {
        assert forall z | z in added :: z.id in Ids(added);
      }
    }
  }

  /**
   * `items` and `seen` are what merging `batch` into `items0` and `seen0`
   * leaves, up to the order of `items`.
   */
  ghost predicate MergeOf(items0: seq<FeedItem>, seen0: set<string>, batch: seq<FeedItem>,
                          items: seq<FeedItem>, seen: set<string>) {
    && multiset(items) == multiset(items0) + multiset(Admitted(seen0, batch))
    && seen == seen0 + Ids(batch)
  }

  /** Merging `a` and then `b` leaves what merging `a + b` at once leaves. */
  lemma MergeOfCompose(items0: seq<FeedItem>, seen0: set<string>, a: seq<FeedItem>, b: seq<FeedItem>,
                       items1: seq<FeedItem>, seen1: set<string>, items2: seq<FeedItem>, seen2: set<string>)
    requires MergeOf(items0, seen0, a, items1, seen1)
    requires MergeOf(items1, seen1, b, items2, seen2)
    ensures MergeOf(items0, seen0, a + b, items2, seen2)
  {
    AdmittedAppend(seen0, a, b);
    IdsAppend(a, b);
  }

  /** An empty batch changes neither the stored items nor the recorded ids. */
  lemma MergeOfEmpty(items0: seq<FeedItem>, seen0: set<string>, items: seq<FeedItem>, seen: set<string>)
    requires MergeOf(items0, seen0, [], items, seen)
    ensures multiset(items) == multiset(items0) && |items| == |items0| && seen == seen0
  {
    assert |items| == |multiset(items)| && |items0| == |multiset(items0)|;
  }

  /**
   * When the merged items have distinct timestamps the merge result is
   * determined: `sort_unstable` has no ties to break.
   */
  lemma MergeDeterministic(items0: seq<FeedItem>, seen0: set<string>, batch: seq<FeedItem>,
                           items1: seq<FeedItem>, seen1: set<string>, items2: seq<FeedItem>, seen2: set<string>)
    requires MergeOf(items0, seen0, batch, items1, seen1) && Sorted(items1) && DistinctTimes(items1)
    requires MergeOf(items0, seen0, batch, items2, seen2) && Sorted(items2)
    ensures items1 == items2 && seen1 == seen2
  {
    SortedUnique(items1, items2);
  }

  // -- the merge scenarios of the test suite, for any items of their shape ------

  /** `x` is dated, and strictly later than the dated `y`. */
  predicate DatedAfter(x: FeedItem, y: FeedItem) {
    x.published.Some? && y.published.Some? && x.published.value > y.published.value
  }

  /** A batch of one admits its item exactly when its id is new. */
  lemma AdmittedSingle(seen: set<string>, x: FeedItem)
    ensures Admitted(seen, [x]) == if x.id in seen then [] else [x]
  {
    assert [x] == [] + [x];
    AdmittedSnoc(seen, [], x);
  }

  /** The ids of a batch of two and of three. */
  lemma IdsSmall(x: FeedItem, y: FeedItem, z: FeedItem)
    ensures Ids([x, y]) == {x.id, y.id}
    ensures Ids([x, y, z]) == {x.id, y.id, z.id}
  {
    assert [x, y] == [x] + [y];
    assert [x, y, z] == [x, y] + [z];
    IdsSnoc([], x);
    assert [] + [x] == [x];
    IdsSnoc([x], y);
    IdsSnoc([x, y], z);
  }

  /** Two items with distinct new ids are both admitted, in order. */
  lemma AdmittedTwoNew(seen: set<string>, x: FeedItem, y: FeedItem)
    requires x.id !in seen && y.id !in seen && x.id != y.id
    ensures Admitted(seen, [x, y]) == [x, y]
  {
    AdmittedSingle(seen, x);
    assert [x, y] == [x] + [y];
    AdmittedSnoc(seen, [x], y);
    assert Ids([x]) == {x.id} by {
      IdsSnoc([], x);
      assert [] + [x] == [x];
    }
  }

  /** After an item whose id is already stored, only the second, new item is admitted. */
  lemma AdmittedRepeatThenNew(seen: set<string>, x: FeedItem, y: FeedItem)
    requires x.id in seen && y.id !in seen
    ensures Admitted(seen, [x, y]) == [y]
  {
    AdmittedSingle(seen, x);
    assert [x, y] == [x] + [y];
    AdmittedSnoc(seen, [x], y);
    assert Ids([x]) == {x.id} by {
      IdsSnoc([], x);
      assert [] + [x] == [x];
    }
  }

  /** Three items, newest first, with distinct dates, are sorted that way. */
  lemma NewestFirstSorted(x1: FeedItem, x2: FeedItem, x3: FeedItem)
    requires DatedAfter(x3, x2) && DatedAfter(x2, x1)
    ensures Sorted([x3, x2, x1]) && DistinctTimes([x3, x2, x1])
    ensures Sorted([x2, x1]) && DistinctTimes([x2, x1])
  {
    var s, t := [x3, x2, x1], [x2, x1];
    forall i, j | 0 <= i < j < 3 ensures SortsNoLater(s[i], s[j]) {}
    forall i, j | 0 <= i < j < 2 ensures SortsNoLater(t[i], t[j]) {}
  }

  /** Three items with distinct ids merged into an empty store: all of them are stored. */
  lemma ThreeNewStored(x1: FeedItem, x2: FeedItem, x3: FeedItem, items: seq<FeedItem>, seen: set<string>)
    requires x1.id != x2.id && x1.id != x3.id && x2.id != x3.id
    requires MergeOf([], {}, [x1, x2, x3], items, seen)
    ensures multiset(items) == multiset([x3, x2, x1])
  {
    var batch := [x1, x2, x3];
    assert NoDupIds(batch) && Ids(batch) !! {} by {
      assert forall i, j | 0 <= i < j < 3 :: batch[i].id != batch[j].id;
    }
    AdmittedAllNew({}, batch);
  }

  /** The ids recorded by a merge of three items into an empty store. */
  lemma ThreeNewIds(x1: FeedItem, x2: FeedItem, x3: FeedItem, items: seq<FeedItem>, seen: set<string>)
    requires MergeOf([], {}, [x1, x2, x3], items, seen)
    ensures seen == {x1.id, x2.id, x3.id}
  {
    IdsSmall(x1, x2, x3);
  }

  /**
   * Three items with distinct ids, listed oldest first and merged into an
   * empty store, come out newest first (the test's samples, dated
   * 2024-01-01, 2025-06-01 and 2026-01-01, as ids "3", "2", "1").
   */
  lemma MergeSampleNewestFirst(x1: FeedItem, x2: FeedItem, x3: FeedItem, items: seq<FeedItem>, seen: set<string>)
    requires x1.id != x2.id && x1.id != x3.id && x2.id != x3.id
    requires DatedAfter(x3, x2) && DatedAfter(x2, x1)
    requires MergeOf([], {}, [x1, x2, x3], items, seen) && Sorted(items)
    ensures items == [x3, x2, x1] && |items| == 3
    ensures seen == {x1.id, x2.id, x3.id}
  {
    ThreeNewStored(x1, x2, x3, items, seen);
    ThreeNewIds(x1, x2, x3, items, seen);
    NewestFirstSorted(x1, x2, x3);
    SortedUnique([x3, x2, x1], items);
  }

  /** A first merge of one item into an empty store stores it and records its id. */
  lemma OneStored(x: FeedItem, items: seq<FeedItem>, seen: set<string>)
    requires MergeOf([], {}, [x], items, seen)
    ensures multiset(items) == multiset{x} && seen == {x.id}
  {
    AdmittedSingle({}, x);
    IdsSnoc([], x);
    assert [] + [x] == [x];
  }

  /** A repeated id and then a new one, merged into a store of one item: only the new item is added. */
  lemma RepeatThenNewStored(first: FeedItem, second: FeedItem, latest: FeedItem,
                            items1: seq<FeedItem>, items2: seq<FeedItem>, seen2: set<string>)
    requires second.id == first.id && latest.id != first.id
    requires multiset(items1) == multiset{first}
    requires MergeOf(items1, {first.id}, [second, latest], items2, seen2)
    ensures multiset(items2) == multiset{first, latest}
  {
    AdmittedRepeatThenNew({first.id}, second, latest);
  }

  /** The ids recorded after the repeated id and the new one. */
  lemma RepeatThenNewIds(first: FeedItem, second: FeedItem, latest: FeedItem,
                         items1: seq<FeedItem>, items2: seq<FeedItem>, seen2: set<string>)
    requires second.id == first.id
    requires MergeOf(items1, {first.id}, [second, latest], items2, seen2)
    ensures seen2 == {first.id, latest.id}
  {
    IdsSmall(second, latest, latest);
  }

  /**
   * First seen wins across calls: after `first` is merged into an empty
   * store, a batch holding another item with its id and then an item with a
   * new id adds only the latter, and the stored entry with the repeated id
   * is `first` with all its fields (in the test, title "First").
   */
  lemma MergeDedupScenario(first: FeedItem, second: FeedItem, latest: FeedItem,
                           items1: seq<FeedItem>, seen1: set<string>, items2: seq<FeedItem>, seen2: set<string>)
    requires second.id == first.id && latest.id != first.id
    requires MergeOf([], {}, [first], items1, seen1)
    requires MergeOf(items1, seen1, [second, latest], items2, seen2)
    ensures |items2| == 2 && first in items2 && latest in items2
    ensures forall x | x in items2 && x.id == first.id :: x == first
    ensures seen2 == {first.id, latest.id}
  {
    OneStored(first, items1, seen1);
    RepeatThenNewStored(first, second, latest, items1, items2, seen2);
    RepeatThenNewIds(first, second, latest, items1, items2, seen2);
    assert |items2| == |multiset(items2)|;
    forall x | x in items2 && x.id == first.id ensures x == first {
      assert x in multiset(items2);
    }
  }

  /** First cycle of the scenario below: both items are stored. */
  lemma FirstCycleStored(a: FeedItem, b: FeedItem, items1: seq<FeedItem>, seen1: set<string>)
    requires a.id != b.id
    requires MergeOf([], {}, [a, b], items1, seen1)
    ensures multiset(items1) == multiset([b, a])
  {
    AdmittedTwoNew({}, a, b);
  }

  /** First cycle of the scenario below: both ids are recorded. */
  lemma FirstCycleIds(a: FeedItem, b: FeedItem, items1: seq<FeedItem>, seen1: set<string>)
    requires MergeOf([], {}, [a, b], items1, seen1)
    ensures seen1 == {a.id, b.id}
  {
    IdsSmall(a, b, b);
  }

  /** Second cycle of the scenario below: the repeat of `a` is dropped and `c` is added. */
  lemma SecondCycleStored(a: FeedItem, b: FeedItem, c: FeedItem,
                          items1: seq<FeedItem>, items2: seq<FeedItem>, seen2: set<string>)
    requires c.id != a.id && c.id != b.id
    requires multiset(items1) == multiset([b, a])
    requires MergeOf(items1, {a.id, b.id}, [a, c], items2, seen2)
    ensures multiset(items2) == multiset([c, b, a])
  {
    AdmittedRepeatThenNew({a.id, b.id}, a, c);
    assert multiset(items2) == multiset([b, a]) + multiset([c]);
  }

  /**
   * Two fetch cycles: `[A, B]` merged into an empty store gives `[B, A]`;
   * then `[A, C]`, whose `A` is a repeat, gives `[C, B, A]` (dated, say,
   * 2024, 2025 and 2026).
   */
  lemma MergeTwoCyclesScenario(a: FeedItem, b: FeedItem, c: FeedItem,
                               items1: seq<FeedItem>, seen1: set<string>, items2: seq<FeedItem>, seen2: set<string>)
    requires a.id != b.id && a.id != c.id && b.id != c.id
    requires DatedAfter(b, a) && DatedAfter(c, b)
    requires MergeOf([], {}, [a, b], items1, seen1) && Sorted(items1)
    requires MergeOf(items1, seen1, [a, c], items2, seen2) && Sorted(items2)
    ensures items1 == [b, a]
    ensures items2 == [c, b, a] && |items2| == 3
  {
    FirstCycleStored(a, b, items1, seen1);
    FirstCycleIds(a, b, items1, seen1);
    SecondCycleStored(a, b, c, items1, items2, seen2);
    NewestFirstSorted(a, b, c);
    SortedUnique([b, a], items1);
    SortedUnique([c, b, a], items2);
  }

  // -- the selection cursor -----------------------------------------------------

  /** The selection names an existing row, or nothing. */
  predicate InRange(sel: Option<nat>, len: nat) {
    sel.None? || sel.value < len
  }

  function Min(a: nat, b: nat): nat {
    if a < b then a else b
  }

  /** `select_next` on a list of `len` rows: one row down, stopping at the last row. */
  function NextSelection(sel: Option<nat>, len: nat): (r: Option<nat>)
    ensures len == 0 ==> r == sel
    ensures len > 0 ==> r.Some? && r.value < len
    ensures len > 0 && sel.None? ==> r == Some(0)
    ensures len > 0 && sel.Some? && sel.value + 1 < len ==> r == Some(sel.value + 1)
    ensures len > 0 && sel.Some? && sel.value + 1 >= len ==> r == Some(len - 1)
  {
    if len == 0 then sel
    else
      match sel
      case None => Some(0)
      case Some(i) => Some(Min(i + 1, len - 1))
  }

  /** `select_previous`: one row up, stopping at the first row (`saturating_sub`). */
  function PreviousSelection(sel: Option<nat>, len: nat): (r: Option<nat>)
    ensures len == 0 ==> r == sel
    ensures len > 0 ==> r.Some?
    ensures InRange(sel, len) ==> InRange(r, len)
    ensures len > 0 && sel.None? ==> r == Some(0)
    ensures len > 0 && sel.Some? && sel.value > 0 ==> r == Some(sel.value - 1)
    ensures len > 0 && sel == Some(0) ==> r == Some(0)
  {
    if len == 0 then sel
    else
      match sel
      case None => Some(0)
      case Some(i) => Some(if i == 0 then 0 else i - 1)
  }

  /** `select_first`. */
  function FirstSelection(sel: Option<nat>, len: nat): (r: Option<nat>)
    ensures len == 0 ==> r == sel
    ensures len > 0 ==> r == Some(0)
  {
    if len == 0 then sel else Some(0)
  }

  /** `select_last`. */
  function LastSelection(sel: Option<nat>, len: nat): (r: Option<nat>)
    ensures len == 0 ==> r == sel
    ensures len > 0 ==> r == Some(len - 1) && InRange(r, len)
  {
    if len == 0 then sel else Some(len - 1)
  }

  /** `select_next` pressed `k` times. */
  function NextTimes(sel: Option<nat>, len: nat, k: nat): Option<nat>
    decreases k
  {
    if k == 0 then sel else NextTimes(NextSelection(sel, len), len, k - 1)
  }

  /** `select_previous` pressed `k` times. */
  function PreviousTimes(sel: Option<nat>, len: nat, k: nat): Option<nat>
    decreases k
  {
    if k == 0 then sel else PreviousTimes(PreviousSelection(sel, len), len, k - 1)
  }

  /** From row `i`, `k` moves down reach row `i + k`, or the last row if that is nearer. */
  lemma {:induction false} NextTimesFromRow(i: nat, len: nat, k: nat)
    requires i < len
    ensures NextTimes(Some(i), len, k) == Some(Min(i + k, len - 1))
    decreases k
  {
    if k > 0 {
      NextTimesFromRow(Min(i + 1, len - 1), len, k - 1);
    }
  }

  /** With nothing selected, `k > 0` moves down reach row `k - 1`, or the last row. */
  lemma NextTimesFromNothing(len: nat, k: nat)
    requires len > 0 && k > 0
    ensures NextTimes(None, len, k) == Some(Min(k - 1, len - 1))
  {
    NextTimesFromRow(0, len, k - 1);
  }

  /** From row `i`, `k` moves up reach row `i - k`, or row 0 if that is nearer. */
  lemma {:induction false} PreviousTimesFromRow(i: nat, len: nat, k: nat)
    requires i < len
    ensures PreviousTimes(Some(i), len, k) == Some(if i >= k then i - k else 0)
    decreases k
  {
    if k > 0 {
      PreviousTimesFromRow(if i == 0 then 0 else i - 1, len, k - 1);
    }
  }

  /** On an empty list no sequence of moves selects anything. */
  lemma {:induction false} MovesOnEmptyList(sel: Option<nat>, k: nat)
    ensures NextTimes(sel, 0, k) == sel && PreviousTimes(sel, 0, k) == sel
    decreases k
  {
    if k > 0 {
      MovesOnEmptyList(sel, k - 1);
    }
  }

  /** The cursor clamps: down from the last row and up from the first row stay put. */
  lemma SelectionClamps(sel: Option<nat>, len: nat)
    ensures NextSelection(LastSelection(sel, len), len) == LastSelection(sel, len)
    ensures PreviousSelection(FirstSelection(sel, len), len) == FirstSelection(sel, len)
  {
  }

  // -- the application state ----------------------------------------------------

  const StartingStatus: string := "Starting\U{2026}"

  /** `App`: the single owner of the item list and the navigation state. */
  class App {
    /** De-duplicated items, newest first. */
    var items: seq<FeedItem>
    /** The ids already merged. */
    var seen: set<string>
    /** The highlighted row of the list widget; its scroll offset belongs to the renderer. */
    var selected: Option<nat>
    /** Set when the user asks to quit; read by the main loop. */
    var quit: bool
    /** The status line shown at the bottom of the screen. */
    var status: string

    /** `seen` is the set of stored ids, no id is stored twice, the list is sorted, and the selection names a row. */
    ghost predicate Valid()
      reads this
    {
      && seen == Ids(items)
      && NoDupIds(items)
      && Sorted(items)
      && InRange(selected, |items|)
    }

    /** `App::new` / `Default`: empty list, nothing selected, not quitting, status "Starting…". */
    constructor ()
      ensures Valid()
      ensures items == [] && seen == {} && selected == None
      ensures !quit && status == StartingStatus
    {
      items := [];
      seen := {};
      selected := None;
      quit := false;
      status := StartingStatus;
    }

    /**
     * The loop of `merge_items`: pushes, in batch order, each item whose id
     * `seen` does not hold yet, and records every id of the batch.
     */
    method PushUnseen(batch: seq<FeedItem>)
      modifies this`items, this`seen
      ensures items == old(items) + Admitted(old(seen), batch)
      ensures seen == old(seen) + Ids(batch)
    {
      var k := 0;
      while k < |batch|
        invariant 0 <= k <= |batch|
        invariant items == old(items) + Admitted(old(seen), batch[..k])
        invariant seen == old(seen) + Ids(batch[..k])
      {
        var item := batch[k];
        PushStep(old(seen), old(items), batch, k, items, seen);
        // `HashSet::insert` adds the id and answers whether it was absent.
        var inserted := item.id !in seen;
        seen := seen + {item.id};
        if inserted {
          items := items + [item];
        }
        k := k + 1;
      }
      assert batch[..k] == batch;
    }

    /**
     * `merge_items`: pushes each batch item whose id is new (first seen wins,
     * also within the batch), then re-sorts the whole list. Only "sorted, and
     * a permutation of the old items plus the admitted ones" is promised: the
     * order among items with equal timestamps is not.
     */
    method MergeItems(batch: seq<FeedItem>)
      requires Valid()
      modifies this`items, this`seen
      ensures Valid()
      ensures MergeOf(old(items), old(seen), batch, items, seen)
      ensures |items| == |old(items)| + |Ids(batch) - old(seen)|
      ensures forall x | x in old(items) :: x in items
      ensures forall x | x in items && x.id in old(seen) :: x in old(items)
    {
      PushUnseen(batch);
      // `sort_unstable`
      items := SortItems(items);
      MergeOutcome(old(items), batch, items);
      MergeKeepsStored(old(items), batch, items);
    }

    /** `select_next`. */
    method SelectNext()
      requires Valid()
      modifies this`selected
      ensures Valid()
      ensures selected == NextSelection(old(selected), |items|)
    {
      if |items| == 0 {
        return;
      }
      var i := match selected
        case None => 0
        case Some(i) => Min(i + 1, |items| - 1);
      selected := Some(i);
    }

    /** `select_previous`. */
    method SelectPrevious()
      requires Valid()
      modifies this`selected
      ensures Valid()
      ensures selected == PreviousSelection(old(selected), |items|)
    {
      if |items| == 0 {
        return;
      }
      var i := match selected
        case None => 0
        case Some(i) => if i == 0 then 0 else i - 1;
      selected := Some(i);
    }

    /** `select_first`. */
    method SelectFirst()
      requires Valid()
      modifies this`selected
      ensures Valid()
      ensures selected == FirstSelection(old(selected), |items|)
    {
      if |items| != 0 {
        selected := Some(0);
      }
    }

    /** `select_last`. */
    method SelectLast()
      requires Valid()
      modifies this`selected
      ensures Valid()
      ensures selected == LastSelection(old(selected), |items|)
    {
      if |items| != 0 {
        selected := Some(|items| - 1);
      }
    }
  }
}
