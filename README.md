# Live-scrolling RSS reader: the state core, in Dafny

This project models the single-threaded state of a terminal feed reader and
proves properties of that state. The reader polls RSS feeds in the
background, merges every fetched batch into one de-duplicated,
newest-first list of feed items, and lets the user move a cursor over that
list from the keyboard.

The model has six modules:

- `Wrappers` (`wrappers.dfy`): Rust's `Option` with the combinators
  `or_else`, `unwrap_or` and `and_then`.
- `FeedItems` (`feed_item.dfy`): the `FeedItem` record and its
  reverse-chronological `Ord`. Timestamps are integers and `None` sorts
  last. The module also defines sortedness and a sort function. Callers
  rely only on that function's contract ("sorted, and a permutation"),
  which stands for the standard library's `sort_unstable`.
- `Rss` (`rss.dfy`): the RSS source's configuration (`new`, `name`) and
  `parse_channel`, a pure mapping from parsed channel records to feed
  items. The RFC 2822 date parser (section 3.3 of RFC 2822) is a function
  parameter `parseDate: string -> Option<int>` that returns `None` for text
  it rejects.
- `AppState` (`app.dfy`): the class `App`. It holds the item list (a
  `seq`), the set of ids already seen, the selection (`Option<nat>`), the
  quit flag and the status line. `merge_items` and the four `select_*`
  methods update these fields in place.
  - `Valid()` is the invariant these methods keep. It says that `seen` is
    exactly the stored ids, that no id is stored twice, that the list is
    sorted newest first, and that the selection names an existing row or
    nothing.
  - Which batch items a merge keeps is defined by the function `Admitted`.
    It is proved to admit exactly the first-seen items: each first occurrence of a new id, each once.
- `Input` (`input.dfy`): `handle_key_event`. Only a key press acts. `q`
  and `Esc` raise the quit flag, and the navigation keys call the
  selection methods.
- `MainLoop` (`main.dfy`): the poll-message drain, the quit check and the
  status lines. The messages found in the queue are a finite sequence,
  oldest first. Each pass of the loop is given the key event it reads.

## Model

| member | source | states |
|---|---|---|
| `FeedItems.Cmp` | src/source/feed_item.rs:57-64 | `Less` exactly when `self` is more recent: it is dated, and the other item is undated or older. `Greater` is the mirror case. `Equal` holds exactly when the two timestamps are equal. |
| `FeedItems.PartialCmp` | src/source/feed_item.rs:66-70 | Always `Some`, and agrees with `Cmp` case by case. |
| `FeedItems.CmpReflexive` | src/source/feed_item.rs:57-64 | Every item compares `Equal` to itself. |
| `FeedItems.CmpAntisymmetric` | src/source/feed_item.rs:57-64 | Swapping the arguments reverses the result. |
| `FeedItems.CmpTransitive` | src/source/feed_item.rs:57-64 | Sorting no later is transitive, and strictly earlier on either side makes the result strictly earlier. |
| `FeedItems.CmpTotal` | src/source/feed_item.rs:57-64 | Any two items are comparable, so the order is a total preorder. |
| `FeedItems.NewerSortsFirst` | src/source/feed_item.rs:22-25 | A later timestamp sorts before an earlier one. |
| `FeedItems.DatedSortsBeforeUndated` | src/source/feed_item.rs:43-47 | A dated item sorts before an undated one. |
| `FeedItems.SameTimestampCompareEqual` | src/source/feed_item.rs:119-125 | Equal timestamps compare `Equal` whatever the other fields hold, and this includes two `None`s. |
| `FeedItems.EqualOrderingIsNotEquality` | src/source/feed_item.rs:26-64 | Two different items can compare `Equal`: the order sees only `published`, while equality is derived over all fields. |
| `FeedItems.SortedIsNewestFirst` | src/app.rs:26-27 | In a sorted list no later entry is more recent than an earlier one. A dated later entry means the earlier entry is dated and no older. |
| `FeedItems.SortItems` | src/app.rs:77-79 | The result is sorted and is a permutation of the input. |
| `FeedItems.SortedUnique` | src/app.rs:77-79 | When no two items share a timestamp, any two sorted permutations are equal, so ties are the only freedom an unstable sort has. |
| `Rss.ParseItem` | src/source/rss.rs:57-79 | `id` is the guid, else the link, else `""`. `title` is the title, else `"(untitled)"`. `description` and `link` are copied through. `published` is `None` exactly when the date is absent or rejected, and is the parsed value otherwise. `sourceName` is the label. |
| `Rss.ParseChannel` | src/source/rss.rs:53-81 | One item per channel record, in order, each being `ParseItem` of its record. |
| `Rss.ParseChannelLabels` | src/source/rss.rs:77 | Every produced item carries the source's label. |
| `Rss.ParseChannelItemwise` | src/source/rss.rs:65-69 | Replacing one record changes only its own item, so a bad date degrades that item and never the batch. |
| `Rss.ParseChannelAppend` | src/source/rss.rs:54-80 | Parsing a concatenation gives the concatenation of the parses. |
| `Rss.NewSource` | src/source/rss.rs:42-47 | `new(url, label)` stores both fields. |
| `Rss.RssSource.Name` | src/source/rss.rs:84-87 | `name()` returns the label. |
| `Rss.NameOfNewSource` | src/source/rss.rs:201-204 | The name of a new source is the label it was given. |
| `AppState.Admitted` | src/app.rs:72-76 | The items a merge pushes, in batch order: never more than the batch holds. |
| `AppState.AdmittedExactly` | src/app.rs:72-76 | A batch item is admitted if and only if its id was not seen before and no earlier batch item has it (first seen wins). |
| `AppState.AdmittedIds` | src/app.rs:72-76 | The admitted items carry exactly the batch ids that were not seen before. |
| `AppState.AdmittedNoDup` | src/app.rs:72-76 | No two admitted items share an id, including ids repeated within the batch. |
| `AppState.AdmittedLength` | src/app.rs:72-76 | A merge admits exactly one item per distinct new id of the batch. |
| `AppState.AdmittedAllNew` | src/app.rs:72-76 | A batch with distinct, unseen ids is admitted whole and in order. |
| `AppState.AdmittedAppend` | src/app.rs:71-80 | Admitting `a` and then `b` equals admitting `a + b`, where the second step sees the ids the first one added. |
| `AppState.PushStep` | src/app.rs:72-76 | One loop step: the item is pushed exactly when `insert` reports its id as new, and its id is recorded either way. |
| `AppState.FirstSeenWins` | src/app.rs:73-74 | Once an item is stored, every item with its id after a later merge is that same item with all its fields. |
| `AppState.MergeOutcome` | src/app.rs:71-80 | Any permutation of the stored items plus the admitted ones has ids equal to the old ids plus the batch ids, has no duplicate id, and grows by the number of distinct new ids. |
| `AppState.MergeKeepsStored` | src/app.rs:73-74 | A merge keeps every stored item, and every entry whose id was stored before is an old entry. |
| `AppState.MergeOfCompose` | src/app.rs:71-80 | Merging `a` and then `b` leaves what merging `a + b` at once leaves, up to order. |
| `AppState.MergeOfEmpty` | src/app.rs:193-197 | An empty batch leaves the multiset and length of `items`, and `seen`, unchanged. |
| `AppState.MergeDeterministic` | src/app.rs:77-79 | When the merged items have distinct timestamps the merge result is fully determined. |
| `AppState.AdmittedSingle` | src/app.rs:72-76 | A one-item batch is admitted exactly when its id is new. |
| `AppState.AdmittedTwoNew` | src/app.rs:72-76 | Two items with distinct new ids are both admitted, in batch order. |
| `AppState.AdmittedRepeatThenNew` | src/app.rs:73-74 | A repeated id followed by a new one admits only the new item. |
| `AppState.NewestFirstSorted` | src/app.rs:77-79 | Three items dated in strictly increasing order, listed newest first, are sorted with distinct timestamps. |
| `AppState.MergeSampleNewestFirst` | src/app.rs:166-174 | Any three items with distinct ids, dated oldest first and merged into an empty store, come out newest first, and all three ids are recorded (the test's ids "3", "2", "1"). |
| `AppState.MergeDedupScenario` | src/app.rs:177-190 | After an item is stored, a batch holding another item with its id and then one with a new id leaves exactly two items. The entry with the repeated id is the first item with all its fields (the test's title "First"). Both ids are recorded. |
| `AppState.MergeTwoCyclesScenario` | src/app.rs:71-80 | For any items `A`, `B`, `C` with distinct ids, dated in that order, the batches `[A, B]` and then `[A, C]` leave `[B, A]` and then `[C, B, A]`. |
| `AppState.NextSelection` | src/app.rs:85-94 | A no-op on an empty list. Otherwise `None` goes to row 0, row `i` goes to `i + 1`, and the last row stays put; the result is always in range. |
| `AppState.PreviousSelection` | src/app.rs:97-106 | A no-op on an empty list. Otherwise `None` goes to row 0, row `i > 0` goes to `i - 1`, and row 0 stays put; an in-range selection stays in range. |
| `AppState.FirstSelection` | src/app.rs:109-113 | Row 0 on a non-empty list, unchanged on an empty one. |
| `AppState.LastSelection` | src/app.rs:116-120 | The last row on a non-empty list, unchanged on an empty one. |
| `AppState.NextTimesFromRow` | src/app.rs:251-257 | From row `i`, `k` moves down reach `min(i + k, len - 1)`. |
| `AppState.NextTimesFromNothing` | src/app.rs:238-248 | With nothing selected, `k > 0` moves down reach `min(k - 1, len - 1)`. |
| `AppState.PreviousTimesFromRow` | src/app.rs:260-275 | From row `i`, `k` moves up reach `i - k`, or 0 if `k > i`. |
| `AppState.MovesOnEmptyList` | src/app.rs:210-221 | On an empty list no number of moves changes the selection. |
| `AppState.SelectionClamps` | src/app.rs:85-120 | Down from the last row and up from the first row stay put. |
| `AppState.App.constructor` | src/app.rs:43-59 | A new `App` is valid, with no items, no ids, no selection, `quit == false` and status "Starting…". |
| `AppState.App.PushUnseen` | src/app.rs:72-76 | The loop pushes exactly `Admitted(old seen, batch)` and records every batch id. |
| `AppState.App.MergeItems` | src/app.rs:71-80 | Keeps `Valid()`. The new items are a permutation of the old items plus the admitted ones, and `seen` gains the batch ids. The length grows by the number of distinct new ids. Old items are kept, and no entry with an old id is new. The selection is not touched. |
| `AppState.App.SelectNext` | src/app.rs:85-94 | Keeps `Valid()` and sets the selection to `NextSelection`. |
| `AppState.App.SelectPrevious` | src/app.rs:97-106 | Keeps `Valid()` and sets the selection to `PreviousSelection`. |
| `AppState.App.SelectFirst` | src/app.rs:109-113 | Keeps `Valid()` and sets the selection to `FirstSelection`. |
| `AppState.App.SelectLast` | src/app.rs:116-120 | Keeps `Valid()` and sets the selection to `LastSelection`. |
| `Input.KeyGroupsDisjoint` | src/input.rs:28-35 | The key groups are pairwise disjoint, so each key has at most one action. |
| `Input.HandleKeyEvent` | src/input.rs:23-36 | A non-press or unbound key changes nothing. `q`/`Esc` set `quit` and leave the selection alone. Each navigation key has exactly the effect of its `select_*` method and leaves `quit` alone. Items, ids and status never change. `quit` is only ever raised. |
| `MainLoop.NatToString` | src/main.rs:132 | The decimal form of the count: digits only, with no leading zero. |
| `MainLoop.NatToStringValue` | src/main.rs:132 | Reading the rendered count back gives the count. |
| `MainLoop.FetchedStatus` | src/main.rs:132 | The line is "Fetched ", then the count in canonical decimal (no leading zero), then " items"; the digits read back as the count. |
| `MainLoop.ErrorStatus` | src/main.rs:135 | The line is "Error: " followed by the message unchanged. |
| `MainLoop.StatusOf` | src/main.rs:128-136 | An `Items` message gives the fetched line for its batch length and an `Error` message the error line for its text. A line starts with 'F' exactly when the message carried items. |
| `MainLoop.StatusLinesDistinct` | src/main.rs:129-136 | A fetched line is never an error line, and each line determines its count or message. |
| `MainLoop.StatusAfter` | src/main.rs:127-138 | After draining, the status comes from the last message alone, or is unchanged when no message was queued. |
| `MainLoop.DrainStep` | src/main.rs:127-138 | One more message appends its batch and decides the status line. |
| `MainLoop.ApplyMessage` | src/main.rs:128-137 | `Items(batch)` merges the batch and reports its length before de-duplication. `Error(e)` reports "Error: e" and leaves items alone. Neither touches the selection or `quit`. |
| `MainLoop.Drain` | src/main.rs:127-138 | Every queued message is applied in FIFO order. The store ends as the merge of all `Items` batches in order, and the status is that of the last message. A run of errors only leaves items and ids exactly as they were. Selection and `quit` are untouched. |
| `MainLoop.BatchesAppend` | src/main.rs:127-133 | The batches of two message runs concatenate. |
| `MainLoop.FirstQuit` | src/main.rs:150-152 | The index of the first pass that reads a quit press, or `None` when no pass does. |
| `MainLoop.RanPassesEnd` | src/main.rs:150-152 | The loop stops at the first quit press, or when the input runs out. |
| `MainLoop.Pass` | src/main.rs:125-152 | One pass keeps `Valid()`, merges every queued batch, and sets the status to that of the last message (unchanged when none was queued). With no key, a non-press, an unbound key or a quit key, the selection is unchanged. Each navigation key moves the selection by its `select_*` function over the list as drained. `quit` becomes old `quit` or a quit press, and the pass exits exactly when `quit` is set. |
| `MainLoop.Run` | src/main.rs:116-153 | From `App::new()`, the loop exits in the same pass that reads the first quit press. The final store is the merge, from empty, of every batch received up to then. |

## Left out

- The poller thread, its channel, `sleep` and its infinite loop (src/poll.rs): the drain sees the queued messages as a given sequence. Only the shape of the error text, "name: error", is mentioned, and it stays opaque.
- Rendering (src/ui.rs) and the wait for input in the main loop: the renderer reads the state and writes only the list widget's scroll offset (see below). Each pass is handed the key it reads, or none.
- `RssSource::fetch`: HTTP, and XML parsing by the `rss` crate. The model starts from already-parsed channel records.
- The chrono RFC 2822 parser and `DateTime<Utc>`: the parser is a function parameter, and timestamps are plain integers compared in their usual order.
- The scroll offset of ratatui's `ListState`: the renderer changes it, `App` does not. Only the selection is modelled.
- Key modifiers: the dispatch ignores them, so they are dropped. Unbound character keys keep their `Char(c)` code; only non-character codes without a binding collapse into `Other`. The dispatch ignores every unbound key either way.
- Argument parsing, terminal setup and the panic hook in src/main.rs: process and terminal I/O.
- src/source/mod.rs and src/source.rs: the first only declares the source interface. The second is an older copy whose ordering is the same as src/source/feed_item.rs and whose parsing is fused with I/O.
- `usize` widths: counts and indices are unbounded naturals. The source cannot overflow here, because indices are kept below the list length.
- AppState.App.MergeItems: specifies the result only as a sorted permutation of the old items plus the admitted ones. The algorithm of `sort_unstable` and the order it leaves among equal timestamps are not modelled. The sort is written as a function over the `seq` field, not as an in-place sort of a vector.
