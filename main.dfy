/**
 * The event loop of the program: each pass drains the poller's queued
 * messages into the `App`, then handles at most one key event, then stops if
 * the quit flag is set.
 *
 * The poller thread and its channel are not modelled: the messages a pass
 * finds queued are given as a sequence, oldest first. Rendering reads the
 * state, writing only the list widget's scroll offset, and is left out, and
 * so is the wait for input: each pass is given the key event it reads, or
 * `None` when no key arrives within the tick.
 */
module MainLoop {
  import opened Wrappers
  import opened FeedItems
  import opened AppState
  import opened Input

  /** `poll::PollMsg`. The poller builds the error text as "<source name>: <error>". */
  datatype PollMsg = Items(batch: seq<FeedItem>) | Error(message: string)

  // -- the status line ----------------------------------------------------------

  predicate IsDigit(c: char) {
    '0' <= c <= '9'
  }

  predicate AllDigits(s: string) {
    forall i :: 0 <= i < |s| ==> IsDigit(s[i])
  }

  function DigitChar(d: nat): (c: char)
    requires d < 10
    ensures IsDigit(c) && c as int - '0' as int == d
  {
    ('0' as int + d) as char
  }

  /** Decimal rendering of a count, as `format!` writes a `usize`: digits only, no leading zero. */
  function NatToString(n: nat): (r: string)
    ensures |r| >= 1 && AllDigits(r)
    ensures n == 0 ==> r == "0"
    ensures n > 0 ==> r[0] != '0'
    decreases n
  {
    if n < 10 then [DigitChar(n)] else NatToString(n / 10) + [DigitChar(n % 10)]
  }

  /** The number a string of decimal digits denotes. */
  function DigitsValue(s: string): nat
    requires AllDigits(s)
  {
    if s == [] then 0 else 10 * DigitsValue(s[..|s| - 1]) + (s[|s| - 1] as int - '0' as int)
  }

  /** Reading the rendered count back gives the count. */
  lemma {:induction false} NatToStringValue(n: nat)
    ensures DigitsValue(NatToString(n)) == n
    decreases n
  {
    if n >= 10 {
      NatToStringValue(n / 10);
      var r := NatToString(n);
      assert r[..|r| - 1] == NatToString(n / 10);
    }
  }

  /**
   * `format!("Fetched {count} items")`: the count, in canonical decimal (no
   * leading zero), between a fixed prefix and suffix, from which it can be
   * read back.
   */
  function FetchedStatus(count: nat): (r: string)
    ensures |r| > 14 && r[..8] == "Fetched " && r[|r| - 6..] == " items"
    ensures r[8..|r| - 6] == NatToString(count)
    ensures AllDigits(r[8..|r| - 6]) && DigitsValue(r[8..|r| - 6]) == count
  {
    var r := "Fetched " + NatToString(count) + " items";
    assert r[8..|r| - 6] == NatToString(count);
    NatToStringValue(count);
    r
  }

  /** `format!("Error: {e}")`: the poller's message, unchanged, after a fixed prefix. */
  function ErrorStatus(message: string): (r: string)
    ensures |r| == |message| + 7 && r[..7] == "Error: " && r[7..] == message
  {
    "Error: " + message
  }

  /** A "Fetched" line is never an error line, and each line tells its count or message apart. */
  lemma StatusLinesDistinct(m: nat, n: nat, e: string, e': string)
    ensures FetchedStatus(m) != ErrorStatus(e)
    ensures FetchedStatus(m) == FetchedStatus(n) ==> m == n
    ensures ErrorStatus(e) == ErrorStatus(e') ==> e == e'
  {
    assert FetchedStatus(m)[0] == 'F' && ErrorStatus(e)[0] == 'E';
  }

  /**
   * The status line one message writes. The line tells which kind of
   * message arrived, and carries the batch length or the error message.
   */
  function StatusOf(msg: PollMsg): (r: string)
    ensures |r| >= 7 && (r[0] == 'F' <==> msg.Items?)
    ensures msg.Items? ==> r == FetchedStatus(|msg.batch|)
    ensures msg.Error? ==> r == ErrorStatus(msg.message)
  {
    match msg
    case Items(batch) => FetchedStatus(|batch|)
    case Error(e) => ErrorStatus(e)
  }

  /** The status line after the messages, each overwriting the last: only the final message counts. */
  function StatusAfter(status: string, msgs: seq<PollMsg>): (r: string)
    ensures msgs == [] ==> r == status
    ensures msgs != [] ==> r == StatusOf(msgs[|msgs| - 1])
    decreases |msgs|
  {
    if msgs == [] then status
    else
      var rest := msgs[1..];
      assert rest != [] ==> rest[|rest| - 1] == msgs[|msgs| - 1];
      StatusAfter(StatusOf(msgs[0]), rest)
  }

  // -- the items the messages carry ---------------------------------------------

  /** The items one message carries. */
  function BatchOf(msg: PollMsg): seq<FeedItem> {
    if msg.Items? then msg.batch else []
  }

  /** The batches of the `Items` messages, concatenated in arrival order. */
  function Batches(msgs: seq<PollMsg>): seq<FeedItem>
    decreases |msgs|
  {
    if msgs == [] then [] else Batches(msgs[..|msgs| - 1]) + BatchOf(msgs[|msgs| - 1])
  }

  /** One more message adds its batch and decides the status line. */
  lemma DrainStep(status: string, msgs: seq<PollMsg>, k: nat)
    requires k < |msgs|
    ensures Batches(msgs[..k + 1]) == Batches(msgs[..k]) + BatchOf(msgs[k])
    ensures StatusAfter(status, msgs[..k + 1]) == StatusOf(msgs[k])
  {
    assert msgs[..k + 1][..k] == msgs[..k];
  }

  // -- processing poll messages -------------------------------------------------

  /** One arm of the drain: merge the batch and report its size, or report the error. */
  method ApplyMessage(app: App, msg: PollMsg)
    requires app.Valid()
    modifies app`items, app`seen, app`status
    ensures app.Valid()
    ensures app.selected == old(app.selected) && app.quit == old(app.quit)
    ensures msg.Items? ==> app.status == FetchedStatus(|msg.batch|)
    ensures msg.Error? ==> app.status == ErrorStatus(msg.message)
    ensures msg.Error? ==> app.items == old(app.items) && app.seen == old(app.seen)
    ensures MergeOf(old(app.items), old(app.seen), BatchOf(msg), app.items, app.seen)
  {
    match msg {
      case Items(batch) =>
        // the count is taken before the merge drops duplicates
        var count := |batch|;
        app.MergeItems(batch);
        app.status := FetchedStatus(count);
      case Error(e) =>
        app.status := ErrorStatus(e);
    }
  }

  /**
   * The `while let Ok(msg) = rx.try_recv()` block: every queued message is
   * applied in arrival order.
   */
  method Drain(app: App, msgs: seq<PollMsg>)
    requires app.Valid()
    modifies app`items, app`seen, app`status
    ensures app.Valid()
    ensures app.selected == old(app.selected) && app.quit == old(app.quit)
    ensures app.status == StatusAfter(old(app.status), msgs)
    ensures MergeOf(old(app.items), old(app.seen), Batches(msgs), app.items, app.seen)
    // a run of errors leaves the stored items exactly as they were
    ensures (forall m | m in msgs :: m.Error?) ==> app.items == old(app.items) && app.seen == old(app.seen)
  {
    ghost var items0, seen0 := app.items, app.seen;
    var k := 0;
    while k < |msgs|
      invariant 0 <= k <= |msgs|
      invariant app.Valid()
      invariant app.selected == old(app.selected) && app.quit == old(app.quit)
      invariant app.status == StatusAfter(old(app.status), msgs[..k])
      invariant MergeOf(items0, seen0, Batches(msgs[..k]), app.items, app.seen)
      invariant (forall i :: 0 <= i < k ==> msgs[i].Error?) ==> app.items == items0 && app.seen == seen0
    {
      ghost var items1, seen1 := app.items, app.seen;
      ApplyMessage(app, msgs[k]);
      DrainStep(old(app.status), msgs, k);
      MergeOfCompose(items0, seen0, Batches(msgs[..k]), BatchOf(msgs[k]), items1, seen1, app.items, app.seen);
      k := k + 1;
    }
    assert msgs[..k] == msgs;
  }

  // -- the main loop ------------------------------------------------------------

  /** What one pass of the loop finds: the queued messages, and the key event read, if any. */
  datatype PassInput = PassInput(messages: seq<PollMsg>, key: Option<KeyEvent>)

  /** A pass whose key event asks to quit. */
  predicate Quits(pass: PassInput) {
    pass.key.Some? && IsQuitPress(pass.key.value)
  }

  /** The index of the first pass that reads a quit key. */
  function FirstQuit(passes: seq<PassInput>): (r: Option<nat>)
    ensures r.Some? ==> r.value < |passes| && Quits(passes[r.value])
    ensures r.Some? ==> forall i :: 0 <= i < r.value ==> !Quits(passes[i])
    ensures r.None? ==> forall i :: 0 <= i < |passes| ==> !Quits(passes[i])
    decreases |passes|
  {
    if passes == [] then None
    else if Quits(passes[0]) then Some(0)
    else
      match FirstQuit(passes[1..])
      case None => None
      case Some(i) => Some(i + 1)
  }

  /**
   * The loop has run `count` passes and `exit` is its quit check: no pass
   * before the last one run read a quit key, and the last one read one
   * exactly when `exit` holds.
   */
  ghost predicate RanPasses(passes: seq<PassInput>, count: nat, exit: bool) {
    && count <= |passes|
    && (forall i :: 0 <= i < count - 1 ==> !Quits(passes[i]))
    && (count > 0 ==> (exit <==> Quits(passes[count - 1])))
    && (count == 0 ==> !exit)
  }

  /** Running one more pass after a pass that did not quit. */
  lemma RanPassesStep(passes: seq<PassInput>, count: nat, exit: bool)
    requires RanPasses(passes, count, false) && count < |passes| && exit == Quits(passes[count])
    ensures RanPasses(passes, count + 1, exit)
  {
  }

  /** The loop ends at the pass of the first quit key, or when the input runs out. */
  lemma RanPassesEnd(passes: seq<PassInput>, count: nat, exit: bool)
    requires RanPasses(passes, count, exit) && (exit || count == |passes|)
    ensures FirstQuit(passes).Some? ==> count == FirstQuit(passes).value + 1 && exit
    ensures FirstQuit(passes).None? ==> count == |passes| && !exit
  {
    if exit {
      assert Quits(passes[count - 1]);
    } else if count > 0 {
      assert !Quits(passes[count - 1]);
    }
  }

  /** All messages of the given passes, in arrival order. */
  function Messages(passes: seq<PassInput>): seq<PollMsg>
    decreases |passes|
  {
    if passes == [] then [] else Messages(passes[..|passes| - 1]) + passes[|passes| - 1].messages
  }

  lemma MessagesSnoc(passes: seq<PassInput>, k: nat)
    requires k < |passes|
    ensures Messages(passes[..k + 1]) == Messages(passes[..k]) + passes[k].messages
  {
    assert passes[..k + 1][..k] == passes[..k];
  }

  /** The items of all messages are the items of the earlier ones followed by those of the later ones. */
  lemma {:induction false} BatchesAppend(a: seq<PollMsg>, b: seq<PollMsg>)
    ensures Batches(a + b) == Batches(a) + Batches(b)
    decreases |b|
  {
    if b == [] {
      assert a + b == a;
    } else {
      var prefix := b[..|b| - 1];
      BatchesAppend(a, prefix);
      assert (a + b)[..|a + b| - 1] == a + prefix;
      assert (a + b)[|a + b| - 1] == b[|b| - 1];
    }
  }

  /**
   * One pass: drain the queue, handle the key event read, if any, and answer
   * whether the loop must stop.
   */
  method Pass(app: App, input: PassInput) returns (exit: bool)
    requires app.Valid()
    modifies app`items, app`seen, app`status, app`selected, app`quit
    ensures app.Valid()
    ensures exit == app.quit
    ensures app.quit == (old(app.quit) || Quits(input))
    ensures MergeOf(old(app.items), old(app.seen), Batches(input.messages), app.items, app.seen)
    ensures (forall m | m in input.messages :: m.Error?) ==> app.items == old(app.items)
    // the status line is that of the last message drained
    ensures app.status == StatusAfter(old(app.status), input.messages)
    // the cursor moves only for a navigation key press, against the list as drained
    ensures input.key.None? ==> app.selected == old(app.selected)
    ensures input.key.Some? && (input.key.value.kind != Press || input.key.value.code !in BoundKeys()) ==>
            app.selected == old(app.selected)
    ensures Quits(input) ==> app.selected == old(app.selected)
    ensures input.key.Some? && PressOf(input.key.value, NextKeys) ==>
            app.selected == NextSelection(old(app.selected), |app.items|)
    ensures input.key.Some? && PressOf(input.key.value, PreviousKeys) ==>
            app.selected == PreviousSelection(old(app.selected), |app.items|)
    ensures input.key.Some? && PressOf(input.key.value, FirstKeys) ==>
            app.selected == FirstSelection(old(app.selected), |app.items|)
    ensures input.key.Some? && PressOf(input.key.value, LastKeys) ==>
            app.selected == LastSelection(old(app.selected), |app.items|)
  {
    Drain(app, input.messages);
    if input.key.Some? {
      HandleKeyEvent(app, input.key.value);
    }
    exit := app.quit;
  }

  /**
   * The event loop from `App::new()` on: passes run until one of them
   * reads a quit key, which ends the loop in that same pass, or until no
   * input is left. The state then holds, sorted, exactly the first item of
   * each id the messages of the passes run carried.
   */
  method Run(passes: seq<PassInput>) returns (app: App, count: nat)
    ensures app.Valid()
    ensures count <= |passes|
    ensures FirstQuit(passes).Some? ==> count == FirstQuit(passes).value + 1 && app.quit
    ensures FirstQuit(passes).None? ==> count == |passes| && !app.quit
    ensures MergeOf([], {}, Batches(Messages(passes[..count])), app.items, app.seen)
  {
    app := new App();
    AdmittedEmpty({});
    count := 0;
    var exit := false;
    while count < |passes| && !exit
      invariant app.Valid()
      invariant exit == app.quit
      invariant RanPasses(passes, count, exit)
      invariant MergeOf([], {}, Batches(Messages(passes[..count])), app.items, app.seen)
    {
      ghost var before, items1, seen1 := Messages(passes[..count]), app.items, app.seen;
      exit := Pass(app, passes[count]);
      RanPassesStep(passes, count, exit);
      MessagesSnoc(passes, count);
      BatchesAppend(before, passes[count].messages);
      MergeOfCompose([], {}, Batches(before), Batches(passes[count].messages), items1, seen1, app.items, app.seen);
      count := count + 1;
    }
    RanPassesEnd(passes, count, exit);
  }
}
