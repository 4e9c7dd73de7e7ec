/**
 * Keyboard dispatch: terminal key events mapped to actions on the `App`.
 *
 * Character keys keep their character, bound or not; the other key codes
 * the reader does not bind are collapsed into `Other`. Key modifiers are
 * ignored by the dispatch and are not modelled.
 */
module Input {
  import opened AppState

  /** `crossterm::event::KeyEventKind`. */
  datatype KeyEventKind = Press | Repeat | Release

  /** The `crossterm::event::KeyCode`s the dispatch distinguishes. */
  datatype KeyCode = Char(c: char) | Esc | Down | Up | Home | End | Other

  /** `crossterm::event::KeyEvent`, without modifiers and state. */
  datatype KeyEvent = KeyEvent(code: KeyCode, kind: KeyEventKind)

  const QuitKeys: set<KeyCode> := {Char('q'), Esc}
  const NextKeys: set<KeyCode> := {Down, Char('j')}
  const PreviousKeys: set<KeyCode> := {Up, Char('k')}
  const FirstKeys: set<KeyCode> := {Home, Char('g')}
  const LastKeys: set<KeyCode> := {End, Char('G')}

  /** Every key code that has an action. */
  function BoundKeys(): set<KeyCode> {
    QuitKeys + NextKeys + PreviousKeys + FirstKeys + LastKeys
  }

  /** The key groups are disjoint, so a key has at most one action. */
  lemma KeyGroupsDisjoint()
    ensures QuitKeys !! NextKeys && QuitKeys !! PreviousKeys && QuitKeys !! FirstKeys && QuitKeys !! LastKeys
    ensures NextKeys !! PreviousKeys && NextKeys !! FirstKeys && NextKeys !! LastKeys
    ensures PreviousKeys !! FirstKeys && PreviousKeys !! LastKeys
    ensures FirstKeys !! LastKeys
  {
  }

  /** A press of one of `keys`. */
  predicate PressOf(key: KeyEvent, keys: set<KeyCode>) {
    key.kind == Press && key.code in keys
  }

  /** The events that ask the program to quit. */
  predicate IsQuitPress(key: KeyEvent) {
    PressOf(key, QuitKeys)
  }

  /**
   * `handle_key_event`: only a press acts; `q`/`Esc` raise the quit flag and
   * the navigation keys move the selection; everything else is ignored.
   */
  method HandleKeyEvent(app: App, key: KeyEvent)
    requires app.Valid()
    modifies app`selected, app`quit
    ensures app.Valid()
    ensures app.items == old(app.items) && app.seen == old(app.seen) && app.status == old(app.status)
    // release, repeat and unbound keys change nothing
    ensures key.kind != Press || key.code !in BoundKeys() ==>
            app.selected == old(app.selected) && app.quit == old(app.quit)
    ensures IsQuitPress(key) ==> app.quit && app.selected == old(app.selected)
    ensures PressOf(key, NextKeys) ==>
            app.selected == NextSelection(old(app.selected), |app.items|) && app.quit == old(app.quit)
    ensures PressOf(key, PreviousKeys) ==>
            app.selected == PreviousSelection(old(app.selected), |app.items|) && app.quit == old(app.quit)
    ensures PressOf(key, FirstKeys) ==>
            app.selected == FirstSelection(old(app.selected), |app.items|) && app.quit == old(app.quit)
    ensures PressOf(key, LastKeys) ==>
            app.selected == LastSelection(old(app.selected), |app.items|) && app.quit == old(app.quit)
    // the flag is only ever raised
    ensures app.quit == (old(app.quit) || IsQuitPress(key))
  {
    if key.kind != Press {
      return;
    }
    match key.code {
      case Char('q') | Esc => app.quit := true;
      case Down | Char('j') => app.SelectNext();
      case Up | Char('k') => app.SelectPrevious();
      case Home | Char('g') => app.SelectFirst();
      case End | Char('G') => app.SelectLast();
      case _ =>
    }
  }
}
