/**
 * `VirtualKeyboardController`: an on-screen keyboard. `Show` seeds a text
 * buffer and builds the key layout (one spawned key per `AddKey`), key
 * presses edit the buffer, Enter delivers the trimmed text and hides the
 * keyboard, and `Hide` destroys the keys.
 *
 * Callbacks and events are recorded in an event log instead of running
 * subscriber code.
 */
module Keyboard {
  import opened Common
  import opened Text

  datatype KeyType = Char | Backspace | Space | Clear | Enter

  /** A spawned key: its row (1 to 4), label, type and whether it asked for the wide prefab. */
  datatype Key = Key(row: nat, caption: string, kind: KeyType, wide: bool)

  /** What `Show` stored as `_onSubmit`. */
  datatype SubmitCallback =
    | NoCallback                 // a null callback
    | ForwardToOnSubmit          // the event-style overload `Show(seedText)`
    | Caller(id: nat)            // a caller's delegate

  /** Something observable the keyboard raised, in order. */
  datatype Event =
    | CallbackGot(id: nat, text: string)   // a caller's `_onSubmit` delegate ran
    | OnSubmitRaised(text: string)         // the `OnSubmit` event
    | OnClosedRaised                       // the `OnClosed` event

  /** Inspector wiring: all four row containers, the key prefab, the output text. */
  datatype KbConfig = KbConfig(rowsAssigned: bool, hasKeyPrefab: bool, hasOutput: bool)

  datatype KbState = KbState(
    current: string,
    output: string,          // output.text
    active: bool,            // gameObject.activeSelf
    callback: SubmitCallback,
    spawned: seq<Key>,
    destroyed: seq<Key>,     // keys passed to Destroy, oldest first
    log: seq<Event>)

  // ---------------------------------------------------------------------
  // The layout
  // ---------------------------------------------------------------------

  /** The keys `AddRow(row, letters)` adds: one narrow Char key per letter. */
  function RowKeys(row: nat, letters: string): (keys: seq<Key>)
    ensures |keys| == |letters|
    ensures forall i :: 0 <= i < |keys| ==> keys[i] == Key(row, [letters[i]], Char, false)
  {
    seq(|letters|, i requires 0 <= i < |letters| => Key(row, [letters[i]], Char, false))
  }

  /** The keys `BuildLayout` adds, in order. */
  function Layout(): seq<Key>
  {
    RowKeys(1, "QWERTYUIOP") + RowKeys(2, "ASDFGHJKL") + RowKeys(3, "ZXCVBNM")
    + [Key(3, "delete", Backspace, true)]
    + [Key(4, " ________ ", Space, true), Key(4, "return", Enter, true)]
  }

  /** The labels of the Char keys, concatenated in order. */
  function CharLabels(keys: seq<Key>): string
  {
    if keys == [] then []
    else (if keys[0].kind == Char then keys[0].caption else []) + CharLabels(keys[1..])
  }

  lemma {:induction false} CharLabelsAppend(a: seq<Key>, b: seq<Key>)
    ensures CharLabels(a + b) == CharLabels(a) + CharLabels(b)
    decreases |a|
  {
    if a == [] {
      assert a + b == b;
    } else {
      assert (a + b)[1..] == a[1..] + b;
      CharLabelsAppend(a[1..], b);
    }
  }

  lemma {:induction false} CharLabelsOfRow(row: nat, letters: string)
    ensures CharLabels(RowKeys(row, letters)) == letters
    decreases |letters|
  {
    if letters != [] {
      assert RowKeys(row, letters)[1..] == RowKeys(row, letters[1..]);
      CharLabelsOfRow(row, letters[1..]);
    }
  }

  /** The layout has 29 keys: 26 one-letter Char keys, then Backspace ("delete"), Space and Enter ("return"); no Clear key. */
  lemma LayoutKeys()
    ensures var l := Layout();
      && |l| == 29
      && (forall i :: 0 <= i < 26 ==> l[i].kind == Char && |l[i].caption| == 1 && !l[i].wide)
      && l[26] == Key(3, "delete", Backspace, true)
      && l[27] == Key(4, " ________ ", Space, true)
      && l[28] == Key(4, "return", Enter, true)
  {
    var r1, r2, r3 := RowKeys(1, "QWERTYUIOP"), RowKeys(2, "ASDFGHJKL"), RowKeys(3, "ZXCVBNM");
    var l := Layout();
    assert |r1| == 10 && |r2| == 9 && |r3| == 7;
    forall i | 0 <= i < 26
      ensures l[i].kind == Char && |l[i].caption| == 1 && !l[i].wide
    {
      if i < 10 { assert l[i] == r1[i]; }
      else if i < 19 { assert l[i] == r2[i - 10]; }
      else { assert l[i] == r3[i - 19]; }
    }
  }

  lemma {:induction false} NoCharLabels(keys: seq<Key>)
    requires forall i :: 0 <= i < |keys| ==> keys[i].kind != Char
    ensures CharLabels(keys) == []
    decreases |keys|
  {
    if keys != [] {
      NoCharLabels(keys[1..]);
    }
  }

  lemma LetterRowsLabels()
    ensures CharLabels(RowKeys(1, "QWERTYUIOP") + RowKeys(2, "ASDFGHJKL") + RowKeys(3, "ZXCVBNM"))
      == "QWERTYUIOP" + "ASDFGHJKL" + "ZXCVBNM"
  {
    var r1, r2, r3 := RowKeys(1, "QWERTYUIOP"), RowKeys(2, "ASDFGHJKL"), RowKeys(3, "ZXCVBNM");
    CharLabelsAppend(r1 + r2, r3);
    CharLabelsAppend(r1, r2);
    CharLabelsOfRow(1, "QWERTYUIOP");
    CharLabelsOfRow(2, "ASDFGHJKL");
    CharLabelsOfRow(3, "ZXCVBNM");
  }

  /** The letter keys spell the three QWERTY rows in order. */
  lemma {:induction false} LayoutLetters()
    ensures CharLabels(Layout()) == "QWERTYUIOP" + "ASDFGHJKL" + "ZXCVBNM"
  {
    var letters := RowKeys(1, "QWERTYUIOP") + RowKeys(2, "ASDFGHJKL") + RowKeys(3, "ZXCVBNM");
    var tail := [Key(3, "delete", Backspace, true)] + [Key(4, " ________ ", Space, true), Key(4, "return", Enter, true)];
    assert Layout() == letters + tail;
    CharLabelsAppend(letters, tail);
    NoCharLabels(tail);
    LetterRowsLabels();
  }

  // ---------------------------------------------------------------------
  // Operations as functions of the state
  // ---------------------------------------------------------------------

  /** `ClearRows`: every spawned key is destroyed and the list emptied. */
  function AfterClearRows(s: KbState): KbState
  {
    s.(destroyed := s.destroyed + s.spawned, spawned := [])
  }

  /** `BuildLayout`: nothing without the rows or the key prefab, otherwise the layout is appended. */
  function AfterBuildLayout(cfg: KbConfig, s: KbState): KbState
  {
    if !cfg.rowsAssigned || !cfg.hasKeyPrefab then s else s.(spawned := s.spawned + Layout())
  }

  function SetOutput(cfg: KbConfig, s: KbState): KbState
  {
    if cfg.hasOutput then s.(output := s.current) else s
  }

  /** `Show(onSubmit, onCancel, seedText)`. */
  function AfterShow(cfg: KbConfig, s: KbState, cb: SubmitCallback, seedText: Option<string>): KbState
  {
    var seeded := SetOutput(cfg, s.(callback := cb, current := if seedText.Some? then seedText.value else ""));
    AfterBuildLayout(cfg, AfterClearRows(seeded.(active := true)))
  }

  /** `Hide`: deactivate, destroy the keys, raise `OnClosed`. */
  function AfterHide(s: KbState): KbState
  {
    var h := AfterClearRows(s.(active := false));
    h.(log := h.log + [OnClosedRaised])
  }

  /** What `_onSubmit?.Invoke(text)` records. */
  function CallbackEvents(cb: SubmitCallback, text: string): seq<Event>
  {
    match cb
    case NoCallback => []
    case ForwardToOnSubmit => [OnSubmitRaised(text)]
    case Caller(id) => [CallbackGot(id, text)]
  }

  /** `Press(type, label)`. */
  function AfterPress(cfg: KbConfig, s: KbState, kind: KeyType, caption: string): KbState
  {
    match kind
    case Char => SetOutput(cfg, s.(current := s.current + caption))
    case Space => SetOutput(cfg, s.(current := s.current + " "))
    case Backspace =>
      SetOutput(cfg, if |s.current| > 0 then s.(current := s.current[..|s.current| - 1]) else s)
    case Clear => SetOutput(cfg, s.(current := ""))
    case Enter =>
      var text := Trim(s.current);
      AfterHide(s.(log := s.log + CallbackEvents(s.callback, text) + [OnSubmitRaised(text)]))
  }

  // ---------------------------------------------------------------------
  // Properties
  // ---------------------------------------------------------------------

  /** `Show` seeds the buffer (null as ""), activates, destroys the old keys and builds the layout afresh. */
  lemma ShowSeedsAndRebuilds(cfg: KbConfig, s: KbState, cb: SubmitCallback, seedText: Option<string>)
    ensures var n := AfterShow(cfg, s, cb, seedText);
      && n.current == (if seedText.None? then "" else seedText.value)
      && n.active && n.callback == cb
      && n.destroyed == s.destroyed + s.spawned
      && n.spawned == (if cfg.rowsAssigned && cfg.hasKeyPrefab then Layout() else [])
      && n.log == s.log
  {
  }

  /** A Char key appends its label and Space appends one space. */
  lemma TypingAppends(cfg: KbConfig, s: KbState, caption: string)
    ensures AfterPress(cfg, s, Char, caption).current == s.current + caption
    ensures AfterPress(cfg, s, Space, caption).current == s.current + " "
    ensures AfterPress(cfg, s, Clear, caption).current == ""
  {
  }

  /** Backspace drops exactly the last character and leaves an empty buffer empty. */
  lemma BackspaceDropsLast(cfg: KbConfig, s: KbState, caption: string)
    ensures var n := AfterPress(cfg, s, Backspace, caption);
      && (s.current == [] ==> n.current == [])
      && (s.current != [] ==> n.current + [s.current[|s.current| - 1]] == s.current)
  {
  }

  /** Typing a one-letter key then Backspace restores the buffer. */
  lemma CharThenBackspaceRestores(cfg: KbConfig, s: KbState, c: char, caption: string)
    ensures AfterPress(cfg, AfterPress(cfg, s, Char, [c]), Backspace, caption).current == s.current
  {
    assert (s.current + [c])[..|s.current|] == s.current;
  }

  /**
   * Enter delivers the trimmed buffer: first to the stored callback, then as
   * `OnSubmit`, then hides (destroying the keys and raising `OnClosed`).
   */
  lemma EnterSubmitsTrimmedAndHides(cfg: KbConfig, s: KbState, caption: string)
    ensures var n := AfterPress(cfg, s, Enter, caption);
      var text := Trim(s.current);
      && n.log == s.log + CallbackEvents(s.callback, text) + [OnSubmitRaised(text), OnClosedRaised]
      && !n.active && n.spawned == [] && n.destroyed == s.destroyed + s.spawned
      && n.current == s.current
  {
    var text := Trim(s.current);
    var s1 := s.(log := s.log + CallbackEvents(s.callback, text) + [OnSubmitRaised(text)]);
    assert AfterPress(cfg, s, Enter, caption) == AfterHide(s1);
    assert s1.log + [OnClosedRaised] == s.log + CallbackEvents(s.callback, text) + [OnSubmitRaised(text), OnClosedRaised];
  }

  /** After the event-style `Show(seedText)`, Enter raises `OnSubmit` twice with the same text. */
  lemma EventStyleEnterRaisesOnSubmitTwice(cfg: KbConfig, s: KbState, caption: string)
    requires s.callback == ForwardToOnSubmit
    ensures var text := Trim(s.current);
      AfterPress(cfg, s, Enter, caption).log == s.log + [OnSubmitRaised(text), OnSubmitRaised(text), OnClosedRaised]
  {
    EnterSubmitsTrimmedAndHides(cfg, s, caption);
  }

  /** Only Enter raises anything or touches the spawned keys. */
  lemma OnlyEnterRaises(cfg: KbConfig, s: KbState, kind: KeyType, caption: string)
    requires kind != Enter
    ensures AfterPress(cfg, s, kind, caption).log == s.log
    ensures AfterPress(cfg, s, kind, caption).spawned == s.spawned
  {
  }

  // ---------------------------------------------------------------------
  // The component, updating its fields in place
  // ---------------------------------------------------------------------

  class VirtualKeyboardController {
    const cfg: KbConfig
    var current: string
    var output: string
    var active: bool
    var callback: SubmitCallback
    var spawned: seq<Key>
    var destroyed: seq<Key>
    var log: seq<Event>

    function State(): KbState
      reads this
    {
      KbState(current, output, active, callback, spawned, destroyed, log)
    }

    /** After `Awake`: inactive, empty buffer, no keys. */
    constructor (cfg: KbConfig)
      ensures this.cfg == cfg && State() == KbState("", "", false, NoCallback, [], [], [])
    {
      this.cfg := cfg;
      current, output, active, callback := "", "", false, NoCallback;
      spawned, destroyed, log := [], [], [];
    }

    method Show(cb: SubmitCallback, seedText: Option<string>)
      modifies this
      ensures State() == AfterShow(cfg, old(State()), cb, seedText)
    {
      callback := cb;
      current := if seedText.Some? then seedText.value else "";
      if cfg.hasOutput { output := current; }
      active := true;
      ClearRows();
      BuildLayout();
    }

    method Hide()
      modifies this
      ensures State() == AfterHide(old(State()))
    {
      active := false;
      ClearRows();
      log := log + [OnClosedRaised];
    }

    method ClearRows()
      modifies this
      ensures State() == AfterClearRows(old(State()))
    {
      for i := 0 to |spawned|
        invariant spawned == old(spawned) && current == old(current) && output == old(output)
        invariant destroyed == old(destroyed) + spawned[..i]
        invariant active == old(active) && callback == old(callback) && log == old(log)
      {
        destroyed := destroyed + [spawned[i]];
      }
      assert spawned[..|spawned|] == spawned;
      spawned := [];
    }

    method BuildLayout()
      modifies this
      ensures State() == AfterBuildLayout(cfg, old(State()))
    {
      if !cfg.rowsAssigned || !cfg.hasKeyPrefab { return; }
      ghost var s0 := spawned;
      AddRow(1, "QWERTYUIOP");
      AddRow(2, "ASDFGHJKL");
      AddRow(3, "ZXCVBNM");
      ghost var letters := spawned;
      AddKey(3, "delete", Backspace, true);
      AddKey(4, " ________ ", Space, true);
      AddKey(4, "return", Enter, true);
      assert letters == s0 + (RowKeys(1, "QWERTYUIOP") + RowKeys(2, "ASDFGHJKL") + RowKeys(3, "ZXCVBNM"));
      assert spawned == s0 + Layout();
    }

    method AddRow(row: nat, letters: string)
      modifies this
      ensures State() == old(State()).(spawned := old(spawned) + RowKeys(row, letters))
    {
      for i := 0 to |letters|
        invariant State() == old(State()).(spawned := old(spawned) + RowKeys(row, letters[..i]))
      {
        AddKey(row, [letters[i]], Char, false);
        assert RowKeys(row, letters[..i + 1]) == RowKeys(row, letters[..i]) + [Key(row, [letters[i]], Char, false)];
      }
      assert letters[..|letters|] == letters;
    }

    /** Exactly one entry is appended to the spawned keys. */
    method AddKey(row: nat, caption: string, kind: KeyType, wide: bool)
      modifies this
      ensures State() == old(State()).(spawned := old(spawned) + [Key(row, caption, kind, wide)])
    {
      spawned := spawned + [Key(row, caption, kind, wide)];
    }

    method Press(kind: KeyType, caption: string)
      modifies this
      ensures State() == AfterPress(cfg, old(State()), kind, caption)
    {
      match kind {
        case Char => current := current + caption;
        case Space => current := current + " ";
        case Backspace =>
          if |current| > 0 { current := current[..|current| - 1]; }
        case Clear => current := "";
        case Enter =>
          var text := Trim(current);
          log := log + CallbackEvents(callback, text);
          log := log + [OnSubmitRaised(text)];
          Hide();
          return;
      }
      if cfg.hasOutput { output := current; }
    }
  }
}
