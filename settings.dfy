/** The shortcut recorder of the settings panel (components/Settings.jsx): a small state
    machine that, once an entry's Edit button is pressed, turns the next key combination
    into an Electron accelerator and hands the updated bindings to the main process. */
module Settings {
  import opened Wrappers
  import opened Shortcuts
  import Keyboard

  /** The fields of a keyboard event the recorder reads. */
  datatype KeyEvent = KeyEvent(metaKey: bool, ctrlKey: bool, altKey: bool, shiftKey: bool, key: string)

  function ToUpperChar(c: char): (u: char)
    ensures !Keyboard.IsLower(u)
  {
    if Keyboard.IsLower(c) then (c as int - 32) as char else c
  }

  /** `s.toUpperCase()` on the ASCII letters. */
  function ToUpper(s: string): (u: string)
    ensures |u| == |s|
    ensures forall k :: 0 <= k < |s| ==> u[k] == ToUpperChar(s[k])
  {
    seq(|s|, k requires 0 <= k < |s| => ToUpperChar(s[k]))
  }

  /** The upper-cased `key` values of the modifier keys themselves. */
  predicate IsModifierKey(upper: string) {
    upper == "META" || upper == "CONTROL" || upper == "ALT" || upper == "SHIFT"
  }

  /** The accelerator parts handleKeyDown records for an event, in the order it pushes them. */
  function KeysFor(e: KeyEvent): seq<string> {
    (if e.metaKey || e.ctrlKey then ["CommandOrControl"] else [])
    + (if e.altKey then ["Alt"] else [])
    + (if e.shiftKey then ["Shift"] else [])
    + (if IsModifierKey(ToUpper(e.key)) then [] else [ToUpper(e.key)])
  }

  /** The position of a part in the fixed order: the three modifiers, then the key. */
  function Rank(part: string): nat {
    if part == "CommandOrControl" then 0
    else if part == "Alt" then 1
    else if part == "Shift" then 2
    else 3
  }

  /** An upper-cased key never reads as one of the modifier parts, which all hold a
      lower-case letter. */
  lemma UpperKeyRank(key: string)
    ensures Rank(ToUpper(key)) == 3
  {
    var u := ToUpper(key);
    if |u| == 16 { assert u[1] != "CommandOrControl"[1]; }
    if |u| == 3 { assert u[1] != "Alt"[1]; }
    if |u| == 5 { assert u[1] != "Shift"[1]; }
  }

  /** The recorded parts come in the fixed order CommandOrControl, Alt, Shift, key, each at
      most once; a modifier is recorded exactly when it is held, and the key exactly when it
      is not itself a modifier key. */
  lemma KeysForOrder(e: KeyEvent)
    ensures |KeysFor(e)| <= 4
    ensures forall i, j :: 0 <= i < j < |KeysFor(e)| ==> Rank(KeysFor(e)[i]) < Rank(KeysFor(e)[j])
    ensures "CommandOrControl" in KeysFor(e) <==> e.metaKey || e.ctrlKey
    ensures "Alt" in KeysFor(e) <==> e.altKey
    ensures "Shift" in KeysFor(e) <==> e.shiftKey
    ensures ToUpper(e.key) in KeysFor(e) <==> !IsModifierKey(ToUpper(e.key))
  {
    UpperKeyRank(e.key);
    var keys := KeysFor(e);
    forall k | 0 <= k < |keys|
      ensures Rank(keys[k]) == 3 ==> keys[k] == ToUpper(e.key) && k == |keys| - 1
      ensures Rank(keys[k]) < 3 ==> keys[k] != ToUpper(e.key)
    {
    }
  }

  /** `parts.join(sep)`. */
  function Join(parts: seq<string>, sep: char): string {
    if parts == [] then ""
    else if |parts| == 1 then parts[0]
    else parts[0] + [sep] + Join(parts[1..], sep)
  }

  /** `s.split(sep)`: the pieces between separators, an empty string splitting into one
      empty piece. */
  function Split(s: string, sep: char): (parts: seq<string>)
    ensures |parts| >= 1
  {
    if s == [] then [""]
    else
      var rest := Split(s[1..], sep);
      if s[0] == sep then [""] + rest
      else [[s[0]] + rest[0]] + rest[1..]
  }

  lemma {:induction false} SplitPrefix(a: string, t: string, sep: char)
    requires sep !in a
    ensures Split(a + t, sep) == [a + Split(t, sep)[0]] + Split(t, sep)[1..]
  {
    if a == [] {
      assert a + t == t;
      assert a + Split(t, sep)[0] == Split(t, sep)[0];
      assert [Split(t, sep)[0]] + Split(t, sep)[1..] == Split(t, sep);
    } else {
      assert (a + t)[1..] == a[1..] + t;
      SplitPrefix(a[1..], t, sep);
      assert [a[0]] + (a[1..] + Split(t, sep)[0]) == a + Split(t, sep)[0];
    }
  }

  /** Splitting an accelerator at its separators gives back the parts it was joined from,
      provided no part holds the separator itself. */
  lemma {:induction false} SplitJoin(parts: seq<string>, sep: char)
    requires |parts| >= 1
    requires forall k :: 0 <= k < |parts| ==> sep !in parts[k]
    ensures Split(Join(parts, sep), sep) == parts
  {
    if |parts| == 1 {
      SplitPrefix(parts[0], "", sep);
      assert parts[0] + "" == parts[0];
    } else {
      var tail := Join(parts[1..], sep);
      SplitJoin(parts[1..], sep);
      assert ([sep] + tail)[1..] == tail;
      assert Split([sep] + tail, sep) == [""] + parts[1..];
      assert parts[0] + [sep] + tail == parts[0] + ([sep] + tail);
      SplitPrefix(parts[0], [sep] + tail, sep);
      assert parts[0] + "" == parts[0];
      assert [parts[0]] + parts[1..] == parts;
    }
  }

  /** The number of `c` in `s`. */
  function Count(s: string, c: char): nat {
    if s == [] then 0 else (if s[0] == c then 1 else 0) + Count(s[1..], c)
  }

  /** The number of `c` in all of `parts`. */
  function CountAll(parts: seq<string>, c: char): nat {
    if parts == [] then 0 else Count(parts[0], c) + CountAll(parts[1..], c)
  }

  lemma {:induction false} CountAppend(a: string, b: string, c: char)
    ensures Count(a + b, c) == Count(a, c) + Count(b, c)
  {
    if a == [] {
      assert a + b == b;
    } else {
      assert (a + b)[1..] == a[1..] + b;
      CountAppend(a[1..], b, c);
    }
  }

  lemma {:induction false} CountPositive(s: string, c: char)
    requires c in s
    ensures Count(s, c) > 0
  {
    if s[0] != c {
      assert c in s[1..];
      CountPositive(s[1..], c);
    }
  }

  lemma {:induction false} CountAllPositive(parts: seq<string>, c: char, k: nat)
    requires k < |parts| && c in parts[k]
    ensures CountAll(parts, c) > 0
  {
    if k == 0 {
      CountPositive(parts[0], c);
    } else {
      CountAllPositive(parts[1..], c, k - 1);
    }
  }

  /** A string splits into one more piece than it has separators. */
  lemma {:induction false} SplitLength(s: string, sep: char)
    ensures |Split(s, sep)| == 1 + Count(s, sep)
  {
    if s != [] {
      SplitLength(s[1..], sep);
    }
  }

  /** Joining puts one separator between neighbouring parts, on top of those inside them. */
  lemma {:induction false} JoinCount(parts: seq<string>, sep: char)
    requires |parts| >= 1
    ensures Count(Join(parts, sep), sep) == |parts| - 1 + CountAll(parts, sep)
  {
    if |parts| == 1 {
      assert parts[1..] == [];
    } else {
      var tail := Join(parts[1..], sep);
      JoinCount(parts[1..], sep);
      CountAppend(parts[0] + [sep], tail, sep);
      CountAppend(parts[0], [sep], sep);
      assert Count([sep], sep) == 1 by { assert [sep][1..] == []; }
    }
  }

  /** Splitting a joined accelerator gives back its parts exactly when no part holds the
      separator. */
  lemma SplitJoinExactly(parts: seq<string>, sep: char)
    requires |parts| >= 1
    ensures Split(Join(parts, sep), sep) == parts <==> forall k :: 0 <= k < |parts| ==> sep !in parts[k]
  {
    if forall k :: 0 <= k < |parts| ==> sep !in parts[k] {
      SplitJoin(parts, sep);
    } else {
      var k :| 0 <= k < |parts| && sep in parts[k];
      CountAllPositive(parts, sep, k);
      JoinCount(parts, sep);
      SplitLength(Join(parts, sep), sep);
    }
  }

  /** The accelerator recorded for a key without `+` reads back as the recorded parts. */
  lemma RecordedAcceleratorReadsBack(e: KeyEvent)
    requires '+' !in e.key
    requires KeysFor(e) != []
    ensures Split(Join(KeysFor(e), '+'), '+') == KeysFor(e)
  {
    var u := ToUpper(e.key);
    forall k | 0 <= k < |u|
      ensures u[k] != '+'
    {
      assert e.key[k] in e.key;
    }
    SplitJoin(KeysFor(e), '+');
  }

  /** The `+` key itself is recorded as a part `+`, so its accelerator does not read back:
      Ctrl+Shift and `+` give `CommandOrControl+Shift++`. */
  lemma PlusKeyDoesNotReadBack()
    ensures KeysFor(KeyEvent(false, true, false, true, "+")) == ["CommandOrControl", "Shift", "+"]
    ensures Split(Join(KeysFor(KeyEvent(false, true, false, true, "+")), '+'), '+')
            != KeysFor(KeyEvent(false, true, false, true, "+"))
  {
    var keys := KeysFor(KeyEvent(false, true, false, true, "+"));
    assert ToUpper("+") == "+";
    assert keys == ["CommandOrControl", "Shift", "+"];
    assert '+' in keys[2];
    SplitJoinExactly(keys, '+');
  }

  /** `{ ...shortcuts, [action]: accelerator }`: the edited action gets the new accelerator
      and every other action keeps its own. */
  function Commit(shortcuts: Bindings, action: string, accelerator: string): (r: Bindings)
    ensures r.Keys == shortcuts.Keys + {action}
    ensures r[action] == accelerator
    ensures forall a :: a in shortcuts && a != action ==> r[a] == shortcuts[a]
  {
    Merge(shortcuts, map[action := accelerator])
  }

  /** The defaults resetToDefaults sends. */
  const ResetBindings: Bindings := map[
    "startStop" := "CommandOrControl+Alt+V",
    "pauseResume" := "CommandOrControl+Shift+P",
    "moveUp" := "CommandOrControl+Alt+Up",
    "moveDown" := "CommandOrControl+Alt+Down",
    "moveLeft" := "CommandOrControl+Alt+Left",
    "moveRight" := "CommandOrControl+Alt+Right"
  ]

  /** The panel's defaults are exactly the six bindings the main process starts with. */
  lemma ResetMatchesMain()
    ensures ResetBindings == Defaults
  {
  }

  /** The recorder's state, and the bindings it has handed to `onShortcutsChange`. */
  class Recorder {
    var editingShortcut: Option<string>
    var recordedKeys: seq<string>
    var isRecording: bool
    var changes: seq<Bindings>

    /** Recording always has an entry to edit; when idle, nothing is being edited or held. */
    predicate Valid()
      reads this
    {
      && (isRecording ==> editingShortcut.Some?)
      && (!isRecording ==> editingShortcut == None && recordedKeys == [])
    }

    constructor()
      ensures editingShortcut == None && recordedKeys == [] && !isRecording && changes == []
      ensures Valid()
    {
      editingShortcut := None;
      recordedKeys := [];
      isRecording := false;
      changes := [];
    }

    /** handleKeyDown: while recording, the held combination replaces the recorded parts;
        otherwise the event is ignored. */
    method HandleKeyDown(e: KeyEvent)
      requires Valid()
      modifies this`recordedKeys
      ensures Valid()
      ensures !isRecording ==> recordedKeys == old(recordedKeys)
      ensures isRecording ==> recordedKeys == KeysFor(e)
    {
      if !isRecording {
        return;
      }
      var keys := [];
      if e.metaKey || e.ctrlKey {
        keys := keys + ["CommandOrControl"];
      }
      if e.altKey {
        keys := keys + ["Alt"];
      }
      if e.shiftKey {
        keys := keys + ["Shift"];
      }
      var key := ToUpper(e.key);
      if key != "META" && key != "CONTROL" && key != "ALT" && key != "SHIFT" {
        keys := keys + [key];
      }
      recordedKeys := keys;
    }

    /** handleKeyUp: while recording with parts held, the joined accelerator is committed to
        the edited entry of `shortcuts` (the bindings the panel was given) and recording
        ends; with nothing held, or when not recording, nothing happens. */
    method HandleKeyUp(shortcuts: Bindings)
      requires Valid()
      modifies this
      ensures Valid()
      ensures !old(isRecording) || old(recordedKeys) == [] ==>
                && isRecording == old(isRecording) && editingShortcut == old(editingShortcut)
                && recordedKeys == old(recordedKeys) && changes == old(changes)
      ensures old(isRecording) && old(recordedKeys) != [] ==>
                && changes == old(changes)
                     + [Commit(shortcuts, old(editingShortcut).value, Join(old(recordedKeys), '+'))]
                && !isRecording && editingShortcut == None && recordedKeys == []
    {
      if !isRecording {
        return;
      }
      if |recordedKeys| > 0 {
        var newShortcut := Join(recordedKeys, '+');
        changes := changes + [Commit(shortcuts, editingShortcut.value, newShortcut)];
        isRecording := false;
        editingShortcut := None;
        recordedKeys := [];
      }
    }

    /** startRecording: the entry to edit is chosen and nothing is held yet. */
    method StartRecording(shortcutKey: string)
      modifies this`editingShortcut, this`isRecording, this`recordedKeys
      ensures Valid()
      ensures editingShortcut == Some(shortcutKey) && isRecording && recordedKeys == []
    {
      editingShortcut := Some(shortcutKey);
      isRecording := true;
      recordedKeys := [];
    }

    /** cancelRecording: back to idle, nothing handed to the main process. */
    method CancelRecording()
      modifies this`editingShortcut, this`isRecording, this`recordedKeys
      ensures Valid()
      ensures editingShortcut == None && !isRecording && recordedKeys == []
    {
      isRecording := false;
      editingShortcut := None;
      recordedKeys := [];
    }

    /** resetToDefaults: the six default bindings are handed over as they are. */
    method ResetToDefaults()
      modifies this`changes
      ensures changes == old(changes) + [ResetBindings]
    {
      changes := changes + [ResetBindings];
    }
  }
}
