/** The platform adapter (platform/PlatformAdapter.js): the selectors that differ between
    macOS ("darwin") and the other platforms, and the display formatting of accelerators.
    The adapter only reads the platform string it was built with, so it is a value. */
module Platform {
  import opened Wrappers

  /** `pat` occurs in `s` starting at index `i`. */
  predicate OccursAt(s: string, pat: string, i: int) {
    0 <= i && i + |pat| <= |s| && s[i..i + |pat|] == pat
  }

  /** The first index at or after `k` where `pat` occurs, if any. */
  function IndexFrom(s: string, pat: string, k: nat): (r: Option<nat>)
    decreases |s| - k
    ensures r.Some? ==> k <= r.value && OccursAt(s, pat, r.value)
    ensures r.Some? ==> forall j :: k <= j < r.value ==> !OccursAt(s, pat, j)
    ensures r.None? ==> forall j :: k <= j ==> !OccursAt(s, pat, j)
  {
    if k + |pat| > |s| then None
    else if s[k..k + |pat|] == pat then Some(k)
    else IndexFrom(s, pat, k + 1)
  }

  /** `s.indexOf(pat)`, as an option. */
  function IndexOf(s: string, pat: string): Option<nat> {
    IndexFrom(s, pat, 0)
  }

  /** `s.replace(pat, rep)` with a string pattern: only the first occurrence is replaced, and
      a string without one is returned unchanged. */
  function ReplaceFirst(s: string, pat: string, rep: string): string {
    match IndexOf(s, pat)
    case None => s
    case Some(i) => s[..i] + rep + s[i + |pat|..]
  }

  /** An occurrence at `i` with none before it is the one `IndexOf` finds, and the one
      `ReplaceFirst` replaces: the text before it is kept, the occurrence becomes `rep`, and
      the text after it is kept, later occurrences included. */
  lemma FirstOccurrence(s: string, pat: string, rep: string, i: nat)
    requires OccursAt(s, pat, i)
    requires forall j :: 0 <= j < i ==> !OccursAt(s, pat, j)
    ensures IndexOf(s, pat) == Some(i)
    ensures ReplaceFirst(s, pat, rep) == s[..i] + rep + s[i + |pat|..]
  {
    var r := IndexOf(s, pat);
    assert r.Some?;
    assert r.value <= i;
  }

  /** A string in which the pattern does not occur is returned unchanged. */
  lemma NoOccurrence(s: string, pat: string, rep: string)
    requires forall j :: !OccursAt(s, pat, j)
    ensures IndexOf(s, pat) == None
    ensures ReplaceFirst(s, pat, rep) == s
  {
  }

  /** Every occurrence starts with the pattern's first character. */
  lemma OccurrenceFirstChar(s: string, pat: string)
    requires |pat| > 0
    ensures forall j :: OccursAt(s, pat, j) ==> s[j] == pat[0]
  {
    forall j | OccursAt(s, pat, j)
      ensures s[j] == pat[0]
    {
      assert s[j..j + |pat|][0] == s[j];
    }
  }

  /** A pattern whose first character does not appear in `s` does not occur in it. */
  lemma AbsentByFirstChar(s: string, pat: string, rep: string)
    requires |pat| > 0 && pat[0] !in s
    ensures ReplaceFirst(s, pat, rep) == s
  {
    OccurrenceFirstChar(s, pat);
    NoOccurrence(s, pat, rep);
  }

  /** An occurrence at `i` is the first one when the pattern's first character appears
      nowhere before `i`. */
  lemma FirstByChar(s: string, pat: string, rep: string, i: nat)
    requires |pat| > 0 && OccursAt(s, pat, i) && pat[0] !in s[..i]
    ensures IndexOf(s, pat) == Some(i)
    ensures ReplaceFirst(s, pat, rep) == s[..i] + rep + s[i + |pat|..]
  {
    OccurrenceFirstChar(s, pat);
    assert forall j :: 0 <= j < i ==> s[..i][j] == s[j];
    FirstOccurrence(s, pat, rep, i);
  }

  /** Replacing a pattern by itself changes nothing, occurrence or not. */
  lemma ReplaceBySelf(s: string, pat: string)
    ensures ReplaceFirst(s, pat, pat) == s
  {
    match IndexOf(s, pat)
    case None =>
    case Some(i) =>
      assert s[..i] + pat + s[i + |pat|..] == s[..i] + s[i..i + |pat|] + s[i + |pat|..];
      assert s[..i] + s[i..i + |pat|] == s[..i + |pat|];
      assert s[..i + |pat|] + s[i + |pat|..] == s;
  }

  /** Removing the first `+` keeps every later one. */
  lemma RemovingFirstPlusKeepsLater(s: string, i: nat, j: nat)
    requires i < j < |s| && s[i] == '+' && s[j] == '+'
    ensures '+' in ReplaceFirst(s, "+", "")
  {
    assert OccursAt(s, "+", i) by { assert s[i..i + 1] == [s[i]]; }
    var r := IndexOf(s, "+");
    assert r.Some? && r.value <= i;
    var out := ReplaceFirst(s, "+", "");
    assert out == s[..r.value] + s[r.value + 1..];
    assert out[j - 1] == s[j];
  }

  const CommandSymbol: char := '\U{2318}'   // ⌘
  const OptionSymbol: char := '\U{2325}'    // ⌥
  const ShiftSymbol: char := '\U{21E7}'     // ⇧
  const ControlSymbol: char := '\U{2303}'   // ⌃

  /** The fields of the BrowserWindow options the adapter contributes; an absent field is
      `None`. */
  datatype WindowOptions = WindowOptions(
    vibrancy: Option<string>,
    visualEffectState: Option<string>,
    transparent: bool,
    frame: Option<bool>)

  /** The adapter, holding `process.platform` as read at construction. */
  datatype Adapter = Adapter(platform: string)
  {
    predicate IsMacOS() { platform == "darwin" }

    predicate IsLinux() { platform == "linux" }

    predicate HasContentProtection() { platform == "darwin" }

    function PlatformName(): string {
      if platform == "darwin" then "macOS" else "Linux"
    }

    /** getWindowOptions: native vibrancy on macOS, a frameless window elsewhere. */
    function GetWindowOptions(): (o: WindowOptions)
      ensures o.transparent
      ensures o.frame.Some? <==> !IsMacOS()
      ensures o.frame.Some? ==> !o.frame.value
      ensures o.vibrancy.Some? <==> IsMacOS()
      ensures o.visualEffectState.Some? <==> IsMacOS()
      ensures IsMacOS() ==> o.vibrancy == Some("under-window") && o.visualEffectState == Some("active")
    {
      if platform == "darwin" then
        WindowOptions(Some("under-window"), Some("active"), true, None)
      else
        WindowOptions(None, None, true, Some(false))
    }

    /** setContentProtection's result; `callThrows` says whether the window call throws. The
        flag passed to the window does not affect the result. */
    function SetContentProtection(callThrows: bool): (ok: bool)
      ensures ok <==> IsMacOS() && !callThrows
      ensures !HasContentProtection() ==> !ok
    {
      if platform == "darwin" then !callThrows else false
    }

    /** getIconPath: the build directory followed by the platform's icon file. */
    function GetIconPath(buildPath: string): (p: string)
      ensures |p| > |buildPath| && p[..|buildPath|] == buildPath
      ensures IsMacOS() ==> p[|buildPath|..] == "/icon.icns"
      ensures !IsMacOS() ==> p[|buildPath|..] == "/icon.png"
    {
      if platform == "darwin" then buildPath + "/icon.icns" else buildPath + "/icon.png"
    }

    /** formatShortcut as written: on macOS the first occurrence of each modifier name becomes
        its symbol and the first `+` is dropped; elsewhere only the first `CommandOrControl`
        changes, the `Alt` and `Shift` replacements being by themselves. */
    function FormatShortcut(shortcut: string): string {
      if platform == "darwin" then
        ReplaceFirst(MacSymbols(shortcut), "+", "")
      else
        ReplaceFirst(ReplaceFirst(ReplaceFirst(shortcut, "CommandOrControl", "Ctrl"), "Alt", "Alt"),
                     "Shift", "Shift")
    }

    /** formatShortcut with every `+` dropped on macOS, as its documentation (⌘⌥V) intends. */
    function FormatShortcutIntended(shortcut: string): string {
      if platform == "darwin" then RemoveAll(MacSymbols(shortcut), '+')
      else FormatShortcut(shortcut)
    }
  }

  /** The four symbol replacements of the macOS branch, each on its first occurrence. */
  function MacSymbols(shortcut: string): string {
    ReplaceFirst(ReplaceFirst(ReplaceFirst(ReplaceFirst(shortcut,
      "CommandOrControl", [CommandSymbol]), "Alt", [OptionSymbol]), "Shift", [ShiftSymbol]),
      "Control", [ControlSymbol])
  }

  /** `s` without any `c`. */
  function RemoveAll(s: string, c: char): (r: string)
    ensures c !in r
    ensures |r| <= |s|
    ensures forall x :: x in r <==> x in s && x != c
  {
    if s == [] then []
    else if s[0] == c then RemoveAll(s[1..], c)
    else [s[0]] + RemoveAll(s[1..], c)
  }

  /** Removal works piecewise: removing from a concatenation removes from each part. */
  lemma {:induction false} RemoveAllAppend(a: string, b: string, c: char)
    ensures RemoveAll(a + b, c) == RemoveAll(a, c) + RemoveAll(b, c)
    decreases |a|
  {
    if a == [] {
      assert a + b == b;
    } else {
      assert (a + b)[0] == a[0];
      assert (a + b)[1..] == a[1..] + b;
      RemoveAllAppend(a[1..], b, c);
    }
  }

  /** A single character other than `c` is kept, and `c` itself is dropped; with
      RemoveAllAppend, every other character stays, in order and as often as it occurs. */
  lemma RemoveAllSingle(d: char, c: char)
    ensures d != c ==> RemoveAll([d], c) == [d]
    ensures RemoveAll([c], c) == []
  {
    assert [d][1..] == [];
    assert [c][1..] == [];
  }

  /** The platform predicates: never both macOS and Linux; content protection exactly on
      macOS; "macOS" named exactly on macOS and every other platform named "Linux". */
  lemma PlatformSelectors(a: Adapter)
    ensures !(a.IsMacOS() && a.IsLinux())
    ensures a.HasContentProtection() <==> a.IsMacOS()
    ensures a.PlatformName() == "macOS" <==> a.IsMacOS()
    ensures !a.IsMacOS() ==> a.PlatformName() == "Linux"
  {
  }

  /** Off macOS only the first `CommandOrControl` changes: the other two replacements leave
      every shortcut as it is. */
  lemma OtherPlatformsOnlyRenameCommand(a: Adapter, shortcut: string)
    requires !a.IsMacOS()
    ensures a.FormatShortcut(shortcut) == ReplaceFirst(shortcut, "CommandOrControl", "Ctrl")
  {
    var s1 := ReplaceFirst(shortcut, "CommandOrControl", "Ctrl");
    ReplaceBySelf(s1, "Alt");
    ReplaceBySelf(s1, "Shift");
  }

  /** The start/stop default off macOS: `Ctrl+Alt+V`. */
  lemma OtherPlatformsFormatDefault(a: Adapter)
    requires !a.IsMacOS()
    ensures a.FormatShortcut("CommandOrControl+Alt+V") == "Ctrl+Alt+V"
  {
    OtherPlatformsOnlyRenameCommand(a, "CommandOrControl+Alt+V");
    FirstByChar("CommandOrControl+Alt+V", "CommandOrControl", "Ctrl", 0);
  }

  /** The symbols the macOS branch produces for the start/stop default, before the `+` step. */
  lemma MacSymbolsOfDefault()
    ensures MacSymbols("CommandOrControl+Alt+V") == [CommandSymbol, '+', OptionSymbol, '+', 'V']
  {
    var s0 := "CommandOrControl+Alt+V";
    FirstByChar(s0, "CommandOrControl", [CommandSymbol], 0);
    var s1 := ReplaceFirst(s0, "CommandOrControl", [CommandSymbol]);
    assert s1 == [CommandSymbol] + "+Alt+V";
    FirstByChar(s1, "Alt", [OptionSymbol], 2);
    var s2 := ReplaceFirst(s1, "Alt", [OptionSymbol]);
    assert s2 == [CommandSymbol, '+', OptionSymbol, '+', 'V'];
    AbsentByFirstChar(s2, "Shift", [ShiftSymbol]);
    AbsentByFirstChar(s2, "Control", [ControlSymbol]);
  }

  /** As written, the macOS branch keeps the second `+` of the start/stop default:
      `CommandOrControl+Alt+V` is shown as `⌘⌥+V`. */
  lemma MacFormatKeepsSecondPlus(a: Adapter)
    requires a.IsMacOS()
    ensures a.FormatShortcut("CommandOrControl+Alt+V") == [CommandSymbol, OptionSymbol, '+', 'V']
    ensures '+' in a.FormatShortcut("CommandOrControl+Alt+V")
  {
    MacSymbolsOfDefault();
    var s := [CommandSymbol, '+', OptionSymbol, '+', 'V'];
    assert OccursAt(s, "+", 1) by { assert s[1..2] == ['+']; }
    assert '+' !in s[..1] by { assert s[..1] == [CommandSymbol]; }
    FirstByChar(s, "+", "", 1);
  }

  /** Any shortcut with two `+` left after the symbol step keeps a `+` on macOS. */
  lemma MacFormatKeepsLaterPlus(a: Adapter, shortcut: string, i: nat, j: nat)
    requires a.IsMacOS()
    requires i < j < |MacSymbols(shortcut)|
    requires MacSymbols(shortcut)[i] == '+' && MacSymbols(shortcut)[j] == '+'
    ensures '+' in a.FormatShortcut(shortcut)
  {
    RemovingFirstPlusKeepsLater(MacSymbols(shortcut), i, j);
  }

  /** The intended formatting leaves no `+` on macOS, whatever the shortcut, and shows the
      start/stop default as `⌘⌥V`; elsewhere it is the formatting as written. */
  lemma MacFormatIntended(a: Adapter, shortcut: string)
    ensures a.IsMacOS() ==> '+' !in a.FormatShortcutIntended(shortcut)
    ensures a.IsMacOS() ==>
              a.FormatShortcutIntended("CommandOrControl+Alt+V") == [CommandSymbol, OptionSymbol, 'V']
    ensures !a.IsMacOS() ==> a.FormatShortcutIntended(shortcut) == a.FormatShortcut(shortcut)
  {
    if a.IsMacOS() {
      MacSymbolsOfDefault();
      var s := [CommandSymbol, '+', OptionSymbol, '+', 'V'];
      assert RemoveAll(['V'], '+') == ['V'] by { assert ['V'][1..] == []; }
      assert RemoveAll(['+', 'V'], '+') == ['V'] by { assert ['+', 'V'][1..] == ['V']; }
      assert RemoveAll([OptionSymbol, '+', 'V'], '+') == [OptionSymbol, 'V'] by {
        assert [OptionSymbol, '+', 'V'][1..] == ['+', 'V'];
      }
      assert RemoveAll(['+', OptionSymbol, '+', 'V'], '+') == [OptionSymbol, 'V'] by {
        assert ['+', OptionSymbol, '+', 'V'][1..] == [OptionSymbol, '+', 'V'];
      }
      assert RemoveAll(s, '+') == [CommandSymbol, OptionSymbol, 'V'] by {
        assert s[1..] == ['+', OptionSymbol, '+', 'V'];
      }
    }
  }
}
