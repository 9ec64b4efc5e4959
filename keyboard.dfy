/** The character classifier of the typing simulator: which robotjs call reproduces one
    character of the clipboard text (main.js, TypingSimulator.typeCharacter and the two
    lookup tables), and a US keyboard layout against which the classification is checked. */
module Keyboard {

  /** The robotjs key names the engine passes: the named keys, and a single character
      standing for the key that types it. */
  datatype Key =
    | Enter | Tab | Space
    | Minus | Equal | LeftBracket | RightBracket | Backslash | Semicolon | Quote
    | Comma | Period | Slash | Backquote
    | Command | Control | Alt | Shift
    | CharKey(c: char)
  {
    /** The string handed to robotjs. */
    function Name(): string {
      match this
      case Enter => "enter"
      case Tab => "tab"
      case Space => "space"
      case Minus => "minus"
      case Equal => "equal"
      case LeftBracket => "left_bracket"
      case RightBracket => "right_bracket"
      case Backslash => "backslash"
      case Semicolon => "semicolon"
      case Quote => "quote"
      case Comma => "comma"
      case Period => "period"
      case Slash => "slash"
      case Backquote => "backquote"
      case Command => "command"
      case Control => "control"
      case Alt => "alt"
      case Shift => "shift"
      case CharKey(c) => [c]
    }
  }

  /** Two different keys are never handed to robotjs under the same name. */
  lemma NamesDistinct(k1: Key, k2: Key)
    requires k1 != k2
    ensures k1.Name() != k2.Name()
  {
    if k1.CharKey? && k2.CharKey? {
      assert k1.Name()[0] != k2.Name()[0];
    } else if k1.CharKey? || k2.CharKey? {
      assert |k1.Name()| != |k2.Name()|;
    } else {
      assert k1.Name() != k2.Name();
    }
  }

  datatype Direction = Up | Down

  /** The three robotjs entry points the engine uses. */
  datatype Call =
    | KeyTap(key: Key, shift: bool)               // robot.keyTap(key) or robot.keyTap(key, ['shift'])
    | TypeString(text: string)                    // robot.typeString(text)
    | KeyToggle(key: Key, direction: Direction)   // robot.keyToggle(key, direction)

  /** Punctuation typed as shift plus the base key (SHIFT_CHAR_MAP). */
  const ShiftCharMap: map<char, Key> := map[
    '!' := CharKey('1'), '@' := CharKey('2'), '#' := CharKey('3'), '$' := CharKey('4'),
    '%' := CharKey('5'), '^' := CharKey('6'), '&' := CharKey('7'), '*' := CharKey('8'),
    '(' := CharKey('9'), ')' := CharKey('0'), '_' := CharKey('-'), '+' := CharKey('='),
    '{' := CharKey('['), '}' := CharKey(']'), '|' := CharKey('\\'), ':' := CharKey(';'),
    '"' := CharKey('\''), '<' := CharKey(','), '>' := CharKey('.'), '?' := CharKey('/')
  ]

  /** Punctuation typed as a named key without modifiers (REGULAR_CHAR_MAP). */
  const RegularCharMap: map<char, Key> := map[
    '-' := Minus, '=' := Equal, '[' := LeftBracket, ']' := RightBracket,
    '\\' := Backslash, ';' := Semicolon, '\'' := Quote, ',' := Comma,
    '.' := Period, '/' := Slash, '`' := Backquote
  ]

  predicate IsUpper(c: char) { 'A' <= c <= 'Z' }

  predicate IsLower(c: char) { 'a' <= c <= 'z' }

  predicate IsDigit(c: char) { '0' <= c <= '9' }

  /** `char.toLowerCase()` restricted to the letters it is applied to. */
  function ToLower(c: char): (l: char)
    requires IsUpper(c)
    ensures IsLower(l)
  {
    (c as int + 32) as char
  }

  /** The characters that have a key of their own in the classifier. */
  predicate HasKey(c: char) {
    c == '\n' || c == '\t' || c == ' ' || IsUpper(c) || IsLower(c) || IsDigit(c)
    || c in ShiftCharMap || c in RegularCharMap
  }

  /** The first robotjs call typeCharacter makes for `c`: the branches are tried in order
      and the first that matches decides. */
  function Classify(c: char): Call {
    if c == '\n' then KeyTap(Enter, false)
    else if c == '\t' then KeyTap(Tab, false)
    else if c == ' ' then KeyTap(Space, false)
    else if IsUpper(c) then KeyTap(CharKey(ToLower(c)), true)
    else if IsLower(c) || IsDigit(c) then KeyTap(CharKey(c), false)
    else if c in ShiftCharMap then KeyTap(ShiftCharMap[c], true)
    else if c in RegularCharMap then KeyTap(RegularCharMap[c], false)
    else TypeString([c])
  }

  /** A character without a key of its own, and only such a character, is typed as a
      string of itself; a key is tapped with shift exactly for upper-case letters and the
      shifted punctuation; keys are never toggled. */
  lemma ClassifyShape(c: char)
    ensures Classify(c).TypeString? <==> !HasKey(c)
    ensures Classify(c).TypeString? ==> Classify(c).text == [c]
    ensures Classify(c).KeyTap? ==> (Classify(c).shift <==> IsUpper(c) || c in ShiftCharMap)
    ensures !Classify(c).KeyToggle?
  {
  }

  /** The two tables have disjoint domains, and neither holds a whitespace character, a
      letter or a digit, so no table entry is shadowed by an earlier branch of Classify. */
  lemma TablesDisjoint(c: char)
    ensures !(c in ShiftCharMap && c in RegularCharMap)
    ensures c in ShiftCharMap || c in RegularCharMap ==>
              c != '\n' && c != '\t' && c != ' ' && !IsUpper(c) && !IsLower(c) && !IsDigit(c)
  {
  }

  // ---------------------------------------------------------------------------------
  // A US keyboard layout, written out key by key, as the reference the tables target.

  /** For each non-letter key of the US layout: the character it types without shift
      and the one it types with shift. */
  const UsShifted: map<char, char> := map[
    '`' := '~', '1' := '!', '2' := '@', '3' := '#', '4' := '$', '5' := '%',
    '6' := '^', '7' := '&', '8' := '*', '9' := '(', '0' := ')', '-' := '_',
    '=' := '+', '[' := '{', ']' := '}', '\\' := '|', ';' := ':', '\'' := '"',
    ',' := '<', '.' := '>', '/' := '?'
  ]

  /** The character a key types without shift on a US layout, if it types one. */
  function PlainChar(key: Key): (o: string)
    ensures |o| <= 1
  {
    match key
    case Enter => "\n"
    case Tab => "\t"
    case Space => " "
    case Minus => "-"
    case Equal => "="
    case LeftBracket => "["
    case RightBracket => "]"
    case Backslash => "\\"
    case Semicolon => ";"
    case Quote => "'"
    case Comma => ","
    case Period => "."
    case Slash => "/"
    case Backquote => "`"
    case Command => []
    case Control => []
    case Alt => []
    case Shift => []
    case CharKey(c) => if IsLower(c) || c in UsShifted then [c] else []
  }

  /** What appears on screen when `call` succeeds on a US layout. */
  function Output(call: Call): string {
    match call
    case KeyTap(key, shift) =>
      var plain := PlainChar(key);
      if !shift || plain == [] then plain
      else if IsLower(plain[0]) then [(plain[0] as int - 32) as char]
      else if plain[0] in UsShifted then [UsShifted[plain[0]]]
      else plain
    case TypeString(s) => s
    case KeyToggle(_, _) => []
  }

  /** Every entry of SHIFT_CHAR_MAP names the US key whose shifted character is the entry's
      own character. */
  lemma ShiftTableMatchesLayout(c: char)
    requires c in ShiftCharMap
    ensures ShiftCharMap[c].CharKey? && ShiftCharMap[c].c in UsShifted
    ensures UsShifted[ShiftCharMap[c].c] == c
  {
  }

  /** Every entry of REGULAR_CHAR_MAP names the US key that types the entry's own character. */
  lemma RegularTableMatchesLayout(c: char)
    requires c in RegularCharMap
    ensures PlainChar(RegularCharMap[c]) == [c]
  {
  }

  /** Classification round trip: whatever the classifier decides, the call it makes types
      exactly the character it was given. */
  lemma ClassifyTypesItself(c: char)
    ensures Output(Classify(c)) == [c]
  {
    if c in ShiftCharMap {
      TablesDisjoint(c);
      ShiftTableMatchesLayout(c);
    } else if c in RegularCharMap {
      TablesDisjoint(c);
      RegularTableMatchesLayout(c);
    }
  }

  /** "Hi!" is typed as shift+h, i, and shift+1. */
  lemma ClassifyHiBang()
    ensures Classify('H') == KeyTap(CharKey('h'), true)
    ensures Classify('i') == KeyTap(CharKey('i'), false)
    ensures Classify('!') == KeyTap(CharKey('1'), true)
  {
  }
}
