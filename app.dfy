/** The renderer's control bar (App.jsx): the words-per-minute field with its validation and
    the updates it sends to the main process, the status light, and the state shown before
    the first notification arrives. */
module App {
  import opened Wrappers
  import opened Keyboard
  import opened Engine

  // ---------------------------------------------------------------------------------
  // parseInt

  /** The characters `parseInt` skips before the number: white space and line terminators. */
  predicate IsWhiteSpace(c: char) {
    || '\t' <= c <= '\r'
    || c == ' ' || c == '\U{00A0}' || c == '\U{1680}'
    || '\U{2000}' <= c <= '\U{200A}'
    || c == '\U{2028}' || c == '\U{2029}' || c == '\U{202F}' || c == '\U{205F}'
    || c == '\U{3000}' || c == '\U{FEFF}'
  }

  /** `s` without its leading white space. */
  function TrimStart(s: string): (t: string)
    ensures |t| <= |s| && t == s[|s| - |t|..]
    ensures t == [] || !IsWhiteSpace(t[0])
    ensures forall k :: 0 <= k < |s| - |t| ==> IsWhiteSpace(s[k])
  {
    if s != [] && IsWhiteSpace(s[0]) then TrimStart(s[1..]) else s
  }

  predicate IsHexLetter(c: char) { 'a' <= c <= 'f' || 'A' <= c <= 'F' }

  /** A digit of base 10 or, when `hex`, of base 16. */
  predicate IsRadixDigit(c: char, hex: bool) { IsDigit(c) || (hex && IsHexLetter(c)) }

  function DigitValue(c: char): (v: nat)
    ensures IsDigit(c) ==> v < 10
    ensures v < 16
  {
    if IsDigit(c) then c as int - '0' as int
    else if 'a' <= c <= 'f' then c as int - 'a' as int + 10
    else if 'A' <= c <= 'F' then c as int - 'A' as int + 10
    else 0
  }

  /** The length of the longest prefix of `s` made of digits. */
  function DigitRun(s: string, hex: bool): (n: nat)
    ensures n <= |s|
    ensures forall k :: 0 <= k < n ==> IsRadixDigit(s[k], hex)
    ensures n < |s| ==> !IsRadixDigit(s[n], hex)
  {
    if s != [] && IsRadixDigit(s[0], hex) then 1 + DigitRun(s[1..], hex) else 0
  }

  /** The number the digits `ds` denote, most significant first. */
  function ValueOf(ds: string, hex: bool): nat {
    if ds == [] then 0
    else ValueOf(ds[..|ds| - 1], hex) * (if hex then 16 else 10) + DigitValue(ds[|ds| - 1])
  }

  /** `u` starts with the `0x` or `0X` that selects base 16. */
  predicate HexPrefix(u: string) {
    |u| >= 2 && u[0] == '0' && (u[1] == 'x' || u[1] == 'X')
  }

  /** The unsigned part of `parseInt`: after a base-16 prefix, or from the start otherwise,
      the longest run of digits is the number; no digit at all is NaN, here `None`. */
  function ParseUnsigned(u: string): (r: Option<int>)
    ensures r.Some? ==> r.value >= 0
  {
    var hex := HexPrefix(u);
    var body := if hex then u[2..] else u;
    var n := DigitRun(body, hex);
    if n == 0 then None else Some(ValueOf(body[..n], hex))
  }

  function Negated(p: Option<int>): Option<int> {
    match p
    case None => None
    case Some(v) => Some(-v)
  }

  /** The number after the white space: one sign, then the unsigned part. */
  function ParseSigned(t: string): Option<int> {
    if t != [] && t[0] == '-' then Negated(ParseUnsigned(t[1..]))
    else if t != [] && t[0] == '+' then ParseUnsigned(t[1..])
    else ParseUnsigned(t)
  }

  /** `parseInt(s)` without a radix: leading white space is skipped before the number. */
  function ParseInt(s: string): Option<int> {
    ParseSigned(TrimStart(s))
  }

  /** The decimal numeral of `n`, as `String(n)` writes it. */
  function Show(n: nat): (s: string)
    ensures s != []
    ensures forall k :: 0 <= k < |s| ==> IsDigit(s[k])
  {
    if n < 10 then [('0' as int + n) as char]
    else Show(n / 10) + [('0' as int + n % 10) as char]
  }

  lemma {:induction false} ValueOfShow(n: nat)
    ensures ValueOf(Show(n), false) == n
  {
    var s := Show(n);
    if n < 10 {
      assert s[..|s| - 1] == [];
    } else {
      assert s[..|s| - 1] == Show(n / 10);
      ValueOfShow(n / 10);
    }
  }

  lemma ParseUnsignedShow(n: nat, rest: string)
    requires rest == [] || (!IsDigit(rest[0]) && rest[0] != 'x' && rest[0] != 'X')
    ensures ParseUnsigned(Show(n) + rest) == Some(n)
  {
    var s := Show(n);
    var u := s + rest;
    assert !HexPrefix(u) by {
      if |s| >= 2 {
        assert u[1] == s[1];
      } else if rest != [] {
        assert u[1] == rest[0];
      }
    }
    DigitRunPrefix(s, rest);
    assert u[..|s|] == s;
    ValueOfShow(n);
  }

  lemma TrimStartKeeps(s: string)
    requires s != [] && !IsWhiteSpace(s[0])
    ensures TrimStart(s) == s
  {
  }

  lemma ParseSignedSign(s: string)
    ensures ParseSigned("+" + s) == ParseUnsigned(s)
    ensures ParseSigned("-" + s) == Negated(ParseUnsigned(s))
  {
    assert ("+" + s)[1..] == s;
    assert ("-" + s)[1..] == s;
  }

  /** `parseInt` reads back the numeral of any whole number, with or without a sign, when
      the numeral is followed by nothing or by a character that is neither a digit nor `x`/`X`
      (as in `12.5` or `12e3`); after a lone `0`, an `x` would select base 16. */
  lemma ParseIntShow(n: nat, rest: string)
    requires rest == [] || (!IsDigit(rest[0]) && rest[0] != 'x' && rest[0] != 'X')
    ensures ParseInt(Show(n) + rest) == Some(n)
    ensures ParseInt("+" + (Show(n) + rest)) == Some(n)
    ensures ParseInt("-" + (Show(n) + rest)) == Some(-(n as int))
  {
    ParseUnsignedShow(n, rest);
    DigitFirst(n, rest);
    ParseIntOfNumber(Show(n) + rest, n);
    ParseIntOfNegative(Show(n) + rest, n);
  }

  /** Text that starts with a digit and reads as `v` unsigned reads as `v`, with or without
      a plus sign in front. */
  lemma ParseIntOfNumber(u: string, v: int)
    requires u != [] && IsDigit(u[0]) && ParseUnsigned(u) == Some(v)
    ensures ParseInt(u) == Some(v)
    ensures ParseInt("+" + u) == Some(v)
  {
    TrimStartKeeps(u);
    TrimStartKeeps("+" + u);
    ParseSignedSign(u);
  }

  /** Text that starts with a digit and reads as `v` unsigned reads as `-v` after a minus
      sign. */
  lemma ParseIntOfNegative(u: string, v: int)
    requires u != [] && IsDigit(u[0]) && ParseUnsigned(u) == Some(v)
    ensures ParseInt("-" + u) == Some(-v)
  {
    TrimStartKeeps("-" + u);
    ParseSignedSign(u);
  }

  lemma DigitFirst(n: nat, rest: string)
    ensures Show(n) + rest != [] && IsDigit((Show(n) + rest)[0])
  {
    assert (Show(n) + rest)[0] == Show(n)[0];
  }

  lemma {:induction false} DigitRunPrefix(s: string, rest: string)
    requires forall k :: 0 <= k < |s| ==> IsDigit(s[k])
    requires rest == [] || !IsDigit(rest[0])
    ensures DigitRun(s + rest, false) == |s|
  {
    if s == [] {
      assert s + rest == rest;
    } else {
      assert (s + rest)[1..] == s[1..] + rest;
      DigitRunPrefix(s[1..], rest);
    }
  }

  /** Typing the numeral of a rate from 10 to 300 into the field makes it acceptable, with
      exactly that value. */
  lemma NumeralInRangeAccepted(n: nat)
    requires 10 <= n <= 300
    ensures AppAccepts(ParseInt(Show(n))) && ParseInt(Show(n)) == Some(n)
  {
    ParseIntShow(n, []);
    assert Show(n) + [] == Show(n);
  }

  /** Anything without a digit where the number should start is NaN. */
  lemma ParseIntNoDigits(s: string)
    requires forall k :: 0 <= k < |s| ==> !IsDigit(s[k])
    ensures ParseInt(s) == None
  {
    var t := TrimStart(s);
    if t != [] {
      assert t[0] == s[|s| - |t|];
      if |t| >= 2 {
        assert t[1..][0] == s[|s| - |t| + 1];
      }
      ParseUnsignedNoDigit(t[1..]);
    }
    ParseUnsignedNoDigit(t);
  }

  /** Without a digit in front there is no number. */
  lemma ParseUnsignedNoDigit(u: string)
    requires u == [] || !IsDigit(u[0])
    ensures ParseUnsigned(u) == None
  {
  }

  // ---------------------------------------------------------------------------------
  // The words-per-minute field

  /** The field's value: the empty string while the user clears it, otherwise a number. */
  datatype WpmField = Blank | Number(n: int)

  /** What handleWpmChange sends: a number, not NaN, from 10 to 300. */
  predicate AppAccepts(p: Option<int>) {
    p.Some? && 10 <= p.value <= 300
  }

  /** handleWpmBlur's reset condition. */
  predicate Resets(f: WpmField) {
    f.Blank? || f.n < 10 || f.n > 300
  }

  /** The field and the `updateWpm` messages it has sent to the main process. */
  class WpmControl {
    var wpm: WpmField
    var sent: seq<int>

    /** The field is blank or within the input's 10 to 300, and so is everything sent. */
    predicate Valid()
      reads this
    {
      && (wpm.Number? ==> 10 <= wpm.n <= 300)
      && forall k :: 0 <= k < |sent| ==> 10 <= sent[k] <= 300
    }

    constructor()
      ensures wpm == Number(80) && sent == []
      ensures Valid()
    {
      wpm := Number(80);
      sent := [];
    }

    /** handleWpmChange: an empty input blanks the field and sends nothing; an input that
        parses to 10 to 300 sets the field and sends that value; anything else is ignored. */
    method HandleWpmChange(value: string)
      modifies this
      ensures value == "" ==> wpm == Blank && sent == old(sent)
      ensures value != "" && AppAccepts(ParseInt(value)) ==>
                wpm == Number(ParseInt(value).value) && sent == old(sent) + [ParseInt(value).value]
      ensures value != "" && !AppAccepts(ParseInt(value)) ==> wpm == old(wpm) && sent == old(sent)
      ensures old(Valid()) ==> Valid()
    {
      if value == "" {
        wpm := Blank;
        return;
      }
      var newWpm := ParseInt(value);
      if newWpm.Some? && newWpm.value >= 10 && newWpm.value <= 300 {
        wpm := Number(newWpm.value);
        sent := sent + [newWpm.value];
      }
    }

    /** handleWpmBlur: a blank or out-of-range field is reset to 80, which is sent. While the
        field is valid this happens exactly when it is blank. */
    method HandleWpmBlur()
      modifies this
      ensures Resets(old(wpm)) ==> wpm == Number(80) && sent == old(sent) + [80]
      ensures !Resets(old(wpm)) ==> wpm == old(wpm) && sent == old(sent)
      ensures old(Valid()) ==> Valid() && (sent != old(sent) <==> old(wpm) == Blank)
    {
      if wpm.Blank? || wpm.n < 10 || wpm.n > 300 {
        wpm := Number(80);
        sent := sent + [80];
      }
    }
  }

  /** Everything the field sends lies within the 10 to 900 the main process accepts, so no
      update is ever rejected there. */
  lemma SentValuesAccepted(c: WpmControl)
    requires c.Valid()
    ensures forall k :: 0 <= k < |c.sent| ==> WpmAccepted(c.sent[k])
  {
  }

  // ---------------------------------------------------------------------------------
  // Status

  /** getStatusLightClass: the CSS class of the status light for the last state received. */
  function StatusLightClass(typingState: string): (cls: string)
    ensures typingState != "typing" && typingState != "paused" && typingState != "error"
            ==> cls == "status-light-ready"
  {
    match typingState
    case "typing" => "status-light-typing"
    case "paused" => "status-light-paused"
    case "error" => "status-light-error"
    case _ => "status-light-ready"
  }

  /** Every notification the main process sends lights its own class, and no two share one. */
  lemma StatusLightPerNotice(n1: Notice, n2: Notice)
    ensures StatusLightClass(n1.Name()) == "status-light-" + n1.Name()
    ensures n1 != n2 ==> StatusLightClass(n1.Name()) != StatusLightClass(n2.Name())
  {
  }

  /** The state shown from the reply to get-typing-state, before any notification. */
  function InitialState(s: TypingState): (shown: string)
    ensures shown == "ready" <==> !s.isTyping
    ensures shown == "paused" <==> s.isTyping && s.isPaused
    ensures shown == "typing" <==> s.isTyping && !s.isPaused
  {
    if s.isTyping then (if s.isPaused then "paused" else "typing") else "ready"
  }

  /** The initial state agrees with the main process's last notification, except that a run
      that ended in 'error' is shown as ready. */
  lemma InitialStateFollowsNotices(h: Host)
    requires h.Valid()
    ensures LastNotice(h.trace) == Some(Typing) ==> InitialState(h.GetTypingState()) == "typing"
    ensures LastNotice(h.trace) == Some(Paused) ==> InitialState(h.GetTypingState()) == "paused"
    ensures LastNotice(h.trace) !in {Some(Typing), Some(Paused)} ==>
              InitialState(h.GetTypingState()) == "ready"
  {
  }
}
