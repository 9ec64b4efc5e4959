/** The typing engine of main.js: the module-level state (Host), the TypingSimulator job,
    the start/stop and pause/resume hotkey handlers, the parameter setters and the
    get-typing-state query.

    `start()` is an async function that suspends at each `await this.sleep(...)`. A call of
    Simulator.Start runs its synchronous prefix, up to the first await; each call of
    Simulator.Advance is one resumption after an await. Hotkey handlers and setters are Host
    methods, and a caller may interleave them with Advance in any order, as the event loop
    does. Every effect the engine has on the outside world is appended to Host.trace: robotjs
    calls with their outcome, sleeps with their length, and state notifications. */
module Engine {
  import opened Keyboard
  import opened Delay
  import Shortcuts
  import opened Wrappers

  /** The states sent on 'typing-state-changed'. */
  datatype Notice = Typing | Paused | Ready | Error {
    function Name(): string {
      match this
      case Typing => "typing"
      case Paused => "paused"
      case Ready => "ready"
      case Error => "error"
    }
  }

  datatype Event =
    | Robot(call: Call, ok: bool)    // a robotjs call, and whether it returned without throwing
    | Slept(ms: real)               // await this.sleep(ms)
    | Notified(state: Notice)       // this.notifyState(state)

  /** Whether robotjs accepts a call made when the trace has the given length: any pattern of
      failures, permanent or transient, is one of these. */
  type Oracle = (nat, Call) -> bool

  /** `update-wpm` accepts 10 to 900 words per minute. */
  predicate WpmAccepted(n: int) { 10 <= n <= 900 }

  /** `update-temperature` and `update-pause` accept 0 to 100. */
  predicate PercentAccepted(n: int) { 0 <= n <= 100 }

  /** The modifier keys released before typing, in the order they are released. */
  const Modifiers: seq<Key> := [Command, Control, Alt, Shift]

  /** The release of modifier keys: the toggles run in order inside one try block, so the
      first that throws ends the release. */
  function ReleaseEvents(keys: seq<Key>, accepts: Oracle, n: nat): seq<Event>
    decreases |keys|
  {
    if keys == [] then []
    else
      var ok := accepts(n, KeyToggle(keys[0], Up));
      [Robot(KeyToggle(keys[0], Up), ok)]
        + (if ok then ReleaseEvents(keys[1..], accepts, n + 1) else [])
  }

  /** The release toggles the keys up in order, one call per key, and stops right after the
      first call that fails: every call but the last succeeded, and the last failed unless
      every key was released. */
  lemma {:induction false} ReleaseStopsAtFailure(keys: seq<Key>, accepts: Oracle, n: nat)
    ensures var es := ReleaseEvents(keys, accepts, n);
            && |es| <= |keys|
            && (forall k :: 0 <= k < |es| ==>
                  es[k] == Robot(KeyToggle(keys[k], Up), accepts(n + k, KeyToggle(keys[k], Up))))
            && (forall k :: 0 <= k < |es| - 1 ==> es[k].ok)
            && (|es| < |keys| ==> |es| > 0 && !es[|es| - 1].ok)
    decreases |keys|
  {
    if keys != [] {
      var ok := accepts(n, KeyToggle(keys[0], Up));
      var head := Robot(KeyToggle(keys[0], Up), ok);
      if ok {
        ReleaseStopsAtFailure(keys[1..], accepts, n + 1);
        var rest := ReleaseEvents(keys[1..], accepts, n + 1);
        var es := [head] + rest;
        forall k | 1 <= k < |es|
          ensures es[k] == Robot(KeyToggle(keys[k], Up), accepts(n + k, KeyToggle(keys[k], Up)))
        {
          assert es[k] == rest[k - 1] && keys[k] == keys[1..][k - 1];
        }
      }
    }
  }

  /** The effects of the synchronous part of start(): the 'typing' notification, the release
      of the modifier keys and the one-second settle delay. */
  function StartEvents(accepts: Oracle, n: nat): seq<Event> {
    [Notified(Typing)] + ReleaseEvents(Modifiers, accepts, n + 1) + [Slept(1000.0)]
  }

  /** typeCharacter: the classified call, and when it throws, one `typeString(char)`; when
      that throws too the character is skipped. */
  function CharacterEvents(c: char, accepts: Oracle, n: nat): seq<Event> {
    var first := Classify(c);
    if accepts(n, first) then [Robot(first, true)]
    else [Robot(first, false), Robot(TypeString([c]), accepts(n + 1, TypeString([c])))]
  }

  /** Whether some call made for `c` succeeded. */
  predicate Delivered(c: char, accepts: Oracle, n: nat) {
    accepts(n, Classify(c)) || accepts(n + 1, TypeString([c]))
  }

  /** The previous character handed to calculateDelay: none before the first. */
  function PrevChar(text: string, i: nat): string
    requires i <= |text|
  {
    if i > 0 then [text[i - 1]] else []
  }

  /** The first character of a text never gets a boundary pause; a later one gets a pause
      exactly when the pause setting is positive and the character before it is a space,
      a sentence end or a comma. */
  lemma BoundaryFollowsPrevChar(text: string, i: nat, pauseMultiplier: int)
    requires i <= |text|
    ensures i == 0 ==> BoundaryMultiplier(PrevChar(text, i), pauseMultiplier) == 1.0
    ensures i > 0 ==>
              (BoundaryMultiplier(PrevChar(text, i), pauseMultiplier) > 1.0
               <==> pauseMultiplier > 0 && text[i - 1] in {' ', '.', '!', '?', ','})
  {
    BoundaryMultiplierOrder(PrevChar(text, i), pauseMultiplier);
  }

  /** The text that successful robotjs calls put on screen, on a US layout. */
  function Shown(es: seq<Event>): string {
    if es == [] then []
    else (if es[0].Robot? && es[0].ok then Output(es[0].call) else []) + Shown(es[1..])
  }

  lemma {:induction false} ShownAppend(a: seq<Event>, b: seq<Event>)
    ensures Shown(a + b) == Shown(a) + Shown(b)
  {
    if a == [] {
      assert a + b == b;
    } else {
      assert (a + b)[0] == a[0];
      assert (a + b)[1..] == a[1..] + b;
      ShownAppend(a[1..], b);
    }
  }

  /** typeCharacter never puts anything but its own character on screen, and puts it there
      exactly when one of its (at most two) calls succeeds. */
  lemma CharacterShown(c: char, accepts: Oracle, n: nat)
    ensures Shown(CharacterEvents(c, accepts, n)) == if Delivered(c, accepts, n) then [c] else []
  {
    ClassifyTypesItself(c);
    var es := CharacterEvents(c, accepts, n);
    if accepts(n, Classify(c)) {
      assert es == [Robot(Classify(c), true)];
      assert Shown(es) == Output(Classify(c)) + Shown([]);
    } else {
      var second := Robot(TypeString([c]), accepts(n + 1, TypeString([c])));
      assert es == [Robot(Classify(c), false)] + [second];
      ShownAppend([Robot(Classify(c), false)], [second]);
      assert Shown([second]) == (if second.ok then [c] else []) + Shown([]);
    }
  }

  /** The fallback is tried at most once, it is always the literal character, and it is
      tried exactly when the first call failed. */
  lemma CharacterFallbackOnce(c: char, accepts: Oracle, n: nat)
    ensures var es := CharacterEvents(c, accepts, n);
            && 1 <= |es| <= 2
            && es[0] == Robot(Classify(c), accepts(n, Classify(c)))
            && (|es| == 2 <==> !accepts(n, Classify(c)))
            && (|es| == 2 ==> es[1].call == TypeString([c]))
  {
  }

  /** The delay start()'s loop sleeps after each character of `text`, when `rs[j]` is the
      `Math.random()` draw made for character `j`. */
  function RunDelays(text: string, wpm: int, temperature: int, pauseMultiplier: int,
                     rs: seq<real>): (ds: seq<real>)
    requires wpm > 0 && |rs| == |text|
    requires forall j :: 0 <= j < |rs| ==> 0.0 <= rs[j] < 1.0
    ensures |ds| == |text|
    ensures forall j :: 0 <= j < |ds| ==> ds[j] >= FloorMs
  {
    seq(|text|, j requires 0 <= j < |text| =>
      CalculateDelay(PrevChar(text, j), wpm, temperature, pauseMultiplier, rs[j]))
  }

  lemma RunDelaysAt(text: string, wpm: int, temperature: int, pauseMultiplier: int, rs: seq<real>, j: nat)
    requires wpm > 0 && |rs| == |text|
    requires forall j :: 0 <= j < |rs| ==> 0.0 <= rs[j] < 1.0
    requires j < |text|
    ensures RunDelays(text, wpm, temperature, pauseMultiplier, rs)[j]
            == CalculateDelay(PrevChar(text, j), wpm, temperature, pauseMultiplier, rs[j])
  {
  }

  /** The events of start()'s loop from index `i` on when no pause, stop or fault comes:
      each character's calls, then its delay `delays[j]`. */
  function QuietEvents(text: string, i: nat, delays: seq<real>, accepts: Oracle, n: nat): seq<Event>
    requires i <= |text| && |delays| == |text|
    decreases |text| - i
  {
    if i == |text| then []
    else
      var typed := CharacterEvents(text[i], accepts, n);
      typed + [Slept(delays[i])] + QuietEvents(text, i + 1, delays, accepts, n + |typed| + 1)
  }

  /** `a` can be obtained from `b` by deleting characters. */
  predicate Subsequence(a: string, b: string)
    decreases |b|
  {
    if b == [] then a == []
    else (a != [] && a[0] == b[0] && Subsequence(a[1..], b[1..])) || Subsequence(a, b[1..])
  }

  lemma SubsequenceKeep(c: char, a: string, b: string)
    requires Subsequence(a, b)
    ensures Subsequence([c] + a, [c] + b)
  {
    assert ([c] + a)[1..] == a && ([c] + b)[1..] == b;
  }

  lemma SubsequenceDrop(c: char, a: string, b: string)
    requires Subsequence(a, b)
    ensures Subsequence(a, [c] + b)
  {
    assert ([c] + b)[1..] == b;
  }

  /** A sleep between two stretches of a trace puts nothing on screen. */
  lemma ShownSkipsSleep(a: seq<Event>, ms: real, b: seq<Event>)
    ensures Shown(a + [Slept(ms)] + b) == Shown(a) + Shown(b)
  {
    var front := a + [Slept(ms)];
    ShownAppend(front, b);
    ShownAppend(a, [Slept(ms)]);
    ShownSleep(ms);
    assert Shown(front) == Shown(a);
  }

  lemma ShownSleep(ms: real)
    ensures Shown([Slept(ms)]) == []
  {
    assert [Slept(ms)][1..] == [];
  }

  /** One character of a quiet run puts its own character on screen or nothing, then comes
      the rest of the run. */
  lemma QuietStep(text: string, i: nat, delays: seq<real>, accepts: Oracle, n: nat)
    requires i < |text| && |delays| == |text|
    ensures var typed := CharacterEvents(text[i], accepts, n);
            Shown(QuietEvents(text, i, delays, accepts, n))
            == (if Delivered(text[i], accepts, n) then [text[i]] else [])
               + Shown(QuietEvents(text, i + 1, delays, accepts, n + |typed| + 1))
  {
    var typed := CharacterEvents(text[i], accepts, n);
    ShownSkipsSleep(typed, delays[i], QuietEvents(text, i + 1, delays, accepts, n + |typed| + 1));
    CharacterShown(text[i], accepts, n);
  }

  /** A trace followed by a quiet run from character `i` is the trace extended by that
      character's calls and delay, followed by the quiet run from `i + 1`. */
  lemma QuietAdvance(text: string, i: nat, delays: seq<real>, accepts: Oracle,
                     before: seq<Event>, after: seq<Event>)
    requires i < |text| && |delays| == |text|
    requires after == before + CharacterEvents(text[i], accepts, |before|) + [Slept(delays[i])]
    ensures before + QuietEvents(text, i, delays, accepts, |before|)
            == after + QuietEvents(text, i + 1, delays, accepts, |after|)
  {
    var typed := CharacterEvents(text[i], accepts, |before|);
    var rest := QuietEvents(text, i + 1, delays, accepts, |after|);
    assert QuietEvents(text, i, delays, accepts, |before|) == typed + [Slept(delays[i])] + rest;
    assert before + (typed + [Slept(delays[i])] + rest) == before + typed + [Slept(delays[i])] + rest;
  }

  /** A run that nobody interrupts puts on screen the rest of the text in order, minus the
      characters whose calls all failed. */
  lemma {:induction false} QuietRunShowsText(text: string, i: nat, delays: seq<real>, accepts: Oracle, n: nat)
    requires i <= |text| && |delays| == |text|
    ensures Subsequence(Shown(QuietEvents(text, i, delays, accepts, n)), text[i..])
    decreases |text| - i
  {
    if i == |text| {
      assert QuietEvents(text, i, delays, accepts, n) == [];
      assert text[i..] == [];
    } else {
      var typed := CharacterEvents(text[i], accepts, n);
      var rest := Shown(QuietEvents(text, i + 1, delays, accepts, n + |typed| + 1));
      QuietRunShowsText(text, i + 1, delays, accepts, n + |typed| + 1);
      QuietStep(text, i, delays, accepts, n);
      assert text[i..] == [text[i]] + text[i + 1..];
      SubsequenceStep(text[i], Delivered(text[i], accepts, n), rest, text[i + 1..]);
    }
  }

  /** Keeping or dropping the first character extends a subsequence by one character. */
  lemma SubsequenceStep(c: char, kept: bool, rest: string, tail: string)
    requires Subsequence(rest, tail)
    ensures Subsequence((if kept then [c] else []) + rest, [c] + tail)
  {
    if kept {
      SubsequenceKeep(c, rest, tail);
    } else {
      assert [] + rest == rest;
      SubsequenceDrop(c, rest, tail);
    }
  }

  /** When robotjs accepts every call, a run that nobody interrupts puts on screen exactly the
      rest of the text. */
  lemma {:induction false} QuietRunTypesText(text: string, i: nat, delays: seq<real>, accepts: Oracle, n: nat)
    requires i <= |text| && |delays| == |text|
    requires forall m, call :: accepts(m, call)
    ensures Shown(QuietEvents(text, i, delays, accepts, n)) == text[i..]
    decreases |text| - i
  {
    if i == |text| {
      assert QuietEvents(text, i, delays, accepts, n) == [];
    } else {
      var typed := CharacterEvents(text[i], accepts, n);
      QuietRunTypesText(text, i + 1, delays, accepts, n + |typed| + 1);
      QuietStep(text, i, delays, accepts, n);
      assert Delivered(text[i], accepts, n);
      assert text[i..] == [text[i]] + text[i + 1..];
    }
  }

  lemma AppendAssoc(a: seq<Event>, b: seq<Event>, c: seq<Event>)
    ensures a + (b + c) == a + b + c
  {
  }

  /** The trace start() leaves, step by step. */
  lemma StartTraceSteps(before: seq<Event>, accepts: Oracle)
    ensures before + StartEvents(accepts, |before|)
            == before + [Notified(Typing)] + ReleaseEvents(Modifiers, accepts, |before| + 1) + [Slept(1000.0)]
  {
    var released := ReleaseEvents(Modifiers, accepts, |before| + 1);
    AppendAssoc(before, [Notified(Typing)] + released, [Slept(1000.0)]);
    AppendAssoc(before, [Notified(Typing)], released);
  }

  /** The most recent notification in a trace. */
  function LastNotice(t: seq<Event>): Option<Notice> {
    if t == [] then None
    else if t[|t| - 1].Notified? then Some(t[|t| - 1].state)
    else LastNotice(t[..|t| - 1])
  }

  predicate NoNotice(es: seq<Event>) {
    forall k :: 0 <= k < |es| ==> !es[k].Notified?
  }

  /** Robot calls and sleeps do not change the most recent notification. */
  lemma {:induction false} LastNoticeSkips(t: seq<Event>, es: seq<Event>)
    requires NoNotice(es)
    ensures LastNotice(t + es) == LastNotice(t)
    decreases |es|
  {
    if es == [] {
      assert t + es == t;
    } else {
      var front := es[..|es| - 1];
      assert (t + es)[|t + es| - 1] == es[|es| - 1];
      assert (t + es)[..|t + es| - 1] == t + front;
      assert NoNotice(front) by {
        forall k | 0 <= k < |front| ensures !front[k].Notified? {
          assert front[k] == es[k];
        }
      }
      LastNoticeSkips(t, front);
    }
  }

  lemma ReleaseEventsNoNotice(keys: seq<Key>, accepts: Oracle, n: nat)
    ensures NoNotice(ReleaseEvents(keys, accepts, n))
  {
  }

  lemma CharacterEventsNoNotice(c: char, accepts: Oracle, n: nat)
    ensures NoNotice(CharacterEvents(c, accepts, n))
  {
  }

  /** The notifications that end a run. */
  predicate NoTerminalNotice(es: seq<Event>) {
    forall k :: 0 <= k < |es| ==> es[k] != Notified(Ready) && es[k] != Notified(Error)
  }

  /** A trace whose last notification, if any, ended a run. */
  predicate IdleTrace(t: seq<Event>) {
    LastNotice(t) in {None, Some(Ready), Some(Error)}
  }

  /** A trace in which the run announced at `from` is still going: nothing after its
      'typing' notification ended it, and the last notification says whether it is paused. */
  predicate RunTrace(t: seq<Event>, from: nat, paused: bool) {
    && from < |t| && t[from] == Notified(Typing)
    && NoTerminalNotice(t[from + 1..])
    && LastNotice(t) == Some(if paused then Paused else Typing)
  }

  lemma EndedTrace(t: seq<Event>, s: Notice)
    requires s == Ready || s == Error
    ensures IdleTrace(t + [Notified(s)])
  {
    assert (t + [Notified(s)])[|t|] == Notified(s);
  }

  /** Robot calls and sleeps keep a run going. */
  lemma RunTraceQuiet(t: seq<Event>, from: nat, paused: bool, es: seq<Event>)
    requires RunTrace(t, from, paused) && NoNotice(es)
    ensures RunTrace(t + es, from, paused)
  {
    LastNoticeSkips(t, es);
    assert (t + es)[from + 1..] == t[from + 1..] + es;
    assert (t + es)[from] == t[from];
  }

  /** A 'paused' or 'typing' notification keeps a run going and records its pause state. */
  lemma RunTraceToggle(t: seq<Event>, from: nat, paused: bool, nowPaused: bool)
    requires RunTrace(t, from, paused)
    ensures RunTrace(t + [Notified(if nowPaused then Paused else Typing)], from, nowPaused)
  {
    var e := Notified(if nowPaused then Paused else Typing);
    assert (t + [e])[|t|] == e;
    assert (t + [e])[from + 1..] == t[from + 1..] + [e];
    assert (t + [e])[from] == t[from];
  }

  /** A 'typing' notification followed by robot calls and sleeps starts a run. */
  lemma RunTraceStarts(t: seq<Event>, es: seq<Event>, ms: real)
    requires NoNotice(es)
    ensures RunTrace(t + [Notified(Typing)] + es + [Slept(ms)], |t|, false)
  {
    var t1 := t + [Notified(Typing)];
    assert t1[|t|] == Notified(Typing);
    assert LastNotice(t1) == Some(Typing);
    assert t1[|t| + 1..] == [];
    RunTraceQuiet(t1, |t|, false, es);
    RunTraceQuiet(t1 + es, |t|, false, [Slept(ms)]);
  }

  /** The module-level state of main.js and the robotjs adapter. */
  class Host {
    var isTyping: bool
    var isPaused: bool
    var wpm: int
    var temperature: int
    var pauseMultiplier: int
    var shortcuts: Shortcuts.Bindings
    var currentTypingProcess: Simulator?
    /** The start() call in flight (its pending promise), which outlives
        currentTypingProcess when the job is stopped. */
    var running: Simulator?
    var trace: seq<Event>
    const accepts: Oracle
    /** Where the running job's 'typing' notification stands in the trace. */
    ghost var runFrom: nat

    ghost predicate SettingsValid()
      reads this`wpm, this`temperature, this`pauseMultiplier, this`shortcuts
    {
      && WpmAccepted(wpm) && PercentAccepted(temperature) && PercentAccepted(pauseMultiplier)
      && Shortcuts.Defaults.Keys <= shortcuts.Keys
    }

    /** No job is in flight, and the last notification (if any) ended a run. */
    ghost predicate Idle()
      reads this
    {
      && SettingsValid()
      && !isTyping && !isPaused && running == null
      && IdleTrace(trace)
    }

    ghost predicate Valid()
      reads this, running
    {
      && SettingsValid()
      && (isTyping <==> running != null)
      && (isPaused ==> isTyping)
      && (currentTypingProcess != null ==> currentTypingProcess == running)
      && (!isTyping ==> IdleTrace(trace))
      && (running != null ==>
            && running.isPaused == isPaused
            && (running.isStopped <==> currentTypingProcess == null)
            && running.i <= |running.text|
            && running.currentIndex == 0
            && WpmAccepted(running.wpm)
            && RunTrace(trace, runFrom, isPaused))
    }

    /** A job that has just announced itself and is typing, unpaused, satisfies Valid. */
    lemma RunningIsValid(job: Simulator)
      requires SettingsValid() && isTyping && !isPaused
      requires running == job && currentTypingProcess == job
      requires !job.isStopped && !job.isPaused && job.i <= |job.text| && job.currentIndex == 0
      requires WpmAccepted(job.wpm) && RunTrace(trace, runFrom, false)
      ensures Valid()
    {
    }

    /** The state the `finally` block of start() leaves. */
    ghost predicate Cleared()
      reads this
    {
      !isTyping && !isPaused && currentTypingProcess == null && running == null
    }

    constructor (accepts: Oracle)
      ensures Valid() && Idle()
      ensures this.accepts == accepts && trace == []
      ensures wpm == 80 && temperature == 50 && pauseMultiplier == 50
      ensures shortcuts == Shortcuts.Defaults && currentTypingProcess == null
    {
      isTyping := false;
      isPaused := false;
      wpm := 80;
      temperature := 50;
      pauseMultiplier := 50;
      shortcuts := Shortcuts.Defaults;
      currentTypingProcess := null;
      running := null;
      trace := [];
      this.accepts := accepts;
    }

    /** One robotjs call. */
    method Inject(call: Call) returns (ok: bool)
      modifies this`trace
      ensures ok == accepts(|old(trace)|, call)
      ensures trace == old(trace) + [Robot(call, ok)]
    {
      ok := accepts(|trace|, call);
      trace := trace + [Robot(call, ok)];
    }

    /** notifyState: the notification is recorded; a missing window or a failed send is
        swallowed and changes nothing else. */
    method Notify(state: Notice)
      modifies this`trace
      ensures trace == old(trace) + [Notified(state)]
    {
      trace := trace + [Notified(state)];
    }

    method Sleep(ms: real)
      modifies this`trace
      ensures trace == old(trace) + [Slept(ms)]
    {
      trace := trace + [Slept(ms)];
    }

    /** The four keyToggle(…, 'up') calls of start(), inside one try block. */
    method ReleaseModifiers()
      modifies this`trace
      ensures trace == old(trace) + ReleaseEvents(Modifiers, accepts, |old(trace)|)
    {
      ghost var n := |trace|;
      assert Modifiers[1..] == [Control, Alt, Shift];
      assert Modifiers[1..][1..] == [Alt, Shift];
      assert Modifiers[1..][1..][1..] == [Shift];
      var ok := Inject(KeyToggle(Command, Up));
      if ok {
        ok := Inject(KeyToggle(Control, Up));
        if ok {
          ok := Inject(KeyToggle(Alt, Up));
          if ok {
            ok := Inject(KeyToggle(Shift, Up));
          }
        }
      }
    }

    /** The `finally` block of start(). */
    method Finish()
      modifies this`isTyping, this`isPaused, this`currentTypingProcess, this`running
      ensures Cleared()
    {
      isTyping := false;
      isPaused := false;
      currentTypingProcess := null;
      running := null;
    }

    /** The effects of start() before its first await: the 'typing' notification, the
        release of the modifiers (ignoring a failure) and the one-second settle delay. The
        run they open is still going. */
    method Announce()
      modifies this`trace, this`runFrom
      ensures trace == old(trace) + [Notified(Typing)]
                + ReleaseEvents(Modifiers, accepts, |old(trace)| + 1) + [Slept(1000.0)]
      ensures runFrom == |old(trace)| && RunTrace(trace, runFrom, false)
    {
      ghost var before := trace;
      Notify(Typing);
      runFrom := |before|;
      ReleaseModifiers();
      Sleep(1000.0);
      ReleaseEventsNoNotice(Modifiers, accepts, |before| + 1);
      RunTraceStarts(before, ReleaseEvents(Modifiers, accepts, |before| + 1), 1000.0);
    }

    /** The module-level part of start() up to its first await: mark the module as typing,
        then announce the run. */
    method BeginRun(job: Simulator)
      requires Idle() && currentTypingProcess == job
      requires !job.isStopped && !job.isPaused && job.currentIndex == 0 && job.i <= |job.text|
      requires WpmAccepted(job.wpm)
      modifies this`trace, this`isTyping, this`running, this`runFrom
      ensures Valid() && running == job && isTyping
      ensures trace == old(trace) + [Notified(Typing)]
                + ReleaseEvents(Modifiers, accepts, |old(trace)| + 1) + [Slept(1000.0)]
    {
      isTyping := true;
      running := job;
      Announce();
      RunningIsValid(job);
    }

    /** The start/stop hotkey: while a job is typing, stop the current process and forget
        it; otherwise start a job on the clipboard text, if there is any. */
    method StartStopHotkey(clipboardText: string)
      requires Valid()
      modifies this, currentTypingProcess
      ensures Valid()
      ensures wpm == old(wpm) && temperature == old(temperature)
      ensures pauseMultiplier == old(pauseMultiplier) && shortcuts == old(shortcuts)
      ensures old(isTyping) ==>
                && isTyping && isPaused == old(isPaused) && running == old(running)
                && currentTypingProcess == null && running.isStopped
                && running.i == old(running.i) && trace == old(trace)
      ensures !old(isTyping) && clipboardText == [] ==>
                Idle() && currentTypingProcess == null && trace == old(trace)
      ensures !old(isTyping) && clipboardText != [] ==>
                && running != null && fresh(running) && currentTypingProcess == running
                && running.text == clipboardText && running.wpm == wpm
                && running.temperature == temperature && running.pauseMultiplier == pauseMultiplier
                && !running.isStopped && !running.isPaused && running.i == 0
                && isTyping && !isPaused
                && trace == old(trace) + StartEvents(accepts, |old(trace)|)
    {
      if isTyping {
        if currentTypingProcess != null {
          currentTypingProcess.Stop();
          currentTypingProcess := null;
        }
      } else if clipboardText != [] {
        var job := new Simulator(clipboardText, wpm, temperature, pauseMultiplier);
        currentTypingProcess := job;
        job.Start(this);
        StartTraceSteps(old(trace), accepts);
      }
    }

    /** The pause/resume hotkey: acts only on a current process that is typing, and toggles
        on the module-level pause flag. */
    method PauseResumeHotkey()
      requires Valid()
      modifies this`isPaused, this`trace, currentTypingProcess
      ensures Valid()
      ensures isTyping == old(isTyping) && running == old(running)
      ensures currentTypingProcess == old(currentTypingProcess)
      ensures running != null ==> running.i == old(running.i) && running.isStopped == old(running.isStopped)
      ensures old(currentTypingProcess != null && isTyping) ==>
                && isPaused == !old(isPaused)
                && trace == old(trace) + [Notified(if isPaused then Paused else Typing)]
      ensures !old(currentTypingProcess != null && isTyping) ==>
                isPaused == old(isPaused) && trace == old(trace)
    {
      if currentTypingProcess != null && isTyping {
        if isPaused {
          currentTypingProcess.Resume(this);
        } else {
          currentTypingProcess.Pause(this);
        }
      }
    }

    /** update-wpm. */
    method UpdateWpm(newWpm: int)
      requires Valid()
      modifies this`wpm
      ensures Valid()
      ensures wpm == if WpmAccepted(newWpm) then newWpm else old(wpm)
    {
      if 10 <= newWpm && newWpm <= 900 {
        wpm := newWpm;
      }
    }

    /** update-temperature. */
    method UpdateTemperature(newTemp: int)
      requires Valid()
      modifies this`temperature
      ensures Valid()
      ensures temperature == if PercentAccepted(newTemp) then newTemp else old(temperature)
    {
      if 0 <= newTemp && newTemp <= 100 {
        temperature := newTemp;
      }
    }

    /** update-pause. */
    method UpdatePause(newPause: int)
      requires Valid()
      modifies this`pauseMultiplier
      ensures Valid()
      ensures pauseMultiplier == if PercentAccepted(newPause) then newPause else old(pauseMultiplier)
    {
      if 0 <= newPause && newPause <= 100 {
        pauseMultiplier := newPause;
      }
    }

    /** update-shortcuts: the received bindings override the current ones. */
    method UpdateShortcuts(updates: Shortcuts.Bindings)
      requires Valid()
      modifies this`shortcuts
      ensures Valid()
      ensures shortcuts == Shortcuts.Merge(old(shortcuts), updates)
    {
      Shortcuts.MergeKeepsActions(shortcuts, updates);
      shortcuts := Shortcuts.Merge(shortcuts, updates);
    }

    /** loadSettings: `saved` is the `shortcuts` object of the settings file, None when the
        file is missing, unreadable or has none. */
    method LoadSettings(saved: Option<Shortcuts.Bindings>)
      requires Valid()
      modifies this`shortcuts
      ensures Valid()
      ensures shortcuts == if saved.Some? then Shortcuts.Merge(old(shortcuts), saved.value) else old(shortcuts)
    {
      if saved.Some? {
        Shortcuts.MergeKeepsActions(shortcuts, saved.value);
        shortcuts := Shortcuts.Merge(shortcuts, saved.value);
      }
    }

    /** get-typing-state: the two module-level flags, which always agree with the most recent
        notification; after 'ready' or 'error', or before any, they read as idle. */
    function GetTypingState(): (s: TypingState)
      requires Valid()
      reads this, running
      ensures s.isPaused ==> s.isTyping
      ensures LastNotice(trace) == Some(Paused) <==> s.isPaused
      ensures LastNotice(trace) == Some(Typing) <==> s.isTyping && !s.isPaused
      ensures !s.isTyping <==> LastNotice(trace) in {None, Some(Ready), Some(Error)}
    {
      TypingState(isTyping, isPaused)
    }
  }

  /** The reply to get-typing-state. */
  datatype TypingState = TypingState(isTyping: bool, isPaused: bool)

  /** A TypingSimulator: one job, with the parameters it was constructed with. */
  class Simulator {
    const text: string
    const wpm: int
    const temperature: int
    const pauseMultiplier: int
    var isStopped: bool
    var isPaused: bool
    /** Set by the constructor and never advanced. */
    var currentIndex: nat
    /** The loop variable `i` of start(), kept while the call is suspended. */
    var i: nat

    constructor (text: string, wordsPerMinute: int, temp: int := 50, pauseMult: int := 50)
      ensures this.text == text && wpm == wordsPerMinute
      ensures temperature == temp && pauseMultiplier == pauseMult
      ensures !isStopped && !isPaused && currentIndex == 0 && i == 0
    {
      this.text := text;
      wpm := wordsPerMinute;
      temperature := temp;
      pauseMultiplier := pauseMult;
      isStopped := false;
      isPaused := false;
      currentIndex := 0;
      i := 0;
    }

    /** start() up to its first await: mark the module as typing, notify, release the
        modifiers (ignoring a failure) and sleep one second before the first character. */
    method Start(host: Host)
      requires host.Idle() && host.currentTypingProcess == this
      requires !isStopped && !isPaused && currentIndex == 0 && WpmAccepted(wpm)
      modifies this`i, host`trace, host`isTyping, host`running, host`runFrom
      ensures host.Valid() && host.running == this && host.isTyping && i == 0
      ensures host.trace == old(host.trace) + [Notified(Typing)]
                + ReleaseEvents(Modifiers, host.accepts, |old(host.trace)| + 1) + [Slept(1000.0)]
    {
      i := currentIndex;
      host.BeginRun(this);
    }

    /** One resumption of start() after an await. A fault (an exception escaping the loop
        body) ends the run with 'error'; otherwise the loop is at index `i`: it waits another
        100 ms while paused and not stopped, ends with 'ready' when the text is done or the
        job stopped, and else types `text[i]` and sleeps the computed delay. Every ending
        runs the `finally` block. */
    method Advance(host: Host, r: real, fault: bool)
      requires host.Valid() && host.running == this
      requires 0.0 <= r < 1.0
      modifies this`i, host`trace, host`isTyping, host`isPaused, host`currentTypingProcess, host`running
      ensures host.Valid()
      ensures fault ==> host.Cleared() && i == old(i) && host.trace == old(host.trace) + [Notified(Error)]
      ensures !fault && old(i < |text| && isPaused && !isStopped) ==>
                && host.running == this && i == old(i) && host.isPaused == old(host.isPaused)
                && host.trace == old(host.trace) + [Slept(100.0)]
      ensures !fault && old(i == |text| || isStopped) ==>
                host.Cleared() && i == old(i) && host.trace == old(host.trace) + [Notified(Ready)]
      ensures !fault && old(i < |text| && !isPaused && !isStopped) ==>
                && host.running == this && i == old(i) + 1 && host.isPaused == old(host.isPaused)
                && host.trace == old(host.trace)
                     + CharacterEvents(text[old(i)], host.accepts, |old(host.trace)|)
                     + [Slept(CalculateDelay(PrevChar(text, old(i)), wpm, temperature, pauseMultiplier, r))]
    {
      ghost var before := host.trace;
      if fault {
        host.Notify(Error);
        host.Finish();
        EndedTrace(before, Error);
      } else if i < |text| && isPaused && !isStopped {
        host.Sleep(100.0);
        RunTraceQuiet(before, host.runFrom, host.isPaused, [Slept(100.0)]);
      } else if i == |text| || isStopped {
        host.Notify(Ready);
        host.Finish();
        EndedTrace(before, Ready);
      } else {
        var c := text[i];
        var prevChar := PrevChar(text, i);
        TypeCharacter(host, c);
        var delay := CalculateDelay(prevChar, wpm, temperature, pauseMultiplier, r);
        host.Sleep(delay);
        i := i + 1;
        ghost var added := CharacterEvents(c, host.accepts, |before|) + [Slept(delay)];
        CharacterEventsNoNotice(c, host.accepts, |before|);
        assert NoNotice(added);
        assert host.trace == before + added;
        RunTraceQuiet(before, host.runFrom, host.isPaused, added);
      }
    }

    /** typeCharacter(char). */
    method TypeCharacter(host: Host, c: char)
      modifies host`trace
      ensures host.trace == old(host.trace) + CharacterEvents(c, host.accepts, |old(host.trace)|)
    {
      var ok := host.Inject(Classify(c));
      if !ok {
        var retried := host.Inject(TypeString([c]));
      }
    }

    /** stop(): only raises the flag; the loop notices it at its next check. */
    method Stop()
      modifies this`isStopped
      ensures isStopped
    {
      isStopped := true;
    }

    /** pause(): the job's and the module's pause flags, and a 'paused' notification. */
    method Pause(host: Host)
      requires host.Valid() && host.currentTypingProcess == this
      modifies this`isPaused, host`isPaused, host`trace
      ensures host.Valid()
      ensures isPaused && host.isPaused && host.trace == old(host.trace) + [Notified(Paused)]
    {
      isPaused := true;
      host.isPaused := true;
      RunTraceToggle(host.trace, host.runFrom, old(host.isPaused), true);
      host.Notify(Paused);
    }

    /** resume(): clears both pause flags, and a 'typing' notification. */
    method Resume(host: Host)
      requires host.Valid() && host.currentTypingProcess == this
      modifies this`isPaused, host`isPaused, host`trace
      ensures host.Valid()
      ensures !isPaused && !host.isPaused && host.trace == old(host.trace) + [Notified(Typing)]
    {
      isPaused := false;
      host.isPaused := false;
      RunTraceToggle(host.trace, host.runFrom, old(host.isPaused), false);
      host.Notify(Typing);
    }

    /** One step of an uninterrupted loop with text left: the next character and its delay. */
    method TypeNext(host: Host, r: real)
      requires host.Valid() && host.running == this && !isPaused && !isStopped && i < |text|
      requires 0.0 <= r < 1.0
      modifies this`i, host`trace, host`isTyping, host`isPaused, host`currentTypingProcess, host`running
      ensures host.Valid() && host.running == this && i == old(i) + 1
      ensures host.trace == old(host.trace)
                + CharacterEvents(text[old(i)], host.accepts, |old(host.trace)|)
                + [Slept(CalculateDelay(PrevChar(text, old(i)), wpm, temperature, pauseMultiplier, r))]
    {
      Advance(host, r, false);
    }

    /** The last step of an uninterrupted loop: the text is done and the run ends. */
    method EndQuietly(host: Host)
      requires host.Valid() && host.running == this && !isPaused && !isStopped && i == |text|
      modifies this`i, host`trace, host`isTyping, host`isPaused, host`currentTypingProcess, host`running
      ensures host.Valid() && host.Cleared() && i == |text|
      ensures host.trace == old(host.trace) + [Notified(Ready)]
    {
      Advance(host, 0.0, false);
    }

    /** start()'s loop run to its end when no hotkey, setter or fault intervenes: the rest
        of the text is typed in order, each character followed by its delay, and the run ends
        with one 'ready'. */
    method RunQuietly(host: Host, rs: seq<real>)
      requires host.Valid() && host.running == this && !isPaused && !isStopped
      requires |rs| == |text|
      requires forall j :: 0 <= j < |rs| ==> 0.0 <= rs[j] < 1.0
      modifies this`i, host`trace, host`isTyping, host`isPaused, host`currentTypingProcess, host`running
      ensures host.Valid() && host.Cleared() && i == |text|
      ensures host.trace == old(host.trace)
                + QuietEvents(text, old(i), RunDelays(text, wpm, temperature, pauseMultiplier, rs),
                              host.accepts, |old(host.trace)|)
                + [Notified(Ready)]
    {
      ghost var t0 := host.trace;
      ghost var ds := RunDelays(text, wpm, temperature, pauseMultiplier, rs);
      ghost var all := QuietEvents(text, i, ds, host.accepts, |t0|);
      while host.running == this
        invariant host.Valid() && i <= |text| && !isPaused && !isStopped
        invariant host.running == this ==> t0 + all == host.trace + QuietEvents(text, i, ds, host.accepts, |host.trace|)
        invariant host.running != this ==> host.Cleared() && i == |text|
        invariant host.running != this ==> host.trace == t0 + all + [Notified(Ready)]
        decreases |text| - i + (if host.running == this then 1 else 0)
      {
        ghost var tBefore := host.trace;
        if i < |text| {
          RunDelaysAt(text, wpm, temperature, pauseMultiplier, rs, i);
          TypeNext(host, rs[i]);
          QuietAdvance(text, i - 1, ds, host.accepts, tBefore, host.trace);
        } else {
          assert QuietEvents(text, i, ds, host.accepts, |tBefore|) == [];
          EndQuietly(host);
        }
      }
    }
  }
}
