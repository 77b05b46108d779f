/** The UI class of ranger/gui/ui.py with the terminal replaced by abstract
    state: a queue of input codes, the input-timing mode, the nodelay flag and
    a few device flags. The widget tree, key buffer and command execution are
    the collaborators of module Router; the window title comes from module
    Title; what one handle_input takes from the queue is Input.ReadInput. */
module Ui {
  import opened Wrappers
  import opened Title
  import opened Input
  import opened Router

  /** How curses waits for a key: cooked (line) mode as after initscr,
      cbreak, or halfdelay with a timeout in tenths of a second. A halfdelay
      timeout takes precedence over the window's nodelay flag. */
  datatype Timing = Cooked | Cbreak | HalfDelay(tenths: nat)

  /** The settings the core reads. shortenTitle is 0 when off. */
  datatype Settings = Settings(showCursor: bool, flushInput: bool, updateTitle: bool, shortenTitle: int)

  /** The session and render steps, in the order they happen. */
  datatype Phase =
    | MouseReset             // curses.ungetmouse(0, 0, 0, 0, 0)
    | SetupHook              // self.setup()
    | SizeUpdate             // self.update_size()
    | Poked                  // self.poke()
    | Drawn                  // DisplayableContainer.draw(self)
    | TitleWritten(text: string) // sys.stdout.write(title sequence)
    | Finalized              // self.finalize()

  /** How many times the setup hook ran. */
  function SetupCount(log: seq<Phase>): nat
  {
    if log == [] then 0
    else SetupCount(log[..|log| - 1]) + (if log[|log| - 1] == SetupHook then 1 else 0)
  }

  lemma {:induction false} SetupCountConcat(a: seq<Phase>, b: seq<Phase>)
    ensures SetupCount(a + b) == SetupCount(a) + SetupCount(b)
    decreases |b|
  {
    if b == [] {
      assert a + b == a;
    } else {
      assert (a + b)[..|a + b| - 1] == a + b[..|b| - 1];
      SetupCountConcat(a, b[..|b| - 1]);
    }
  }

  /** The steps one initialize adds hold a setup exactly when the latch was
      not yet set. */
  lemma InitializeSetupCount(before: seq<Phase>, wasSetUp: bool)
    ensures SetupCount(before + [MouseReset] + (if wasSetUp then [] else [SetupHook]) + [SizeUpdate])
         == SetupCount(before) + (if wasSetUp then 0 else 1)
  {
    var hook: seq<Phase> := if wasSetUp then [] else [SetupHook];
    SetupCountConcat(before + [MouseReset] + hook, [SizeUpdate]);
    SetupCountConcat(before + [MouseReset], hook);
    SetupCountConcat(before, [MouseReset]);
    assert [MouseReset][..0] == [] && [SizeUpdate][..0] == [] && [SetupHook][..0] == [];
  }

  /** What a handle_key call could observe of the terminal when it was
      made: whether reads were non-blocking (load mode) and how many codes
      were still queued. */
  datatype KeyCall = KeyCall(nonBlocking: bool, queued: nat)

  /** n handle_key calls made in the same terminal state. */
  function SameCalls(n: nat, call: KeyCall): (r: seq<KeyCall>)
    ensures |r| == n && forall i :: 0 <= i < n ==> r[i] == call
  {
    seq(n, _ => call)
  }

  lemma SameCallsStep(n: nat, call: KeyCall)
    ensures SameCalls(n + 1, call) == SameCalls(n, call) + [call]
  {
  }

  /** The modes of n reads made in load mode: none of them waits. */
  function NonBlockingReads(n: nat): (r: seq<bool>)
    ensures |r| == n && forall i :: 0 <= i < n ==> r[i]
  {
    seq(n, _ => true)
  }

  lemma NonBlockingReadsStep(n: nat)
    ensures NonBlockingReads(n + 1) == NonBlockingReads(n) + [true]
  {
  }

  /** The title write draw emits, if any. */
  function TitleSteps(title: Option<string>): seq<Phase>
  {
    match title
    case None => []
    case Some(t) => [TitleWritten(t)]
  }

  /** The steps of one redraw: poke, draw with the title it emits, finalize.
      A frame holds render steps only: no setup, size update or mouse reset. */
  function Frame(title: Option<string>): (r: seq<Phase>)
    ensures SetupHook !in r && SizeUpdate !in r && MouseReset !in r
  {
    [Poked, Drawn] + TitleSteps(title) + [Finalized]
  }

  /** A frame pokes, draws and finalizes in that order, with the title, if
      any, written right after drawing. */
  lemma FrameOrder(title: Option<string>)
    ensures var f := Frame(title);
      && f[0] == Poked && f[1] == Drawn && f[|f| - 1] == Finalized
      && (title.Some? <==> |f| == 4) && (title.Some? ==> f[2] == TitleWritten(title.value))
  {
    match title {
      case None =>
        assert Frame(title) == [Poked, Drawn, Finalized];
      case Some(t) =>
        assert Frame(title) == [Poked, Drawn, TitleWritten(t), Finalized];
    }
  }

  /** A frame pokes, draws and finalizes exactly once each: only at the
      positions FrameOrder names. */
  lemma FrameOnce(title: Option<string>)
    ensures var f := Frame(title);
      forall i :: 0 <= i < |f| ==>
        (f[i] == Poked <==> i == 0) && (f[i] == Drawn <==> i == 1) && (f[i] == Finalized <==> i == |f| - 1)
  {
    match title {
      case None =>
        assert Frame(title) == [Poked, Drawn, Finalized];
      case Some(t) =>
        assert Frame(title) == [Poked, Drawn, TitleWritten(t), Finalized];
    }
  }

  lemma {:induction false} NoSetup(log: seq<Phase>)
    requires SetupHook !in log
    ensures SetupCount(log) == 0
    decreases |log|
  {
    if log != [] {
      assert log[|log| - 1] in log;
      NoSetup(log[..|log| - 1]);
    }
  }

  /** A frame never runs the setup hook. */
  lemma FrameSetupFree(title: Option<string>)
    ensures SetupCount(Frame(title)) == 0
  {
    assert SetupHook !in Frame(title);
    NoSetup(Frame(title));
  }

  class UI {
    /** The collaborators handle_key talks to. */
    const collab: Collaborators
    /** _draw_title: $TERM is one of TERMINALS_WITH_TITLE. */
    const drawTitle: bool
    /** Whether curs_set succeeds on this terminal (it may raise, and is ignored). */
    const cursorControl: bool

    var settings: Settings
    var cwd: string
    var homePath: string

    var isSetUp: bool
    var loadMode: bool

    var timing: Timing
    var nodelay: bool
    var echo: bool
    var keypad: bool
    var cursorVisible: bool
    var mouseReporting: bool

    /** Codes waiting to be read; one entry per getch call made, true when
        that read did not wait (NonBlocking held); how many times input was
        flushed. */
    var input: seq<int>
    var readModes: seq<bool>
    var flushes: nat

    /** The terminal state at each handle_key call, in order. */
    ghost var keyCalls: seq<KeyCall>

    /** The key buffer's pending keys, the effects of handle_key, env.cmd. */
    var keys: seq<int>
    var trace: seq<Effect>
    var envCmd: Option<Command>

    /** The session and render steps. */
    var log: seq<Phase>

    /** Reads do not wait: cbreak mode with nodelay set. */
    predicate NonBlocking()
      reads this`timing, this`nodelay
    {
      timing == Cbreak && nodelay
    }

    /** Reads are non-blocking exactly in load mode, and setup has run once
        if the latch is set and never otherwise. */
    ghost predicate Valid()
      reads this`timing, this`nodelay, this`loadMode, this`log, this`isSetUp
    {
      && NonBlocking() == loadMode
      && SetupCount(log) == (if isSetUp then 1 else 0)
    }

    /** What handle_key works on. */
    function State(): RouteState
      reads this`keys, this`trace, this`envCmd
    {
      RouteState(keys, trace, envCmd)
    }

    /** __init__: the title flag from $TERM, a cleared key buffer, and curses
        as initscr leaves it. */
    constructor (collab: Collaborators, term: string, cursorControl: bool, settings: Settings,
                 cwd: string, homePath: string, input: seq<int>)
      ensures Valid()
      ensures this.collab == collab && drawTitle == TitleCapable(term) && this.cursorControl == cursorControl
      ensures this.settings == settings && this.cwd == cwd && this.homePath == homePath
      ensures !isSetUp && !loadMode && timing == Cooked && !nodelay && echo && !mouseReporting
      ensures this.input == input && readModes == [] && flushes == 0
      ensures keys == [] && trace == [] && envCmd == None && log == [] && keyCalls == []
    {
      keyCalls := [];
      this.collab := collab;
      drawTitle := TitleCapable(term);
      this.cursorControl := cursorControl;
      this.settings := settings;
      this.cwd := cwd;
      this.homePath := homePath;
      isSetUp := false;
      loadMode := false;
      timing := Cooked;
      nodelay := false;
      echo := true;
      keypad := false;
      cursorVisible := true;
      mouseReporting := false;
      this.input := input;
      readModes := [];
      flushes := 0;
      keys := [];
      trace := [];
      envCmd := None;
      log := [];
    }

    /** initialize: curses modes, the stale-mouse workaround, setup on the
        first call only, then update_size on every call. */
    method Initialize()
      requires Valid()
      modifies this`keypad, this`loadMode, this`timing, this`echo, this`cursorVisible
      modifies this`mouseReporting, this`log, this`isSetUp
      ensures Valid()
      ensures isSetUp && !loadMode && SetupCount(log) == 1
      ensures log == old(log) + [MouseReset] + (if old(isSetUp) then [] else [SetupHook]) + [SizeUpdate]
      ensures timing == HalfDelay(20) && nodelay == old(nodelay) && !echo && keypad && mouseReporting
      ensures cursorVisible == (if cursorControl then settings.showCursor else old(cursorVisible))
    {
      loadMode := false;
      ConfigureTerminal();
      SetUpOnce();
      UpdateSize();
      assert log == old(log) + [MouseReset] + (if old(isSetUp) then [] else [SetupHook]) + [SizeUpdate];
      InitializeSetupCount(old(log), old(isSetUp));
      assert SetupCount(log) == 1 && !NonBlocking();
    }

    /** The is_set_up latch: the setup hook runs on the first call only. */
    method SetUpOnce()
      modifies this`isSetUp, this`log
      ensures isSetUp
      ensures log == old(log) + (if old(isSetUp) then [] else [SetupHook])
    {
      if !isSetUp {
        isSetUp := true;
        Setup();
      }
    }

    /** The curses calls of initialize: keypad on, cbreak then a two-second
        halfdelay, echo off, the cursor as show_cursor asks where the terminal
        allows it, mouse reporting on, and a blank mouse event pushed back so
        that a stale one is not misread after a suspend. */
    method ConfigureTerminal()
      modifies this`keypad, this`timing, this`echo, this`cursorVisible, this`mouseReporting, this`log
      ensures timing == HalfDelay(20) && !echo && keypad && mouseReporting
      ensures cursorVisible == (if cursorControl then settings.showCursor else old(cursorVisible))
      ensures log == old(log) + [MouseReset]
    {
      keypad := true;
      timing := Cbreak;
      echo := false;
      timing := HalfDelay(20);
      if cursorControl {
        cursorVisible := settings.showCursor;
      }
      mouseReporting := true;
      log := log + [MouseReset];
    }

    /** The setup hook, which subclasses override. */
    method Setup()
      modifies this`log
      ensures log == old(log) + [SetupHook]
    {
      log := log + [SetupHook];
    }

    /** update_size: publishing the terminal size is outside this model. */
    method UpdateSize()
      modifies this`log
      ensures log == old(log) + [SizeUpdate]
    {
      log := log + [SizeUpdate];
    }

    /** set_load_mode: nothing happens when the mode is already the one asked
        for; otherwise load mode turns on cbreak with nodelay, and off turns
        nodelay off and restores the two-second halfdelay. */
    method SetLoadMode(b: bool)
      modifies this`loadMode, this`timing, this`nodelay
      ensures loadMode == b
      ensures b == old(loadMode) ==> timing == old(timing) && nodelay == old(nodelay)
      ensures b != old(loadMode) ==> NonBlocking() == b
      ensures b != old(loadMode) ==> if b then timing == Cbreak && nodelay else timing == HalfDelay(20) && !nodelay
      ensures old(NonBlocking() == loadMode) ==> NonBlocking() == loadMode
    {
      if b != loadMode {
        loadMode := b;
        if b {
          timing := Cbreak;
          nodelay := true;
        } else {
          nodelay := false;
          timing := HalfDelay(20);
        }
      }
    }

    /** win.getch: the next queued code, or NoKey when none is ready; the
        read is recorded with the mode it was made in. */
    method GetCh() returns (code: int)
      modifies this`input, this`readModes
      ensures code == Head(old(input)) && input == Tail(old(input))
      ensures readModes == old(readModes) + [NonBlocking()]
    {
      readModes := readModes + [NonBlocking()];
      if input == [] {
        code := NoKey;
      } else {
        code := input[0];
        input := input[1..];
      }
    }

    /** curses.flushinp: discards everything queued. */
    method FlushInput()
      modifies this`input, this`flushes
      ensures input == [] && flushes == old(flushes) + 1
    {
      input := [];
      flushes := flushes + 1;
    }

    /** kbuf.clear() */
    method ClearBuffer()
      modifies this`keys, this`trace
      ensures keys == [] && trace == old(trace) + [Clear]
    {
      keys := [];
      trace := trace + [Clear];
    }

    /** handle_key, as Router.RouteKey describes it. */
    method HandleKey(key: int)
      modifies this`keys, this`trace, this`envCmd, this`keyCalls
      ensures State() == RouteKey(collab, old(State()), key)
      ensures keyCalls == old(keyCalls) + [KeyCall(NonBlocking(), |input|)]
    {
      keyCalls := keyCalls + [KeyCall(NonBlocking(), |input|)];
      ghost var s := State();
      if collab.hasHint {
        trace := trace + [Hint];
      }
      trace := trace + [KeyAppend(key)];
      keys := keys + [key];
      assert trace == s.trace + Announce(collab, key);
      var consumed := collab.press(trace, key);
      trace := trace + [Press(key)];
      if consumed {
        assert Dispatch(collab, s, key) == Step(keys, [], s.cmd);
        assert trace == s.trace + Announce(collab, key) + [Press(key)] + [];
      } else {
        Resolve(s, key);
      }
    }

    /** The rest of handle_key when the widget tree did not consume the key:
        bookmarks hidden, then the key buffer's verdict acted on. */
    method Resolve(ghost s: RouteState, key: int)
      requires keys == s.keys + [key] && envCmd == s.cmd
      requires trace == s.trace + Announce(collab, key) + [Press(key)]
      requires !collab.press(s.trace + Announce(collab, key), key)
      modifies this`keys, this`trace, this`envCmd
      ensures State() == RouteKey(collab, s, key)
    {
      ghost var st := Dispatch(collab, s, key);
      ghost var pressed := trace;
      var view := collab.keymap(keys);
      var cmd := view.command;
      trace := trace + [HideBookmarks];
      if view.failure {
        ClearBuffer();
        assert st == Step([], [HideBookmarks, Clear], s.cmd);
        return;
      } else if cmd.None? {
        assert st == Step(keys, [HideBookmarks], s.cmd);
        return;
      }
      envCmd := cmd;
      match cmd.value.action {
        case Some(a) =>
          assert trace == s.trace + Announce(collab, key) + [Press(key), HideBookmarks];
          ghost var outcome := collab.execute(a, trace);
          RunCommand(a, view.done);
          assert st.effects == [HideBookmarks, Run(a)] + Report(outcome) + (if view.done then [Clear] else []);
          assert trace == pressed + st.effects;
        case None =>
          ClearBuffer();
          assert st == Step([], [HideBookmarks, Clear], cmd);
      }
    }

    /** cmd.function(...) with an exception reported through fm.notify,
        then kbuf.clear() if the buffer is done. */
    method RunCommand(a: Action, done: bool)
      modifies this`keys, this`trace
      ensures trace == old(trace) + [Run(a)] + Report(collab.execute(a, old(trace))) + (if done then [Clear] else [])
      ensures keys == if done then [] else old(keys)
    {
      var outcome := collab.execute(a, trace);
      trace := trace + [Run(a)];
      if outcome.Raised? {
        trace := trace + [Notify(outcome.error)];
      }
      if done {
        ClearBuffer();
      }
    }

    /** handle_input: one code; after a lead code, load mode on, exactly
        Lookahead more reads, every code found replayed through handle_key,
        and load mode put back; otherwise an optional flush and the code
        handled if it is positive. */
    method HandleInput()
      requires Valid()
      modifies this`input, this`readModes, this`flushes, this`keys, this`trace, this`envCmd, this`keyCalls
      modifies this`loadMode, this`timing, this`nodelay
      ensures Valid()
      ensures input == ReadInput(old(input), settings.flushInput).rest
      ensures keyCalls == old(keyCalls) + SameCalls(|ReadInput(old(input), settings.flushInput).keys|,
        KeyCall(IsLead(Head(old(input))) || old(NonBlocking()), |ReadInput(old(input), settings.flushInput).rest|))
      ensures |readModes| == |old(readModes)| + ReadInput(old(input), settings.flushInput).readCount
      ensures readModes == old(readModes) + [old(NonBlocking())] +
        (if IsLead(Head(old(input))) then NonBlockingReads(Lookahead) else [])
      ensures flushes == old(flushes) + ReadInput(old(input), settings.flushInput).flushes
      ensures State() == RouteAll(collab, old(State()), ReadInput(old(input), settings.flushInput).keys)
      ensures loadMode == old(loadMode) && NonBlocking() == old(NonBlocking())
    {
      ghost var q := input;
      var key := GetCh();
      if IsLead(key) {
        HandleLead(key, q);
      } else {
        HandleOther(key, q);
      }
    }

    /** The other branch of handle_input: flush if flushinput is set, then
        handle the code as a key if it is positive. q is the queue as it was
        before handle_input read key from it. */
    method HandleOther(key: int, ghost q: seq<int>)
      requires Valid()
      requires key == Head(q) && !IsLead(key) && input == Tail(q)
      modifies this`input, this`flushes, this`keys, this`trace, this`envCmd, this`keyCalls
      ensures Valid() && unchanged(this`loadMode, this`timing, this`nodelay)
      ensures input == ReadInput(q, settings.flushInput).rest
      ensures keyCalls == old(keyCalls) + SameCalls(|ReadInput(q, settings.flushInput).keys|,
        KeyCall(NonBlocking(), |ReadInput(q, settings.flushInput).rest|))
      ensures flushes == old(flushes) + ReadInput(q, settings.flushInput).flushes
      ensures State() == RouteAll(collab, old(State()), ReadInput(q, settings.flushInput).keys)
    {
      ghost var s0 := State();
      if settings.flushInput {
        FlushInput();
      }
      if key > 0 {
        HandleKey(key);
        RouteAllSingle(collab, s0, key);
        assert SameCalls(1, KeyCall(NonBlocking(), |input|)) == [KeyCall(NonBlocking(), |input|)];
      }
    }

    /** The lead-code branch of handle_input: load mode forced on, the
        lookahead, every code found replayed through handle_key after the
        lead, and the previous load mode put back. q is the queue as it was
        before handle_input read key from it. */
    method HandleLead(key: int, ghost q: seq<int>)
      requires Valid()
      requires q != [] && key == q[0] && IsLead(key) && input == q[1..]
      modifies this`input, this`readModes, this`keys, this`trace, this`envCmd, this`keyCalls
      modifies this`loadMode, this`timing, this`nodelay
      ensures Valid() && loadMode == old(loadMode)
      ensures input == ReadInput(q, settings.flushInput).rest
      ensures keyCalls == old(keyCalls) + SameCalls(|ReadInput(q, settings.flushInput).keys|,
        KeyCall(true, |ReadInput(q, settings.flushInput).rest|))
      ensures readModes == old(readModes) + NonBlockingReads(Lookahead)
      ensures State() == RouteAll(collab, old(State()), ReadInput(q, settings.flushInput).keys)
    {
      var previous := loadMode;
      SetLoadMode(true);
      LookaheadReplay(key, q);
      SetLoadMode(previous);
    }

    /** The reads after a lead code, made in load mode, and the replay of
        what they found, ending where ReadInput says the queue and the keys
        end. */
    method LookaheadReplay(key: int, ghost q: seq<int>)
      requires NonBlocking()
      requires q != [] && key == q[0] && IsLead(key) && input == q[1..]
      modifies this`input, this`readModes, this`keys, this`trace, this`envCmd, this`keyCalls
      ensures input == ReadInput(q, settings.flushInput).rest
      ensures keyCalls == old(keyCalls) + SameCalls(|ReadInput(q, settings.flushInput).keys|,
        KeyCall(true, |ReadInput(q, settings.flushInput).rest|))
      ensures readModes == old(readModes) + NonBlockingReads(Lookahead)
      ensures State() == RouteAll(collab, old(State()), ReadInput(q, settings.flushInput).keys)
    {
      var collected := Probe();
      ReadInputAfterLead(q, settings.flushInput, collected, input);
      Replay([key] + collected);
    }

    /** The lookahead loop of handle_input: exactly Lookahead reads, none of
        which waits, keeping every code that is not NoKey, in order. */
    method Probe() returns (collected: seq<int>)
      requires NonBlocking()
      modifies this`input, this`readModes
      ensures var taken := if |old(input)| < Lookahead then |old(input)| else Lookahead;
        && collected == DropNoKey(old(input)[..taken])
        && input == old(input)[taken..]
        && readModes == old(readModes) + NonBlockingReads(Lookahead)
    {
      ghost var q := input;
      collected := [];
      for n := 0 to Lookahead
        invariant var taken := if |q| < n then |q| else n;
          && input == q[taken..]
          && collected == DropNoKey(q[..taken])
          && readModes == old(readModes) + NonBlockingReads(n)
      {
        ghost var taken := if |q| < n then |q| else n;
        var code := GetCh();
        NonBlockingReadsStep(n);
        if code != NoKey {
          collected := collected + [code];
        }
        if taken < |q| {
          DropNoKeyStep(q, taken);
        }
      }
    }

    /** The replay loop of handle_input: handle_key for each key in turn,
        all in the terminal state the loop starts in. */
    method Replay(codes: seq<int>)
      modifies this`keys, this`trace, this`envCmd, this`keyCalls
      ensures State() == RouteAll(collab, old(State()), codes)
      ensures keyCalls == old(keyCalls) + SameCalls(|codes|, KeyCall(NonBlocking(), |input|))
    {
      ghost var s0 := State();
      for i := 0 to |codes|
        invariant State() == RouteAll(collab, s0, codes[..i])
        invariant keyCalls == old(keyCalls) + SameCalls(i, KeyCall(NonBlocking(), |input|))
      {
        HandleKey(codes[i]);
        SameCallsStep(i, KeyCall(NonBlocking(), |input|));
        assert codes[..i + 1][..i] == codes[..i];
      }
      assert codes[..|codes|] == codes;
    }

    /** redraw: poke, draw, finalize. */
    method Redraw()
      requires Valid()
      modifies this`log
      ensures Valid()
      ensures log == old(log) + Frame(WindowTitle(drawTitle, settings.updateTitle, cwd, homePath, settings.shortenTitle))
    {
      ghost var title := WindowTitle(drawTitle, settings.updateTitle, cwd, homePath, settings.shortenTitle);
      Poke();
      Draw();
      Finalize();
      assert log == old(log) + Frame(title);
      FrameSetupFree(title);
      SetupCountConcat(old(log), Frame(title));
    }

    method Poke()
      modifies this`log
      ensures log == old(log) + [Poked]
    {
      log := log + [Poked];
    }

    /** draw: the widgets, then the title when the terminal supports one and
        update_title is set. */
    method Draw()
      modifies this`log
      ensures log == old(log) + [Drawn] +
        TitleSteps(WindowTitle(drawTitle, settings.updateTitle, cwd, homePath, settings.shortenTitle))
    {
      log := log + [Drawn];
      if drawTitle && settings.updateTitle {
        var path := TitlePath(cwd, homePath, settings.shortenTitle);
        log := log + [TitleWritten(TitleSequence(path))];
      }
    }

    method Finalize()
      modifies this`log
      ensures log == old(log) + [Finalized]
    {
      log := log + [Finalized];
    }
  }
}
