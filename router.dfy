/** The decision procedure of UI.handle_key (ranger/gui/ui.py:124-156) over
    abstract collaborators: the widget tree's press, the key buffer's view of
    its pending keys (failure, done, command) and command execution, which
    either completes or raises. What happens is recorded in a trace. The
    method that does it step by step is Ui.UI.HandleKey. */
module Router {
  import opened Wrappers

  /** The callable a key binding carries (cmd.function). */
  datatype Action = Action(name: string)

  /** Running an action either completes or raises an exception. */
  datatype Outcome = Completed | Raised(error: string)

  /** A resolved command; action is None when the binding has no function. */
  datatype Command = Command(action: Option<Action>)

  /** What the key buffer reports for the keys it holds. */
  datatype BufferView = BufferView(failure: bool, done: bool, command: Option<Command>)

  /** The calls handle_key makes on its collaborators, in the order made. */
  datatype Effect =
    | Hint                  // self.hint()
    | KeyAppend(key: int)   // self.env.key_append(key)
    | Press(key: int)       // DisplayableContainer.press(self, key)
    | HideBookmarks         // self.fm.hide_bookmarks()
    | Run(action: Action)   // cmd.function(...)
    | Notify(error: string) // self.fm.notify(error)
    | Clear                 // kbuf.clear()

  /** The collaborators, seen through the narrow interface handle_key uses.
      press and execute see everything that has happened so far. */
  datatype Collaborators = Collaborators(
    hasHint: bool,
    press: (seq<Effect>, int) -> bool,
    keymap: seq<int> -> BufferView,
    execute: (Action, seq<Effect>) -> Outcome)

  /** The state handle_key changes: the key buffer's pending keys, the trace
      of effects and env.cmd. */
  datatype RouteState = RouteState(keys: seq<int>, trace: seq<Effect>, cmd: Option<Command>)

  /** What handle_key does after the widget tree has seen the key: the key
      buffer's pending keys, the effects added and env.cmd. */
  datatype Step = Step(keys: seq<int>, effects: seq<Effect>, cmd: Option<Command>)

  /** The effects before the widget tree sees the key: the optional hint,
      then the key appended to env. */
  function Announce(c: Collaborators, key: int): seq<Effect>
  {
    (if c.hasHint then [Hint] else []) + [KeyAppend(key)]
  }

  /** How a raised exception is reported: one notification, or none. */
  function Report(o: Outcome): seq<Effect>
  {
    match o
    case Completed => []
    case Raised(e) => [Notify(e)]
  }

  /** The branches of handle_key after press (ranger/gui/ui.py:132-156):
      the buffer either keeps the key or is emptied, and env.cmd either stays
      or becomes the command the buffer resolved. */
  function Dispatch(c: Collaborators, s: RouteState, key: int): (r: Step)
    ensures r.keys == s.keys + [key] || r.keys == []
    ensures r.cmd == s.cmd || r.cmd == c.keymap(s.keys + [key]).command
  {
    var keys := s.keys + [key];
    if c.press(s.trace + Announce(c, key), key) then Step(keys, [], s.cmd)
    else
      var view := c.keymap(keys);
      if view.failure then Step([], [HideBookmarks, Clear], s.cmd)
      else if view.command.None? then Step(keys, [HideBookmarks], s.cmd)
      else match view.command.value.action
        case None => Step([], [HideBookmarks, Clear], view.command)
        case Some(a) =>
          var before := s.trace + Announce(c, key) + [Press(key), HideBookmarks];
          Step(if view.done then [] else keys,
               [HideBookmarks, Run(a)] + Report(c.execute(a, before)) + (if view.done then [Clear] else []),
               view.command)
  }

  /** After press, handle_key neither appends, presses nor hints again. */
  lemma DispatchFacts(c: Collaborators, s: RouteState, key: int)
    ensures forall e :: e in Dispatch(c, s, key).effects ==> !e.KeyAppend? && !e.Press? && !e.Hint?
  {
  }

  /** One handle_key(key). */
  function RouteKey(c: Collaborators, s: RouteState, key: int): (r: RouteState)
    ensures s.trace <= r.trace
    ensures r.keys == s.keys + [key] || r.keys == []
  {
    DispatchFacts(c, s, key);
    var st := Dispatch(c, s, key);
    RouteState(st.keys, s.trace + Announce(c, key) + [Press(key)] + st.effects, st.cmd)
  }

  /** handle_key applied to each key in turn. The buffer never holds more
      than it held before plus the keys handled. */
  function RouteAll(c: Collaborators, s: RouteState, keys: seq<int>): (r: RouteState)
    ensures |r.keys| <= |s.keys| + |keys|
  {
    if keys == [] then s
    else RouteKey(c, RouteAll(c, s, keys[..|keys| - 1]), keys[|keys| - 1])
  }

  /** Handling one key through RouteAll is handling it through RouteKey. */
  lemma RouteAllSingle(c: Collaborators, s: RouteState, key: int)
    ensures RouteAll(c, s, [key]) == RouteKey(c, s, key)
  {
    assert [key][..0] == [];
  }

  /** Handling keys in two batches is handling them all at once. */
  lemma {:induction false} RouteAllConcat(c: Collaborators, s: RouteState, a: seq<int>, b: seq<int>)
    ensures RouteAll(c, s, a + b) == RouteAll(c, RouteAll(c, s, a), b)
    decreases |b|
  {
    if b == [] {
      assert a + b == a;
    } else {
      assert (a + b)[..|a + b| - 1] == a + b[..|b| - 1];
      RouteAllConcat(c, s, a, b[..|b| - 1]);
    }
  }

  /** The effects one call added. */
  function Added(s: RouteState, r: RouteState): seq<Effect>
    requires s.trace <= r.trace
  {
    r.trace[|s.trace|..]
  }

  /** The keys handed to env.key_append, in order. */
  function AppendedKeys(trace: seq<Effect>): seq<int>
  {
    if trace == [] then []
    else
      var last := trace[|trace| - 1];
      AppendedKeys(trace[..|trace| - 1]) + (if last.KeyAppend? then [last.key] else [])
  }

  /** Number of Notify effects. */
  function Notifications(trace: seq<Effect>): nat
  {
    if trace == [] then 0
    else Notifications(trace[..|trace| - 1]) + (if trace[|trace| - 1].Notify? then 1 else 0)
  }

  /** Number of Run effects. */
  function Runs(trace: seq<Effect>): nat
  {
    if trace == [] then 0
    else Runs(trace[..|trace| - 1]) + (if trace[|trace| - 1].Run? then 1 else 0)
  }

  lemma {:induction false} AppendedKeysConcat(a: seq<Effect>, b: seq<Effect>)
    ensures AppendedKeys(a + b) == AppendedKeys(a) + AppendedKeys(b)
    decreases |b|
  {
    if b == [] {
      assert a + b == a;
    } else {
      assert (a + b)[..|a + b| - 1] == a + b[..|b| - 1];
      AppendedKeysConcat(a, b[..|b| - 1]);
    }
  }

  lemma AddedByRouteKey(c: Collaborators, s: RouteState, key: int)
    ensures Added(s, RouteKey(c, s, key)) == Announce(c, key) + [Press(key)] + Dispatch(c, s, key).effects
  {
    var x := Announce(c, key) + [Press(key)] + Dispatch(c, s, key).effects;
    assert s.trace + Announce(c, key) + [Press(key)] + Dispatch(c, s, key).effects == s.trace + x;
  }

  /** The hint, if there is one, comes first; then the key is appended and
      only then offered to the widget tree; the key is appended exactly once. */
  lemma RouteKeyOrder(c: Collaborators, s: RouteState, key: int)
    ensures var d := Added(s, RouteKey(c, s, key));
      var h := if c.hasHint then 1 else 0;
      && |d| >= h + 2
      && (c.hasHint ==> d[0] == Hint)
      && d[h] == KeyAppend(key) && d[h + 1] == Press(key)
      && AppendedKeys(d) == [key]
  {
    AddedByRouteKey(c, s, key);
    DispatchFacts(c, s, key);
    AnnounceOrder(c, key, Dispatch(c, s, key).effects);
  }

  /** The order facts of RouteKeyOrder for any effects that append no key. */
  lemma AnnounceOrder(c: Collaborators, key: int, effects: seq<Effect>)
    requires forall e :: e in effects ==> !e.KeyAppend?
    ensures var d := Announce(c, key) + [Press(key)] + effects;
      var h := if c.hasHint then 1 else 0;
      && |d| >= h + 2
      && (c.hasHint ==> d[0] == Hint)
      && d[h] == KeyAppend(key) && d[h + 1] == Press(key)
      && AppendedKeys(d) == [key]
  {
    var hint: seq<Effect> := if c.hasHint then [Hint] else [];
    var rest := [Press(key)] + effects;
    assert Announce(c, key) + [Press(key)] + effects == hint + [KeyAppend(key)] + rest;
    AppendedKeysConcat(hint + [KeyAppend(key)], rest);
    AppendedKeysConcat(hint, [KeyAppend(key)]);
    NoAppendedKeys(hint);
    NoAppendedKeys(rest);
    assert AppendedKeys([KeyAppend(key)]) == [key] by {
      assert [KeyAppend(key)][..0] == [];
    }
  }

  lemma {:induction false} NoAppendedKeys(t: seq<Effect>)
    requires forall i :: 0 <= i < |t| ==> !t[i].KeyAppend?
    ensures AppendedKeys(t) == []
    decreases |t|
  {
    if t != [] {
      NoAppendedKeys(t[..|t| - 1]);
    }
  }

  lemma {:induction false} NoRuns(t: seq<Effect>)
    requires forall i :: 0 <= i < |t| ==> !t[i].Run?
    ensures Runs(t) == 0
    decreases |t|
  {
    if t != [] {
      NoRuns(t[..|t| - 1]);
    }
  }

  lemma {:induction false} NoNotifications(t: seq<Effect>)
    requires forall i :: 0 <= i < |t| ==> !t[i].Notify?
    ensures Notifications(t) == 0
    decreases |t|
  {
    if t != [] {
      NoNotifications(t[..|t| - 1]);
    }
  }

  lemma {:induction false} CountsConcat(a: seq<Effect>, b: seq<Effect>)
    ensures Runs(a + b) == Runs(a) + Runs(b)
    ensures Notifications(a + b) == Notifications(a) + Notifications(b)
    decreases |b|
  {
    if b == [] {
      assert a + b == a;
    } else {
      assert (a + b)[..|a + b| - 1] == a + b[..|b| - 1];
      CountsConcat(a, b[..|b| - 1]);
    }
  }

  /** A key the widget tree consumes stops there: no bookmarks hidden, no
      command run, the key buffer keeps the key and env.cmd is unchanged. */
  lemma RouteKeyConsumed(c: Collaborators, s: RouteState, key: int)
    requires c.press(s.trace + Announce(c, key), key)
    ensures var r := RouteKey(c, s, key);
      && r.keys == s.keys + [key] && r.cmd == s.cmd
      && HideBookmarks !in Added(s, r) && Clear !in Added(s, r)
      && Runs(Added(s, r)) == 0
  {
    AddedByRouteKey(c, s, key);
    NoRuns(Added(s, RouteKey(c, s, key)));
  }

  /** A key the widget tree does not consume always hides the bookmarks; a
      failed buffer is then cleared and nothing runs. */
  lemma RouteKeyFailure(c: Collaborators, s: RouteState, key: int)
    requires !c.press(s.trace + Announce(c, key), key)
    requires c.keymap(s.keys + [key]).failure
    ensures var r := RouteKey(c, s, key);
      && r.keys == [] && r.cmd == s.cmd
      && HideBookmarks in Added(s, r) && Clear in Added(s, r)
      && Runs(Added(s, r)) == 0
  {
    AddedByRouteKey(c, s, key);
    var d := Added(s, RouteKey(c, s, key));
    assert d[|d| - 2] == HideBookmarks && d[|d| - 1] == Clear;
    NoRuns(d);
  }

  /** With no command resolved yet the buffer keeps the key and waits. */
  lemma RouteKeyPending(c: Collaborators, s: RouteState, key: int)
    requires !c.press(s.trace + Announce(c, key), key)
    requires !c.keymap(s.keys + [key]).failure && c.keymap(s.keys + [key]).command.None?
    ensures var r := RouteKey(c, s, key);
      && r.keys == s.keys + [key] && r.cmd == s.cmd
      && HideBookmarks in Added(s, r) && Clear !in Added(s, r)
      && Runs(Added(s, r)) == 0
  {
    assert Dispatch(c, s, key) == Step(s.keys + [key], [HideBookmarks], s.cmd);
    AddedByRouteKey(c, s, key);
    var d := Added(s, RouteKey(c, s, key));
    assert d == Announce(c, key) + [Press(key), HideBookmarks];
    assert d[|d| - 1] == HideBookmarks;
    NoRuns(d);
  }

  /** A resolved command with a function runs exactly once; it is reported
      exactly once if it raises and not at all otherwise; the buffer is cleared
      exactly when it reports done; env.cmd is set to the command. */
  lemma RouteKeyRun(c: Collaborators, s: RouteState, key: int, a: Action)
    requires !c.press(s.trace + Announce(c, key), key)
    requires !c.keymap(s.keys + [key]).failure
    requires c.keymap(s.keys + [key]).command == Some(Command(Some(a)))
    ensures var r := RouteKey(c, s, key);
      var view := c.keymap(s.keys + [key]);
      var before := s.trace + Announce(c, key) + [Press(key), HideBookmarks];
      && Runs(Added(s, r)) == 1 && Run(a) in Added(s, r)
      && Notifications(Added(s, r)) == (if c.execute(a, before).Raised? then 1 else 0)
      && (Clear in Added(s, r) <==> view.done)
      && r.keys == (if view.done then [] else s.keys + [key])
      && r.cmd == Some(Command(Some(a)))
  {
    var view := c.keymap(s.keys + [key]);
    var before := s.trace + Announce(c, key) + [Press(key), HideBookmarks];
    var o := c.execute(a, before);
    var front := Announce(c, key) + [Press(key), HideBookmarks];
    assert Dispatch(c, s, key) == Step(if view.done then [] else s.keys + [key],
      [HideBookmarks, Run(a)] + Report(o) + (if view.done then [Clear] else []), view.command);
    AddedByRouteKey(c, s, key);
    assert Added(s, RouteKey(c, s, key)) == front + [Run(a)] + Report(o) + (if view.done then [Clear] else []);
    CommandEffects(front, a, o, view.done);
  }

  /** The effects of running a command after effects that hold no run, no
      notification and no clear: one run, one notification exactly when it
      raised, and a clear exactly when the buffer is done. */
  lemma CommandEffects(front: seq<Effect>, a: Action, o: Outcome, done: bool)
    requires forall e :: e in front ==> !e.Run? && !e.Notify? && e != Clear
    ensures var d := front + [Run(a)] + Report(o) + (if done then [Clear] else []);
      && Runs(d) == 1 && Notifications(d) == (if o.Raised? then 1 else 0)
      && Run(a) in d && (Clear in d <==> done)
  {
    var report := Report(o);
    var tail: seq<Effect> := if done then [Clear] else [];
    var x1 := front + [Run(a)];
    assert Runs(x1) == 1 && Notifications(x1) == 0 by {
      CountsConcat(front, [Run(a)]);
      NoRuns(front);
      NoNotifications(front);
      CountsSingle(Run(a));
    }
    var x2 := x1 + report;
    assert Runs(x2) == 1 && Notifications(x2) == (if o.Raised? then 1 else 0) by {
      CountsConcat(x1, report);
      if o.Raised? {
        CountsSingle(Notify(o.error));
      }
    }
    assert Runs(x2 + tail) == 1 && Notifications(x2 + tail) == Notifications(x2) by {
      CountsConcat(x2, tail);
      if done {
        CountsSingle(Clear);
      }
    }
    assert (x2 + tail)[|front|] == Run(a);
    assert Clear !in x2;
    if done {
      assert (x2 + tail)[|x2|] == Clear;
    }
  }

  lemma CountsSingle(e: Effect)
    ensures Runs([e]) == (if e.Run? then 1 else 0)
    ensures Notifications([e]) == (if e.Notify? then 1 else 0)
  {
    assert [e][..0] == [];
  }

  /** A resolved command without a function always clears the buffer and
      runs nothing. */
  lemma RouteKeyNoFunction(c: Collaborators, s: RouteState, key: int)
    requires !c.press(s.trace + Announce(c, key), key)
    requires !c.keymap(s.keys + [key]).failure
    requires c.keymap(s.keys + [key]).command == Some(Command(None))
    ensures var r := RouteKey(c, s, key);
      && r.keys == [] && Clear in Added(s, r) && Runs(Added(s, r)) == 0
      && r.cmd == Some(Command(None))
  {
    AddedByRouteKey(c, s, key);
    var d := Added(s, RouteKey(c, s, key));
    assert d[|d| - 1] == Clear;
    NoRuns(d);
  }

  /** One handle_key adds exactly its key to what env.key_append has seen. */
  lemma RouteKeyDelivers(c: Collaborators, s: RouteState, key: int)
    ensures AppendedKeys(RouteKey(c, s, key).trace) == AppendedKeys(s.trace) + [key]
  {
    var r := RouteKey(c, s, key);
    RouteKeyOrder(c, s, key);
    assert r.trace == s.trace + Added(s, r);
    AppendedKeysConcat(s.trace, Added(s, r));
  }

  /** Handling a sequence of keys only adds to the trace. */
  lemma {:induction false} RouteAllExtends(c: Collaborators, s: RouteState, keys: seq<int>)
    ensures s.trace <= RouteAll(c, s, keys).trace
    decreases |keys|
  {
    if keys != [] {
      RouteAllExtends(c, s, keys[..|keys| - 1]);
    }
  }

  /** Handling a sequence of keys hands exactly those keys, in order, to
      env.key_append. */
  lemma {:induction false} RouteAllDelivers(c: Collaborators, s: RouteState, keys: seq<int>)
    ensures AppendedKeys(RouteAll(c, s, keys).trace) == AppendedKeys(s.trace) + keys
    decreases |keys|
  {
    if keys != [] {
      var init := keys[..|keys| - 1];
      var last := keys[|keys| - 1];
      var mid := RouteAll(c, s, init);
      RouteAllDelivers(c, s, init);
      RouteKeyDelivers(c, mid, last);
      assert keys == init + [last];
    }
  }
}
