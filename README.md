# ranger's curses UI core, modelled in Dafny

This project models the decision logic of ranger's `UI` class (`ranger/gui/ui.py`). The terminal is replaced by abstract state:

- a queue of input codes;
- the curses input-timing mode (cooked, cbreak, or halfdelay with a timeout);
- the window's `nodelay` flag;
- a handful of device flags.

The widget tree, the key buffer and command execution become opaque collaborators. Only the narrow interface that `handle_key` uses is modelled.

The project has five modules:

- `Wrappers` (`wrappers.dfy`) holds the `Option` type.
- `Title` (`title.dfy`) is the window title that `draw` writes. The current directory has the home directory collapsed to `~`. It is optionally cut down to its last N components using the semantics of Python's `str.rsplit(sep, N)` and `sep.join`. It is then wrapped in the xterm "set window title" control sequence, `ESC ] 2 ; ranger:<path> BEL` (Operating System Command 2 in XTerm Control Sequences).
- `Input` (`input.dfy`) is a reference function, `ReadInput`, for what one `handle_input` takes from the queue and hands on as keys. A lead code is 27 (Escape/Alt) or 195 (0xC3, a UTF-8 lead byte, section 3 of RFC 3629). A lead code is followed by exactly eight more reads. What those reads find, with -1 dropped, is replayed after the lead.
- `Router` (`router.dfy`) is a reference function, `RouteKey`, for `handle_key`. It records which of hint, key_append, press, hide_bookmarks, run, notify and clear happened, in order, in a trace. `RouteAll` is `RouteKey` folded over a sequence of keys.
- `Ui` (`ui.dfy`) is class `UI` with the source's fields, updated in place by methods. Each method is proved against the reference functions above:
  - `HandleKey` against `RouteKey`;
  - `HandleInput` against `ReadInput` and `RouteAll`;
  - `Redraw` against `Frame` and `WindowTitle`.

  The class invariant `Valid` states two things. Reads are non-blocking exactly in load mode. The setup hook has run once when the `is_set_up` latch is set, and never otherwise.

Non-blocking reads mean cbreak mode with `nodelay` set. In ncurses a halfdelay timeout takes precedence over `nodelay`. That is why `initialize`, which resets `load_mode` without calling `nodelay(0)` but sets `halfdelay(20)`, still keeps the invariant.

The model follows the code where prose descriptions of ranger's input handling differ from it. After a lead code, `handle_input` replays the keys through `handle_key` while load mode is still on, and only then restores the previous load mode (`ranger/gui/ui.py:168-170`). It does not restore load mode first. A ghost record of the terminal state at each `handle_key` call makes this order part of the contracts.

## Model

| member | source | states |
|---|---|---|
| Title.LastIndex | ranger/gui/ui.py:213 | the position rsplit splits at: a separator, with no separator after it; None exactly when there is none |
| Title.RSplit | ranger/gui/ui.py:213 | rsplit always yields at least one part; RSplitJoin, RSplitTail and RSplitCount pin the parts down exactly |
| Title.Join | ranger/gui/ui.py:215 | with one separator between each two parts, the joined string is at least as long as the number of parts less one; JoinFront and CountJoin characterise it |
| Title.RSplitJoin | ranger/gui/ui.py:213 | joining rsplit's parts with the separator gives the string back |
| Title.RSplitTail | ranger/gui/ui.py:213-214 | only the first part of rsplit can still hold a separator |
| Title.RSplitCount | ranger/gui/ui.py:213-214 | rsplit splits at every separator when maxsplit is negative, else at min(count, maxsplit) of them; the remaining separators stay in the first part |
| Title.CollapseHome | ranger/gui/ui.py:209-211 | the title path is cwd itself, or "~" followed by what is left of cwd once home is taken off its front |
| Title.CollapseHomeSpec | ranger/gui/ui.py:210-211 | the collapse happens exactly when home is a character prefix of cwd: the result is then "~" and the rest of cwd; otherwise cwd is unchanged |
| Title.CollapseHomeRoundTrip | ranger/gui/ui.py:209-211 | a cwd that does not itself begin with "~" is recovered by expanding "~" to home again |
| Title.CollapseIsCharacterPrefix | ranger/gui/ui.py:210-211 | the prefix test is on characters: /home/alice2/x under /home/alice becomes ~2/x |
| Title.ShortenTitle | ranger/gui/ui.py:212-215 | the shortened path is the path itself or a proper suffix of it; ShortenTitleSpec says exactly which |
| Title.ShortenTitleSpec | ranger/gui/ui.py:212-215 | the path is shortened exactly when N > 0 and it has more than N separators; the result is then the part after a separator of the path and holds exactly N-1 separators (the last N components); otherwise the path is unchanged |
| Title.ShortenTitleIdempotent | ranger/gui/ui.py:212-215 | shortening an already shortened path changes nothing |
| Title.ShortenExample | ranger/gui/ui.py:209-215 | /home/alice/a/b/c/d under home /home/alice with N = 2 gives c/d |
| Title.SplitExample | ranger/gui/ui.py:213 | "~/a/b/c/d".rsplit("/", 2) is ["~/a/b", "c", "d"] |
| Title.TitleSequence | ranger/gui/ui.py:216 | the path sits between the fixed prefix ESC "]2;ranger:" and the terminator BEL; TitleRoundTrip shows it can be read back |
| Title.ParseTitle | ranger/gui/ui.py:216 | reading a control sequence back: a path it returns re-encodes to exactly that sequence |
| Title.TitleRoundTrip | ranger/gui/ui.py:216 | the sequence written is exactly ESC "]2;ranger:" + path + BEL, and the path can be read back from it |
| Title.WindowTitle | ranger/gui/ui.py:208-216 | a title is written exactly when the terminal type is one of TERMINALS_WITH_TITLE and update_title is set, and it encodes the collapsed, shortened path |
| Title.TitleCapable | ranger/gui/ui.py:26-28 | a terminal takes a title only if $TERM is one of TERMINALS_WITH_TITLE, all of them variants of xterm, rxvt, aterm, Eterm or screen |
| Input.DropNoKey | ranger/gui/ui.py:164-167 | the codes kept from the lookahead contain no -1 and are no more than were read |
| Input.DropNoKeyKeeps | ranger/gui/ui.py:166-167 | dropping -1 loses no other code: each occurs as often as it was read |
| Input.DropNoKeyConcat | ranger/gui/ui.py:164-167 | the codes kept from a window of reads are those kept from its first part followed by those kept from the rest, in order |
| Input.ReadInput | ranger/gui/ui.py:158-175 | at least one read; no more keys than reads; no key is -1; what is left queued is a suffix of the queue; ReadInputLead and ReadInputOther give each branch exactly |
| Input.ReadInputLead | ranger/gui/ui.py:158-170 | after a lead code: nine reads in all, no flush; between 1 and 9 keys, the lead first, none of them -1; exactly the next eight queued codes, or fewer if the queue is shorter, are consumed |
| Input.ReadInputOther | ranger/gui/ui.py:171-175 | any other first code: one read; a single key exactly when the code is positive; the queue is flushed exactly when flushinput is set |
| Input.LoneEscape | ranger/gui/ui.py:159-169 | a lone Escape gives the single key Escape |
| Input.AltChord | ranger/gui/ui.py:159-169 | Escape followed by a code gives both keys, in order |
| Input.BoundedLookahead | ranger/gui/ui.py:164-167 | however much is queued, at most eight codes after the lead are taken and the rest stays queued |
| Router.Dispatch | ranger/gui/ui.py:132-156 | after press, the buffer either keeps the key or is emptied, and env.cmd either stays or becomes the command the buffer resolved; the RouteKey branch lemmas give each branch exactly |
| Router.DispatchFacts | ranger/gui/ui.py:132-156 | after press, nothing is appended, pressed or hinted again |
| Router.RouteKey | ranger/gui/ui.py:124-156 | handle_key only adds to the trace; the buffer either gains the key or is cleared |
| Router.RouteAll | ranger/gui/ui.py:168-169 | replaying keys leaves the buffer no longer than it was plus the keys replayed |
| Router.RouteAllConcat | ranger/gui/ui.py:168-169 | replaying keys in two batches ends where replaying them all at once does |
| Router.RouteKeyOrder | ranger/gui/ui.py:127-133 | the hint, if any, comes first; the key is appended to env before the widget tree sees it; it is appended exactly once |
| Router.AnnounceOrder | ranger/gui/ui.py:127-132 | the same order facts for any branch effects that append no key |
| Router.RouteKeyConsumed | ranger/gui/ui.py:132-133 | a key the widget tree consumes: no hide_bookmarks, no clear, no command run; the buffer keeps the key and env.cmd is unchanged |
| Router.RouteKeyFailure | ranger/gui/ui.py:135-142 | a failed buffer: bookmarks hidden, buffer cleared, nothing run, env.cmd unchanged |
| Router.RouteKeyPending | ranger/gui/ui.py:135-144 | no command resolved: bookmarks hidden, the buffer keeps the key and is not cleared, nothing run, env.cmd unchanged |
| Router.RouteKeyRun | ranger/gui/ui.py:146-154 | a command with a function runs exactly once and is reported exactly once if it raises and not at all otherwise; the buffer is cleared exactly when done; env.cmd is the command |
| Router.CommandEffects | ranger/gui/ui.py:148-154 | the counting behind RouteKeyRun: one run, one notification exactly on an exception, a clear exactly when done |
| Router.RouteKeyNoFunction | ranger/gui/ui.py:155-156 | a command without a function: the buffer is always cleared, nothing runs, env.cmd is the command |
| Router.RouteKeyDelivers | ranger/gui/ui.py:130 | one handle_key hands exactly its key to env.key_append |
| Router.RouteAllExtends | ranger/gui/ui.py:168-169 | replaying keys only adds to the trace |
| Router.RouteAllDelivers | ranger/gui/ui.py:168-169 | replaying a sequence of keys hands exactly those keys, in order, to env.key_append |
| Ui.SetupCountConcat | ranger/gui/ui.py:80-82 | setup runs add up over consecutive steps |
| Ui.InitializeSetupCount | ranger/gui/ui.py:78-83 | the steps of one initialize contain a setup exactly when the latch was not yet set |
| Ui.Frame | ranger/gui/ui.py:183-187 | a redraw's steps are render steps only: no setup, size update or mouse reset |
| Ui.FrameOrder | ranger/gui/ui.py:183-187 | a redraw pokes, then draws, then finalizes; the title, if any, is written right after drawing |
| Ui.FrameOnce | ranger/gui/ui.py:183-187 | a redraw pokes, draws and finalizes exactly once each |
| Ui.NoSetup | ranger/gui/ui.py:177-182 | steps without the setup hook count no setup |
| Ui.FrameSetupFree | ranger/gui/ui.py:183-187 | a redraw never runs the setup hook |
| Ui.UI.constructor | ranger/gui/ui.py:34-51 | the title flag comes from $TERM; the key buffer is cleared; curses is as initscr leaves it (cooked mode, echo on, no nodelay); no reads and no handle_key calls made yet; not set up and not in load mode |
| Ui.UI.Initialize | ranger/gui/ui.py:53-83 | load mode off; cbreak then halfdelay(20); echo off; keypad on; the cursor as show_cursor asks where the terminal allows it; mouse on; the stale-mouse reset; setup only on the first call; update_size on every call; the invariant is kept |
| Ui.UI.SetUpOnce | ranger/gui/ui.py:80-82 | the is_set_up latch: the hook runs only if the latch was not yet set, and the latch is set afterwards |
| Ui.UI.ConfigureTerminal | ranger/gui/ui.py:56-78 | the curses calls of initialize, as flags and a mouse-reset step |
| Ui.UI.Setup | ranger/gui/ui.py:177-181 | the setup hook is one recorded step |
| Ui.UI.UpdateSize | ranger/gui/ui.py:197-202 | update_size is one recorded step |
| Ui.UI.SetLoadMode | ranger/gui/ui.py:97-108 | afterwards load_mode is b; when b already equals load_mode, no terminal mode changes; after a real change, reads are non-blocking exactly when load mode is on; the invariant is kept |
| Ui.UI.GetCh | ranger/gui/ui.py:159 | one read: the head of the queue, or -1 when it is empty; the read is recorded with whether it waited |
| Ui.UI.FlushInput | ranger/gui/ui.py:172-173 | flushinp discards everything queued |
| Ui.UI.ClearBuffer | ranger/gui/ui.py:141 | kbuf.clear() empties the pending keys and is recorded |
| Ui.UI.HandleKey | ranger/gui/ui.py:124-156 | the new key buffer, trace and env.cmd are exactly what RouteKey gives for the old ones; each call is recorded with whether reads were non-blocking and how many codes were still queued |
| Ui.UI.Resolve | ranger/gui/ui.py:135-156 | the part of handle_key after an unconsumed press ends where RouteKey ends |
| Ui.UI.RunCommand | ranger/gui/ui.py:148-154 | the run, the notification of an exception, then a clear exactly when done |
| Ui.UI.HandleInput | ranger/gui/ui.py:158-175 | the queue left, the number of reads and flushes, and the keys handed to handle_key are exactly what ReadInput gives; the first read is made in the mode in force, and after a lead code the eight lookahead reads are all non-blocking; load mode and blocking are as before; the invariant is kept; every handle_key call sees the queue exactly as handle_input leaves it, and, after a lead code, load mode on |
| Ui.UI.HandleOther | ranger/gui/ui.py:171-175 | flush exactly when flushinput is set; handle_key once for a positive code and never otherwise; when flushinput is set the flush comes first, so handle_key sees an empty queue |
| Ui.UI.HandleLead | ranger/gui/ui.py:160-170 | load mode is switched on before the eight more reads, so none of them waits; the lead and every code read that is not -1 replayed in order; load mode restored to its previous value; the invariant is kept; every replayed handle_key runs while load mode is still on, before it is restored |
| Ui.UI.LookaheadReplay | ranger/gui/ui.py:164-169 | called in load mode; the lookahead reads, none of which waits, and the replay end where ReadInput and RouteAll say; the replayed handle_key calls are all made in load mode |
| Ui.UI.Probe | ranger/gui/ui.py:164-167 | called in load mode: exactly eight reads, none of which waits, keeping every code that is not -1, in order |
| Ui.UI.Replay | ranger/gui/ui.py:168-169 | handle_key for each collected key in turn; all in the terminal state the loop starts in |
| Ui.UI.Redraw | ranger/gui/ui.py:183-187 | the steps added are exactly one Frame (poke, draw with its title, finalize); the invariant is kept |
| Ui.UI.Poke | ranger/gui/ui.py:185 | poke is one recorded step |
| Ui.UI.Draw | ranger/gui/ui.py:204-217 | the widgets are drawn, then the title sequence is written exactly when WindowTitle gives one |
| Ui.UI.Finalize | ranger/gui/ui.py:219-222 | finalize is one recorded step |

## Left out

- Two curses device calls are modelled only as state: `mousemask` is the `mouseReporting` flag, and `ungetmouse` is the `MouseReset` step of the log. `curs_set` raising is a constructor parameter, `cursorControl`.
- `leaveok`, `start_color`, `use_default_colors`, `mouseinterval`, `touchwin` and both `refresh` calls are not modelled at all. They change only how the terminal is painted, not the state this model tracks.
- `suspend`, `destroy` and `redraw_window` are device plumbing with no decision logic. `update_size` is a recorded step; the terminal size it publishes is not modelled.
- `handle_mouse` is not modelled. It depends on `curses.getmouse` and on `MouseEvent`, which is not part of this model.
- The internals of `DisplayableContainer` (press, draw, finalize, poke), of the keymap and key buffer, and of `CommandArgs` are not modelled. They are opaque collaborators: `press` and command execution are functions of the trace so far, and the buffer's failure, done and command are a function of its pending keys.
- `env.key_append` lives outside this file. It is modelled as appending the key to the buffer's pending keys. Any special treatment it gives to particular keys is not captured.
- Reading `$TERM` and setting `ESCDELAY` are environment access. The terminal type is a constructor parameter.
- How long a waiting read waits is not modelled. Each read is recorded only as waiting or not, and an empty queue gives -1 either way, as a timed-out halfdelay read does.
- The actual write to standard output is not modelled. The title sequence is recorded as a step instead.
- Ui.UI.HandleLead assumes that `handle_key` raises nothing except the command failures it catches itself. In the source, the load-mode restore after the replay is not in a `finally` block, so any other exception would leave load mode on.
- The identity test `getkey is not -1` is modelled as `!= -1`, which is what it does for CPython's cached small integers.
- Ui.UI.SetLoadMode takes a `bool`. The truthiness conversion `bool(boolean)` of arbitrary Python values is not modelled.
- Commands run by `handle_key` cannot change load mode, the settings or the current directory in this model. The settings are constant during every call.
- Commands run by `handle_key` change neither the key buffer nor `env.cmd` in this model. The source reads `kbuf.done` after the command has run. Here it is read from the buffer's view taken before the run, which gives the same value only because the command cannot reach the buffer.
- Settings: `shorten_title` is an integer, where 0 means off and `True` means 1. Other Python values are not modelled.

