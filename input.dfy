/** What one call of UI.handle_input (ranger/gui/ui.py:158-175) takes from
    the terminal's queue of input codes and hands on as keys, stated as a
    function of the queue. The method that does it step by step is
    Ui.UI.HandleInput. */
module Input {
  /** What curses' getch returns when no code is ready. */
  const NoKey: int := -1

  /** Escape, which also opens an Alt chord. */
  const Escape: int := 27

  /** 0xC3, a UTF-8 lead byte (section 3 of RFC 3629). */
  const Utf8Lead: int := 195

  /** Number of extra reads made after a lead code. */
  const Lookahead: nat := 8

  predicate IsLead(code: int)
  {
    code == Escape || code == Utf8Lead
  }

  /** One getch on the queue: its head, or NoKey once it is empty (both a
      non-blocking read and a half-delay read that times out give NoKey). */
  function Head(queue: seq<int>): int
  {
    if queue == [] then NoKey else queue[0]
  }

  function Tail(queue: seq<int>): seq<int>
  {
    if queue == [] then [] else queue[1..]
  }

  /** The codes, in order, without the NoKey entries. */
  function DropNoKey(codes: seq<int>): (r: seq<int>)
    ensures |r| <= |codes|
    ensures NoKey !in r
  {
    if codes == [] then []
    else DropNoKey(codes[..|codes| - 1]) + (if codes[|codes| - 1] == NoKey then [] else [codes[|codes| - 1]])
  }

  /** Dropping NoKey loses no other code: each occurs as often as before. */
  lemma {:induction false} DropNoKeyKeeps(codes: seq<int>, c: int)
    requires c != NoKey
    ensures multiset(DropNoKey(codes))[c] == multiset(codes)[c]
    decreases |codes|
  {
    if codes != [] {
      var init := codes[..|codes| - 1];
      DropNoKeyKeeps(init, c);
      assert codes == init + [codes[|codes| - 1]];
    }
  }

  /** Dropping NoKey works piecewise: the codes of a longer window are those
      of its first part followed by those of the rest, in order. */
  lemma {:induction false} DropNoKeyConcat(a: seq<int>, b: seq<int>)
    ensures DropNoKey(a + b) == DropNoKey(a) + DropNoKey(b)
    decreases |b|
  {
    if b == [] {
      assert a + b == a;
    } else {
      assert (a + b)[..|a + b| - 1] == a + b[..|b| - 1];
      DropNoKeyConcat(a, b[..|b| - 1]);
    }
  }

  /** Taking one more code of a queue keeps it unless it is NoKey. */
  lemma DropNoKeyStep(queue: seq<int>, n: nat)
    requires n < |queue|
    ensures DropNoKey(queue[..n + 1]) == DropNoKey(queue[..n]) + (if queue[n] == NoKey then [] else [queue[n]])
  {
    assert queue[..n + 1][..n] == queue[..n];
  }

  /** The result of one handle_input: the keys handed to handle_key, what
      is left queued, how many getch calls were made (readCount) and how many times the
      queue was flushed. */
  datatype Intake = Intake(keys: seq<int>, rest: seq<int>, readCount: nat, flushes: nat)

  /** A lead code is followed by exactly Lookahead reads; what they find
      (NoKey dropped) is replayed after it. Any other code causes a flush when
      flushinput is set and is a key only when positive. */
  function ReadInput(queue: seq<int>, flushInput: bool): (r: Intake)
    ensures 1 <= r.readCount && |r.keys| <= r.readCount
    ensures NoKey !in r.keys
    ensures |r.rest| <= |queue| && r.rest == queue[|queue| - |r.rest|..]
  {
    var first := Head(queue);
    if IsLead(first) then
      var taken := if |queue| < 1 + Lookahead then |queue| else 1 + Lookahead;
      Intake([first] + DropNoKey(queue[1..taken]), queue[taken..], 1 + Lookahead, 0)
    else
      Intake(if first > 0 then [first] else [],
             if flushInput then [] else Tail(queue),
             1,
             if flushInput then 1 else 0)
  }

  /** The lead case read as "the lead, then what Lookahead reads find in the
      rest of the queue", the way handle_input's loop takes it: collected is
      what those reads kept and rest what they left. */
  lemma ReadInputAfterLead(queue: seq<int>, flushInput: bool, collected: seq<int>, rest: seq<int>)
    requires queue != [] && IsLead(queue[0])
    requires var more := queue[1..];
      var t := if |more| < Lookahead then |more| else Lookahead;
      collected == DropNoKey(more[..t]) && rest == more[t..]
    ensures ReadInput(queue, flushInput).keys == [queue[0]] + collected
    ensures ReadInput(queue, flushInput).rest == rest
  {
    var more := queue[1..];
    var t := if |more| < Lookahead then |more| else Lookahead;
    var taken := if |queue| < 1 + Lookahead then |queue| else 1 + Lookahead;
    assert ReadInput(queue, flushInput) == Intake([queue[0]] + DropNoKey(queue[1..taken]), queue[taken..], 1 + Lookahead, 0);
    assert taken == t + 1;
    assert more[..t] == queue[1..taken];
    assert more[t..] == queue[taken..];
  }

  /** After a lead code: nine reads in all; the lead comes first; between one
      and nine keys, none of them NoKey; and exactly the codes that were
      queued among the next eight, in order, are consumed. */
  lemma ReadInputLead(queue: seq<int>, flushInput: bool)
    requires queue != [] && IsLead(queue[0])
    ensures var r := ReadInput(queue, flushInput);
      && r.readCount == 1 + Lookahead && r.flushes == 0
      && 1 <= |r.keys| <= 1 + Lookahead
      && r.keys[0] == queue[0]
      && NoKey !in r.keys
      && queue == queue[..|queue| - |r.rest|] + r.rest
      && |queue| - |r.rest| == (if |queue| < 1 + Lookahead then |queue| else 1 + Lookahead)
  {
    var taken := if |queue| < 1 + Lookahead then |queue| else 1 + Lookahead;
    var dropped := DropNoKey(queue[1..taken]);
    var r := ReadInput(queue, flushInput);
    assert r == Intake([queue[0]] + dropped, queue[taken..], 1 + Lookahead, 0);
    assert |dropped| <= taken - 1;
    assert queue == queue[..taken] + queue[taken..];
    assert r.keys[1..] == dropped;
  }

  /** Any other first code: one read; a key only if positive; the rest of the
      queue is discarded exactly when flushinput is set. */
  lemma ReadInputOther(queue: seq<int>, flushInput: bool)
    requires queue == [] || !IsLead(queue[0])
    ensures var r := ReadInput(queue, flushInput);
      && r.readCount == 1
      && (|r.keys| == 1 <==> queue != [] && queue[0] > 0)
      && (r.keys != [] ==> r.keys == [queue[0]])
      && |r.keys| <= 1
      && (flushInput ==> r.rest == [] && r.flushes == 1)
      && (!flushInput ==> r.rest == Tail(queue) && r.flushes == 0)
  {
  }

  /** A lone Escape gives exactly one key, Escape. */
  lemma LoneEscape(flushInput: bool)
    ensures ReadInput([Escape], flushInput).keys == [Escape]
  {
    assert [Escape][1..1] == [];
  }

  /** Escape followed by 'x' gives two keys, in order. */
  lemma AltChord(x: int, flushInput: bool)
    requires x != NoKey
    ensures ReadInput([Escape, x], flushInput).keys == [Escape, x]
  {
    var q := [Escape, x];
    assert q[1..2] == [x];
    assert [x][..0] == [];
  }

  /** However much is queued after a lead code, at most eight more codes are
      taken and the rest stays queued. */
  lemma BoundedLookahead(queue: seq<int>, flushInput: bool)
    requires |queue| > 1 + Lookahead && IsLead(queue[0])
    ensures |ReadInput(queue, flushInput).keys| <= 1 + Lookahead
    ensures ReadInput(queue, flushInput).rest == queue[1 + Lookahead..]
  {
  }
}
