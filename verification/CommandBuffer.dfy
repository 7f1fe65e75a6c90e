// The bounded input buffer (command.rs) against a byte-at-a-time automaton.
module CommandBuffers {
  import opened Common

  const COMMAND_BUFFER_SIZE := 4096
  const CAPACITY := 4095
  const NEWLINE: byte := 10

  /** What the command stream means to the dispatcher. */
  datatype BufferEvent = LineOf(bytes: seq<byte>) | Overflow

  // ----- The reference: one byte at a time -----

  /** One byte arrives: a newline ends the line, the 4095th byte of a line without one throws it
      all away and is reported. */
  function Step(buf: seq<byte>, b: byte): (seq<BufferEvent>, seq<byte>) {
    if b == NEWLINE then ([LineOf(buf)], [])
    else if |buf| + 1 >= CAPACITY then ([Overflow], [])
    else ([], buf + [b])
  }

  function Run(buf: seq<byte>, input: seq<byte>): (seq<BufferEvent>, seq<byte>)
    decreases |input|
  {
    if input == [] then ([], buf)
    else
      var (e, mid) := Step(buf, input[0]);
      var (es, end) := Run(mid, input[1..]);
      (e + es, end)
  }

  /** However a stream is cut in two, the events are the same. */
  lemma {:induction false} RunConcat(buf: seq<byte>, x: seq<byte>, y: seq<byte>)
    ensures Run(buf, x + y) == var (ex, mid) := Run(buf, x); var (ey, end) := Run(mid, y); (ex + ey, end)
    decreases |x|
  {
    if x == [] {
      assert x + y == y && [] + Run(buf, y).0 == Run(buf, y).0;
    } else {
      var (e, mid) := Step(buf, x[0]);
      assert (x + y)[1..] == x[1..] + y;
      RunConcat(mid, x[1..], y);
      var (ex, m2) := Run(mid, x[1..]);
      var (ey, end) := Run(m2, y);
      assert e + (ex + ey) == (e + ex) + ey;
    }
  }

  /** A partial line: no newline yet, and room for at least one more byte. */
  predicate Partial(buf: seq<byte>) {
    |buf| < CAPACITY && NEWLINE !in buf
  }

  lemma {:induction false} RunStaysPartial(buf: seq<byte>, input: seq<byte>)
    requires Partial(buf)
    ensures Partial(Run(buf, input).1)
    decreases |input|
  {
    if input != [] {
      var mid := Step(buf, input[0]).1;
      assert Partial(mid);
      RunStaysPartial(mid, input[1..]);
      assert Run(buf, input).1 == Run(mid, input[1..]).1;
    }
  }

  lemma {:induction false} RunCollects(buf: seq<byte>, input: seq<byte>)
    requires NEWLINE !in input && |buf| + |input| < CAPACITY
    ensures Run(buf, input) == ([], buf + input)
    decreases |input|
  {
    if input == [] {
      assert buf + input == buf;
    } else {
      assert Step(buf, input[0]) == ([], buf + [input[0]]);
      RunCollects(buf + [input[0]], input[1..]);
      assert [] + Run(buf + [input[0]], input[1..]).0 == [];
      assert buf + [input[0]] + input[1..] == buf + input;
    }
  }

  lemma RunAfterLine(line: seq<byte>, c: byte, rest: seq<byte>)
    requires NEWLINE !in line && |line| < CAPACITY
    ensures Run([], line + [c] + rest)
            == var (e, mid) := Step(line, c); var (es, end) := Run(mid, rest); (e + es, end)
  {
    RunCollects([], line);
    hide Step;
    assert line + [c] + rest == line + ([c] + rest) && ([c] + rest)[1..] == rest && [] + line == line;
    RunConcat([], line, [c] + rest);
    assert forall x: seq<BufferEvent> :: [] + x == x;
  }

  /** A line of up to 4094 bytes comes through whole, whatever follows it; the 4095th byte of a longer
      one discards it, once, and reading starts afresh. */
  lemma LineOrOverflow(line: seq<byte>, b: byte, rest: seq<byte>)
    requires 10 !in line && |line| <= 4094
    ensures Run([], line + [10] + rest) == ([LineOf(line)] + Run([], rest).0, Run([], rest).1)
    ensures |line| == 4094 && b != 10 ==> Run([], line + [b] + rest) == ([Overflow] + Run([], rest).0, Run([], rest).1)
  {
    RunAfterLine(line, 10, rest);
    RunAfterLine(line, b, rest);
    hide Run;
  }

  // ----- What one call of `take_lines` yields -----

  function FindNewline(s: seq<byte>): (r: nat)
    ensures r <= |s| && NEWLINE !in s[..r]
    ensures r < |s| ==> s[r] == NEWLINE
  {
    if s == [] || s[0] == NEWLINE then 0 else 1 + FindNewline(s[1..])
  }

  /** The terminated lines of a buffer, and what is left behind the last newline. */
  function CutLines(s: seq<byte>): (seq<seq<byte>>, seq<byte>)
    decreases |s|
  {
    var nl := FindNewline(s);
    if nl == |s| then ([], s)
    else
      var (lines, rest) := CutLines(s[nl + 1..]);
      ([s[..nl]] + lines, rest)
  }

  function LineEvents(lines: seq<seq<byte>>): (r: seq<BufferEvent>)
    ensures |r| == |lines|
  {
    seq(|lines|, i requires 0 <= i < |lines| => LineOf(lines[i]))
  }

  /** The events of one call: all lines, then the overflow report. */
  function CallEvents(s: seq<byte>): (seq<BufferEvent>, seq<byte>) {
    var (lines, rest) := CutLines(s);
    if |rest| >= CAPACITY then (LineEvents(lines) + [Overflow], []) else (LineEvents(lines), rest)
  }

  lemma {:induction false} FindsFirstNewline(head: seq<byte>, rest: seq<byte>)
    requires NEWLINE !in head
    ensures FindNewline(head + [NEWLINE] + rest) == |head|
  {
    var s := head + [NEWLINE] + rest;
    if head != [] {
      FindsFirstNewline(head[1..], rest);
      assert s[1..] == head[1..] + [NEWLINE] + rest;
    }
  }

  lemma {:induction false} FindsNoNewline(s: seq<byte>)
    requires NEWLINE !in s
    ensures CutLines(s) == ([], s)
  {
  }

  lemma CutFirstLine(head: seq<byte>, rest: seq<byte>)
    requires NEWLINE !in head
    ensures CutLines(head + [NEWLINE] + rest) == ([head] + CutLines(rest).0, CutLines(rest).1)
  {
    var s := head + [NEWLINE] + rest;
    FindsFirstNewline(head, rest);
    assert s[..|head|] == head && s[|head| + 1..] == rest;
  }

  lemma CallFirstLine(head: seq<byte>, rest: seq<byte>)
    requires NEWLINE !in head
    ensures CallEvents(head + [NEWLINE] + rest) == ([LineOf(head)] + CallEvents(rest).0, CallEvents(rest).1)
  {
    CutFirstLine(head, rest);
    hide CutLines;
    var lines := CutLines(rest).0;
    assert LineEvents([head] + lines) == [LineOf(head)] + LineEvents(lines);
    assert [LineOf(head)] + (LineEvents(lines) + [Overflow]) == LineEvents([head] + lines) + [Overflow];
  }

  lemma CallWithoutNewline(s: seq<byte>)
    requires NEWLINE !in s && |s| <= CAPACITY
    ensures CallEvents(s) == if |s| == CAPACITY then ([Overflow], []) else ([], s)
  {
    FindsNoNewline(s);
    assert LineEvents([]) == [] && LineEvents([]) + [Overflow] == [Overflow];
  }

  /** On a partial line extended by what one read may bring, a call of `take_lines` yields exactly
      what the automaton yields byte by byte. */
  lemma {:induction false} CallIsRun(tail: seq<byte>, data: seq<byte>)
    requires Partial(tail) && |tail| + |data| <= CAPACITY
    ensures CallEvents(tail + data) == Run(tail, data)
    decreases |data|
  {
    hide CallEvents;
    if data == [] {
      assert tail + data == tail;
      CallWithoutNewline(tail);
    } else if data[0] == NEWLINE {
      assert tail + data == tail + [NEWLINE] + data[1..];
      CallFirstLine(tail, data[1..]);
      CallIsRun([], data[1..]);
      assert [] + data[1..] == data[1..];
    } else if |tail| + 1 >= CAPACITY {
      assert data == [data[0]] && data[1..] == [];
      assert [Overflow] + Run([], data[1..]).0 == [Overflow];
      CallWithoutNewline(tail + data);
    } else {
      CallIsRun(tail + [data[0]], data[1..]);
      assert tail + [data[0]] + data[1..] == tail + data;
      assert [] + Run(tail + [data[0]], data[1..]).0 == Run(tail + [data[0]], data[1..]).0;
    }
  }

  // ----- The buffer -----

  class CommandBuffer {
    var buf: seq<byte>

    constructor ()
      ensures buf == []
    {
      buf := [];
    }

    function SpaceRemaining(): int
      reads this
    {
      COMMAND_BUFFER_SIZE - 1 - |buf|
    }

    method Push(data: seq<byte>)
      requires |data| <= SpaceRemaining()
      modifies this
      ensures buf == old(buf) + data
    {
      buf := buf + data;
    }

    /** `take_lines`: drain every terminated line, then check for a full buffer. */
    method TakeLines() returns (lines: seq<seq<byte>>, overflow: bool)
      modifies this
      ensures lines == CutLines(old(buf)).0
      ensures overflow == (|CutLines(old(buf)).1| >= CAPACITY)
      ensures buf == CallEvents(old(buf)).1
    {
      lines := [];
      var nl := FindNewline(buf);
      while nl < |buf|
        invariant nl == FindNewline(buf)
        invariant lines + CutLines(buf).0 == CutLines(old(buf)).0 && CutLines(buf).1 == CutLines(old(buf)).1
        decreases |buf|
      {
        lines := lines + [buf[..nl]];
        buf := buf[nl + 1..];
        nl := FindNewline(buf);
      }
      overflow := |buf| >= COMMAND_BUFFER_SIZE - 1;
      if overflow {
        buf := [];
      }
    }
  }

  /** Any way of cutting a stream into reads gives the same events and the same leftover. */
  function RunReads(buf: seq<byte>, reads_: seq<seq<byte>>): (seq<BufferEvent>, seq<byte>)
    decreases |reads_|
  {
    if reads_ == [] then ([], buf)
    else
      var (e, mid) := CallEvents(buf + reads_[0]);
      var (es, end) := RunReads(mid, reads_[1..]);
      (e + es, end)
  }

  function Joined(reads_: seq<seq<byte>>): seq<byte> {
    if reads_ == [] then [] else reads_[0] + Joined(reads_[1..])
  }

  /** Each read fits the space that is left when it happens. */
  predicate Fits(buf: seq<byte>, reads_: seq<seq<byte>>)
    decreases |reads_|
  {
    reads_ == [] || (|buf| + |reads_[0]| <= CAPACITY && Fits(CallEvents(buf + reads_[0]).1, reads_[1..]))
  }

  lemma {:induction false} FragmentationIsInvisible(buf: seq<byte>, reads_: seq<seq<byte>>)
    requires Partial(buf) && Fits(buf, reads_)
    ensures RunReads(buf, reads_) == Run(buf, Joined(reads_))
    ensures Partial(RunReads(buf, reads_).1)
    decreases |reads_|
  {
    if reads_ != [] {
      CallIsRun(buf, reads_[0]);
      RunStaysPartial(buf, reads_[0]);
      FragmentationIsInvisible(CallEvents(buf + reads_[0]).1, reads_[1..]);
      RunConcat(buf, reads_[0], Joined(reads_[1..]));
    }
  }
}
