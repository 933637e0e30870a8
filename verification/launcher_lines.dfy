/** The launcher's line assembly: blocks of output of any size, lines in a fixed buffer.
 */
module LauncherLines {

  type Byte = b: int | 0 <= b < 256

  const NEWLINE: Byte := 10
  const RETURN: Byte := 13
  const LINE_SIZE: nat := 4096
  const BLOCK_SIZE: nat := 1024

  /** The bytes after the last newline. */
  function Tail(s: seq<Byte>): seq<Byte> {
    if s == [] then []
    else if s[|s| - 1] == NEWLINE then []
    else Tail(s[..|s| - 1]) + [s[|s| - 1]]
  }

  /** The lines ended by a newline, without it. */
  function Lines(s: seq<Byte>): seq<seq<Byte>> {
    if s == [] then []
    else if s[|s| - 1] == NEWLINE then Lines(s[..|s| - 1]) + [Tail(s[..|s| - 1])]
    else Lines(s[..|s| - 1])
  }

  function Terminated(lines: seq<seq<Byte>>): seq<Byte> {
    if lines == [] then [] else Terminated(lines[..|lines| - 1]) + lines[|lines| - 1] + [NEWLINE]
  }

  predicate NoNewline(line: seq<Byte>) {
    forall i | 0 <= i < |line| :: line[i] != NEWLINE
  }

  /** Splitting loses nothing and cuts at every newline. */
  lemma {:induction false} LinesExact(s: seq<Byte>)
    ensures s == Terminated(Lines(s)) + Tail(s)
    ensures NoNewline(Tail(s)) && forall i | 0 <= i < |Lines(s)| :: NoNewline(Lines(s)[i])
  {
    if s != [] {
      var init, last := s[..|s| - 1], s[|s| - 1];
      LinesExact(init);
      assert s == init + [last];
      if last == NEWLINE {
        assert Lines(s)[..|Lines(s)| - 1] == Lines(init);
        assert s == Terminated(Lines(init)) + Tail(init) + [NEWLINE];
      } else {
        assert s == Terminated(Lines(init)) + (Tail(init) + [last]);
      }
    }
  }

  /** And there is only one way to do that. */
  lemma {:induction false} LinesUnique(lines: seq<seq<Byte>>, tail: seq<Byte>)
    requires NoNewline(tail) && forall i | 0 <= i < |lines| :: NoNewline(lines[i])
    ensures Lines(Terminated(lines) + tail) == lines && Tail(Terminated(lines) + tail) == tail
    decreases |lines|, |tail|
  {
    var s := Terminated(lines) + tail;
    if tail != [] {
      assert s[..|s| - 1] == Terminated(lines) + tail[..|tail| - 1];
      LinesUnique(lines, tail[..|tail| - 1]);
      assert tail == tail[..|tail| - 1] + [tail[|tail| - 1]];
    } else if lines != [] {
      var init, last := lines[..|lines| - 1], lines[|lines| - 1];
      assert s == Terminated(init) + last + [NEWLINE];
      assert s[..|s| - 1] == Terminated(init) + last;
      LinesUnique(init, last);
      assert lines == init + [last];
    }
  }

  /** A line as it is handed on: at most one carriage return is taken off its end. */
  function Trimmed(line: seq<Byte>): seq<Byte> {
    if line != [] && line[|line| - 1] == RETURN then line[..|line| - 1] else line
  }

  /** The lines that fit the buffer with its terminator; the others are dropped whole. */
  function Delivered(lines: seq<seq<Byte>>): seq<seq<Byte>> {
    if lines == [] then []
    else
      var init, last := lines[..|lines| - 1], lines[|lines| - 1];
      if |last| < LINE_SIZE then Delivered(init) + [Trimmed(last)] else Delivered(init)
  }

  lemma Step(s: seq<Byte>, b: Byte)
    ensures Tail(s + [b]) == if b == NEWLINE then [] else Tail(s) + [b]
    ensures Lines(s + [b]) == if b == NEWLINE then Lines(s) + [Tail(s)] else Lines(s)
  {
    assert (s + [b])[..|s|] == s;
  }

  lemma DeliveredStep(lines: seq<seq<Byte>>, line: seq<Byte>)
    ensures Delivered(lines + [line])
         == if |line| < LINE_SIZE then Delivered(lines) + [Trimmed(line)] else Delivered(lines)
  {
    assert (lines + [line])[..|lines|] == lines;
  }

  /** The number of lines of at most 4095 bytes. */
  function Fitting(lines: seq<seq<Byte>>): nat {
    if lines == [] then 0
    else Fitting(lines[..|lines| - 1]) + if |lines[|lines| - 1]| <= 4095 then 1 else 0
  }

  /** What is handed on are the lines of at most 4095 bytes, each in its place among them, without one carriage return
      at its end. */
  lemma {:induction false} DeliveredExactly(lines: seq<seq<Byte>>, i: nat)
    requires i < |lines|
    ensures |Delivered(lines)| == Fitting(lines) && Fitting(lines[..i]) <= Fitting(lines)
    ensures |lines[i]| <= 4095 ==>
              && Fitting(lines[..i]) < Fitting(lines)
              && var line := Delivered(lines)[Fitting(lines[..i])];
                 lines[i] == line + [13] || (lines[i] == line && (line != [] ==> line[|line| - 1] != 13))
    decreases |lines|
  {
    var init, last := lines[..|lines| - 1], lines[|lines| - 1];
    if i < |init| {
      DeliveredExactly(init, i);
      assert init[..i] == lines[..i] && init[i] == lines[i];
    } else {
      DeliveredCount(init);
      assert lines[..i] == init;
      assert last != [] && last[|last| - 1] == 13 ==> last == Trimmed(last) + [13];
    }
  }

  lemma {:induction false} DeliveredCount(lines: seq<seq<Byte>>)
    ensures |Delivered(lines)| == Fitting(lines)
    decreases |lines|
  {
    if lines != [] {
      DeliveredCount(lines[..|lines| - 1]);
    }
  }

  /** What is read: the blocks up to the first empty one. */
  function Received(blocks: seq<seq<Byte>>): seq<Byte> {
    if blocks == [] || blocks[0] == [] then [] else blocks[0] + Received(blocks[1..])
  }

  class LineReader {
    var line: array<Byte>
    var used: nat
    var discard: bool
    /** The lines handed on so far. */
    var consumed: seq<seq<Byte>>

    /** What is in the buffer after the bytes s. */
    ghost predicate Holds(s: seq<Byte>)
      reads this, line
    {
      && line.Length == LINE_SIZE && used < LINE_SIZE
      && (discard <==> |Tail(s)| >= LINE_SIZE)
      && (discard ==> used == LINE_SIZE - 1)
      && (!discard ==> line[..used] == Tail(s))
      && consumed == Delivered(Lines(s))
    }

    constructor ()
      ensures Holds([]) && fresh(line)
    {
      line := new Byte[LINE_SIZE];
      used, discard, consumed := 0, false, [];
    }

    /** A newline hands the line on, unless it was too long, and starts the next. */
    method EndLine(ghost s: seq<Byte>)
      requires Holds(s)
      modifies this, line
      ensures Holds(s + [NEWLINE]) && line == old(line)
    {
      Step(s, NEWLINE);
      DeliveredStep(Lines(s), Tail(s));
      if !discard {
        ghost var tail := line[..used];
        if used > 0 && line[used - 1] == RETURN {
          used := used - 1;
        }
        assert line[..used] == Trimmed(tail);
        line[used] := 0;
        assert line[..used] == Trimmed(tail);
        consumed := consumed + [line[..used]];
      }
      used, discard := 0, false;
    }

    /** Any other byte goes into the buffer while there is room for it and the terminator. */
    method Keep(b: Byte, ghost s: seq<Byte>)
      requires Holds(s) && b != NEWLINE
      modifies this, line
      ensures Holds(s + [b]) && line == old(line)
    {
      Step(s, b);
      if used < LINE_SIZE - 1 {
        line[used] := b;
        used := used + 1;
        assert line[..used] == line[..used - 1] + [b];
      } else {
        discard := true;
      }
    }

    method Take(b: Byte, ghost s: seq<Byte>)
      requires Holds(s)
      modifies this, line
      ensures Holds(s + [b]) && line == old(line)
    {
      if b == NEWLINE {
        EndLine(s);
      } else {
        Keep(b, s);
      }
    }

    method TakeBlock(block: seq<Byte>, ghost s: seq<Byte>)
      requires Holds(s)
      modifies this, line
      ensures Holds(s + block) && line == old(line)
    {
      assert s + block[..0] == s;
      for i := 0 to |block|
        invariant line == old(line) && Holds(s + block[..i])
      {
        Take(block[i], s + block[..i]);
        assert s + block[..i + 1] == s + block[..i] + [block[i]];
      }
      assert block[..|block|] == block;
    }

    /** s is what the first n blocks hold, and more follows from block n. */
    ghost predicate ReadSoFar(blocks: seq<seq<Byte>>, n: nat, s: seq<Byte>)
      requires n <= |blocks|
    {
      s + Received(blocks[n..]) == Received(blocks)
    }

    lemma ReadMore(blocks: seq<seq<Byte>>, n: nat, s: seq<Byte>)
      requires n < |blocks| && blocks[n] != [] && ReadSoFar(blocks, n, s)
      ensures ReadSoFar(blocks, n + 1, s + blocks[n])
    {
      assert blocks[n..][1..] == blocks[n + 1..];
      assert s + (blocks[n] + Received(blocks[n + 1..])) == (s + blocks[n]) + Received(blocks[n + 1..]);
    }

    lemma ReadAll(blocks: seq<seq<Byte>>, n: nat, s: seq<Byte>)
      requires n <= |blocks| && ReadSoFar(blocks, n, s) && (n < |blocks| ==> blocks[n] == [])
      ensures s == Received(blocks)
    {
      assert Received(blocks[n..]) == [];
    }

    /** Reads blocks until there are no more; how the bytes fall into blocks makes no difference. */
    method ReadOutput(blocks: seq<seq<Byte>>)
      requires Holds([]) && forall i | 0 <= i < |blocks| :: |blocks[i]| <= BLOCK_SIZE
      modifies this, line
      ensures Holds(Received(blocks)) && consumed == Delivered(Lines(Received(blocks)))
    {
      ghost var s: seq<Byte> := [];
      var n := 0;
      assert ReadSoFar(blocks, 0, []) by { assert blocks[0..] == blocks; }
      hide ReadSoFar, Received;
      while n < |blocks| && blocks[n] != []
        invariant n <= |blocks| && line == old(line) && Holds(s) && ReadSoFar(blocks, n, s)
      {
        TakeBlock(blocks[n], s);
        ReadMore(blocks, n, s);
        s := s + blocks[n];
        n := n + 1;
      }
      ReadAll(blocks, n, s);
    }
  }
}
