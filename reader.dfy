/**
 * The character source of the AQC front end: a reader over a text stream with
 * buffered lookahead that keeps track of the current line and of the position
 * within that line.
 *
 * The stream is modelled by the text it has not yet handed out (`stream`);
 * `buffer` holds what has been read from it but not consumed. What is left to
 * read is always `buffer + stream`. A `Cursor` is that remaining text together
 * with the current `FilePosition`: the value-level view of a reader, which the
 * lexer's specification is written against.
 */
module Reader {
  import opened Text

  /** What `peek` returns past the end of the input. */
  const EOF: char := '\0'
  const NEW_LINE: char := '\n'

  /** A place in a text file: the position within the line and the 0-based line. */
  datatype FilePosition = FilePosition(position: int, line: int)

  /** `FilePosition()`: the defaults stand for an unknown place. */
  const UnknownPosition: FilePosition := FilePosition(-1, -1)

  /** The remaining input and the place in the file where it starts. */
  datatype Cursor = Cursor(rest: string, pos: FilePosition)

  function Min(a: int, b: int): int {
    if a < b then a else b
  }

  /**
   * The bookkeeping `forward(offset)` does once it has looked at the `chars`
   * it is about to consume: every newline moves to a new line, and the position
   * becomes the number of characters after the last one; with no newline the
   * position moves by `offset`.
   */
  function Track(p: FilePosition, chars: string, offset: nat): FilePosition
  {
    var newlineCount := Count(chars, NEW_LINE);
    if newlineCount > 0 then
      FilePosition(|chars| - (RFind(chars, NEW_LINE) + 1), p.line + newlineCount)
    else
      FilePosition(p.position + offset, p.line)
  }

  /** The place reached by reading `s` one character at a time from `p`. */
  function Walk(p: FilePosition, s: string): FilePosition
    decreases |s|
  {
    if s == [] then p
    else
      var q := Walk(p, s[..|s| - 1]);
      if s[|s| - 1] == NEW_LINE then FilePosition(0, q.line + 1)
      else FilePosition(q.position + 1, q.line)
  }

  /** Consuming `k` characters that are all there: reading them one by one. */
  function Move(c: Cursor, k: nat): Cursor
    requires k <= |c.rest|
  {
    Cursor(c.rest[k..], Walk(c.pos, c.rest[..k]))
  }

  /**
   * Consuming `offset` characters from the cursor: the ones that are there are
   * read one by one; asking for more than remain empties the input and moves
   * the position the way `forward` does.
   */
  function Advance(c: Cursor, offset: nat): Cursor
  {
    if offset <= |c.rest| then Move(c, offset)
    else Cursor([], Track(c.pos, c.rest, offset))
  }

  /** `peek(i)` on the cursor. */
  function PeekAt(c: Cursor, i: nat): char
  {
    if i < |c.rest| then c.rest[i] else EOF
  }

  /** `eof(offset)` on the cursor. */
  predicate AtEof(c: Cursor, offset: nat)
  {
    |c.rest| < offset + 1
  }

  /**
   * Counting newlines in one go, as `forward` does, agrees with reading the
   * consumed characters one at a time.
   */
  lemma {:induction false} TrackIsWalk(p: FilePosition, s: string)
    ensures Track(p, s, |s|) == Walk(p, s)
    decreases |s|
  {
    if s != [] {
      var s' := s[..|s| - 1];
      TrackIsWalk(p, s');
      assert Count(s, NEW_LINE) == Count(s', NEW_LINE) + (if s[|s| - 1] == NEW_LINE then 1 else 0);
      if s[|s| - 1] != NEW_LINE && Count(s', NEW_LINE) > 0 {
        assert RFind(s, NEW_LINE) == RFind(s', NEW_LINE);
      }
    }
  }

  /** Reading `s + t` is reading `s`, then `t`. */
  lemma {:induction false} WalkAppend(p: FilePosition, s: string, t: string)
    ensures Walk(p, s + t) == Walk(Walk(p, s), t)
    decreases |t|
  {
    if t == [] {
      assert s + t == s;
    } else {
      var t' := t[..|t| - 1];
      assert (s + t)[..|s + t| - 1] == s + t';
      WalkAppend(p, s, t');
    }
  }

  /**
   * `forward`'s bookkeeping in one go, over the consumed prefix, agrees with
   * reading that prefix one character at a time.
   */
  lemma ForwardBookkeeping(c: Cursor, offset: nat)
    ensures var n := Min(offset, |c.rest|);
      Advance(c, offset) == Cursor(c.rest[n..], Track(c.pos, c.rest[..n], offset))
  {
    if offset <= |c.rest| {
      TrackIsWalk(c.pos, c.rest[..offset]);
    } else {
      assert c.rest[..|c.rest|] == c.rest;
    }
  }

  /** Consuming nothing leaves the cursor where it is. */
  lemma MoveNothing(c: Cursor)
    ensures Move(c, 0) == c
  {
    assert c.rest[..0] == [];
    assert c.rest[0..] == c.rest;
  }

  /** Reading `a` characters and then `b` more is reading `a + b`. */
  lemma MoveCompose(c: Cursor, a: nat, b: nat)
    requires a + b <= |c.rest|
    ensures Move(Move(c, a), b) == Move(c, a + b)
  {
    var s, t := c.rest[..a], c.rest[a..][..b];
    assert c.rest[..a + b] == s + t;
    assert c.rest[a..][b..] == c.rest[a + b..];
    WalkAppend(c.pos, s, t);
  }

  /** Positions a reader reaches never coincide with the unknown position. */
  lemma AdvanceKeepsKnown(c: Cursor, k: nat)
    requires c.pos.position >= 0 && c.pos.line >= 0
    ensures Advance(c, k).pos.position >= 0 && Advance(c, k).pos.line >= c.pos.line
    ensures Advance(c, k).pos != UnknownPosition
  {
    ForwardBookkeeping(c, k);
  }

  /** A reader over a text stream (`IoReader`; `StringReader` is one over a string). */
  class IoReader {
    var position: int
    var line: int
    /** Characters read from the stream and not consumed yet. */
    var buffer: string
    /** What the underlying stream has not handed out yet. */
    var stream: string

    ghost predicate Valid()
      reads this
    {
      position >= 0 && line >= 0
    }

    /** The input not consumed yet. */
    function Remaining(): string
      reads this
    {
      buffer + stream
    }

    function State(): Cursor
      reads this
    {
      Cursor(buffer + stream, FilePosition(position, line))
    }

    /** A fresh reader over `textIo` is at position 0 of line 0. */
    constructor (textIo: string)
      ensures Valid()
      ensures State() == Cursor(textIo, FilePosition(0, 0))
      ensures buffer == []
    {
      position := 0;
      line := 0;
      buffer := "";
      stream := textIo;
    }

    /** Reads from the stream until the buffer holds `length` characters or the stream is done. */
    method FillBuffer(length: nat)
      modifies this`buffer, this`stream
      ensures Remaining() == old(Remaining())
      ensures |buffer| >= length || stream == []
      ensures old(|buffer|) >= length ==> buffer == old(buffer)
    {
      while |buffer| < length
        invariant Remaining() == old(Remaining())
        invariant old(|buffer|) >= length ==> buffer == old(buffer)
        decreases length - |buffer|
      {
        var n := Min(length - |buffer|, |stream|);
        var chunk := stream[..n];
        if chunk == [] {
          break;
        }
        buffer := buffer + chunk;
        stream := stream[n..];
      }
    }

    /** Drops the first `length` characters of the input (all of it if fewer remain). */
    method ForwardImpl(length: nat := 1)
      modifies this`buffer, this`stream
      ensures Remaining() == old(Remaining())[Min(length, |old(Remaining())|)..]
    {
      FillBuffer(length);
      buffer := buffer[Min(length, |buffer|)..];
    }

    /** The next `length` characters, or all that remain if fewer do; consumes nothing. */
    method Prefix(length: nat) returns (s: string)
      modifies this`buffer, this`stream
      ensures State() == old(State())
      ensures s == Remaining()[..Min(length, |Remaining()|)]
    {
      FillBuffer(length);
      s := buffer[..Min(length, |buffer|)];
    }

    /** The character `position` places ahead, or `EOF` past the end; consumes nothing. */
    method Peek(position: nat := 0) returns (ch: char)
      modifies this`buffer, this`stream
      ensures State() == old(State())
      ensures ch == if position < |Remaining()| then Remaining()[position] else EOF
    {
      FillBuffer(position + 1);
      if position < |buffer| {
        return buffer[position];
      }
      return EOF;
    }

    /** Whether fewer than `offset + 1` characters remain; consumes nothing. */
    method Eof(offset: nat := 0) returns (b: bool)
      modifies this`buffer, this`stream
      ensures State() == old(State())
      ensures b <==> |Remaining()| < offset + 1
    {
      FillBuffer(offset + 1);
      return |buffer| < offset + 1;
    }

    /**
     * Consumes `offset` characters: exactly the first `Min(offset, |Remaining()|)`
     * are dropped, the line grows by the newlines among them and the position is
     * recomputed from them.
     */
    method Forward(offset: nat := 1)
      requires Valid()
      modifies this
      ensures Valid()
      ensures State() == Advance(old(State()), offset)
    {
      ghost var c0 := State();
      var chars := Prefix(offset);
      var newlineCount := Count(chars, NEW_LINE);
      if newlineCount > 0 {
        var lastNewline := RFind(chars, NEW_LINE);
        line := line + newlineCount;
        position := |chars| - (lastNewline + 1);
      } else {
        position := position + offset;
      }
      ForwardImpl(offset);
      ForwardBookkeeping(c0, offset);
    }

    /** The current place in the file; never the unknown position. */
    method GetFilePos() returns (p: FilePosition)
      requires Valid()
      ensures p == State().pos
      ensures p.position >= 0 && p.line >= 0 && p != UnknownPosition
    {
      return FilePosition(position, line);
    }

    /**
     * All or nothing: when the input starts with `s`, consumes exactly `|s|`
     * characters and answers true; otherwise consumes nothing and answers false.
     */
    method Check(s: string) returns (b: bool)
      requires Valid()
      modifies this
      ensures Valid()
      ensures b <==> StartsWith(old(Remaining()), s)
      ensures State() == if b then Advance(old(State()), |s|) else old(State())
    {
      var strLen := |s|;
      var p := Prefix(strLen);
      if p == s {
        Forward(strLen);
        return true;
      }
      return false;
    }
  }
}
