/**
 * The AQC lexer. Every statement starts with `#`; after it come either a
 * number (optionally labelled `id:`) or one of the keys `mode:`, `path:` and
 * `action:` followed by a value.
 *
 * The first half of the module specifies, on `Cursor` values, what one call
 * of `next_token` reads and returns (`LexNext`) and what `tokenise` returns
 * (`TokenStream`). The class `Lexer` then drives an `IoReader` exactly as the
 * program does, and each of its methods is proved to move the reader to the
 * cursor its specification names.
 */
module Lexer {
  import opened Wrappers
  import opened Errors
  import opened Text
  import opened Reader
  import opened Tokens

  const NEW_STATEMENT_CHAR: char := '#'
  const STRING_ESCAPE_CHAR: char := '\\'
  /** The characters a backslash escapes inside a `path:` value. */
  const ESCAPABLE_CHARS: set<char> := {NEW_STATEMENT_CHAR, STRING_ESCAPE_CHAR}
  /** Where a `mode:` or `action:` value ends. */
  const VALUE_TERMINATORS: set<char> := {NEW_STATEMENT_CHAR, NEW_LINE}

  const MISSING_MARKER_MESSAGE: string := "Missing a new statement character"
  const UNKNOWN_TOKEN_MESSAGE: string := "unknown token"

  /** What one call of `next_token` ends in. */
  datatype Step =
    | Emit(token: Token)
    /** `None`: only whitespace was left. */
    | Done
    /** An exception escaped (`int` of an empty digit string). */
    | Raised(error: Error)

  /** A step, the cursor it leaves the reader at, and the recovery flag it leaves set. */
  datatype LexResult = LexResult(step: Step, cursor: Cursor, skip: bool)

  /** A value read off the input and the cursor right after it. */
  datatype Scan = Scan(text: string, after: Cursor)

  // ---------------------------------------------------------------------
  // What the reading helpers do, on cursors

  /** `_skip_whitespace`: the cursor after the leading whitespace. */
  function SkipSpaces(c: Cursor): (r: Cursor)
    ensures |r.rest| <= |c.rest|
    ensures r.rest == [] || !IsSpace(r.rest[0])
    decreases |c.rest|
  {
    if c.rest != [] && IsSpace(c.rest[0]) then SkipSpaces(Move(c, 1)) else c
  }

  /**
   * `acc` followed by the characters before the first of `terminators` (or the
   * end); the terminator stays unread.
   */
  function TakeUntil(c: Cursor, terminators: set<char>, acc: string): (r: Scan)
    ensures |r.after.rest| <= |c.rest|
    ensures r.after.rest == [] || r.after.rest[0] in terminators
    decreases |c.rest|
  {
    if c.rest == [] || c.rest[0] in terminators then Scan(acc, c)
    else TakeUntil(Move(c, 1), terminators, acc + [c.rest[0]])
  }

  /**
   * `acc` followed by the `path:` value at the cursor: up to the first `#` not
   * escaped by a backslash, which stays unread. A backslash before `#` or `\`
   * stands for that character; any other backslash is kept as it is.
   */
  function TakeEscaped(c: Cursor, acc: string): (r: Scan)
    ensures |r.after.rest| <= |c.rest|
    ensures r.after.rest == [] || r.after.rest[0] == NEW_STATEMENT_CHAR
    decreases |c.rest|
  {
    if c.rest == [] || c.rest[0] == NEW_STATEMENT_CHAR then Scan(acc, c)
    else if c.rest[0] == STRING_ESCAPE_CHAR && 1 < |c.rest| && c.rest[1] in ESCAPABLE_CHARS then
      TakeEscaped(Move(Move(c, 1), 1), acc + [c.rest[1]])
    else
      TakeEscaped(Move(c, 1), acc + [c.rest[0]])
  }

  /** The loop reading an id: `acc` followed by the digits at the cursor. */
  function TakeDigits(c: Cursor, acc: string): (r: Scan)
    requires AllDigits(acc)
    ensures |r.after.rest| <= |c.rest|
    ensures AllDigits(r.text)
    decreases |c.rest|
  {
    if c.rest != [] && IsDigit(c.rest[0]) then TakeDigits(Move(c, 1), acc + [c.rest[0]])
    else Scan(acc, c)
  }

  /** `_read_until(terminators)`: what `TakeUntil` reads, stripped. */
  function ScanUntil(c: Cursor, terminators: set<char>): Scan {
    var r := TakeUntil(c, terminators, "");
    Scan(Strip(r.text), r.after)
  }

  /** `_read_escaped_string`: what `TakeEscaped` reads, stripped. */
  function ScanEscaped(c: Cursor): Scan {
    var r := TakeEscaped(c, "");
    Scan(Strip(r.text), r.after)
  }

  // ---------------------------------------------------------------------
  // next_token and tokenise

  /** An id after `#` or `#id:`; `c` is right after either. */
  function LexId(c: Cursor): (r: LexResult)
    ensures |r.cursor.rest| <= |c.rest| && !r.skip
    ensures r.step.Emit? ==> r.step.token.Id? && r.step.token.pos == Some(r.cursor.pos)
    ensures r.step.Emit? || r.step.Raised?
    ensures r.step.Raised? <==> TakeDigits(SkipSpaces(c), "").text == []
    ensures r.step.Raised? ==> r.step.error == ValueError("")
  {
    var digits := TakeDigits(SkipSpaces(c), "");
    if digits.text == [] then
      LexResult(Raised(ValueError("")), digits.after, false)
    else
      LexResult(Emit(Id(DecimalValue(digits.text), Some(digits.after.pos))), digits.after, false)
  }

  /** A `mode:`, `path:` or `action:` statement, or an unknown one; `c` is right after `#`. */
  function LexKeyed(c: Cursor): (r: LexResult)
    ensures |r.cursor.rest| <= |c.rest| && !r.skip
    ensures r.step.Emit? ==> r.step.token.pos.Some?
  {
    if StartsWith(c.rest, "mode:") then
      var v := ScanUntil(SkipSpaces(Move(c, 5)), VALUE_TERMINATORS);
      LexResult(Emit(Mode(v.text, Some(v.after.pos))), v.after, false)
    else if StartsWith(c.rest, "path:") then
      var v := ScanEscaped(SkipSpaces(Move(c, 5)));
      LexResult(Emit(Path(v.text, Some(v.after.pos))), v.after, false)
    else if StartsWith(c.rest, "action:") then
      var v := ScanUntil(SkipSpaces(Move(c, 7)), VALUE_TERMINATORS);
      LexResult(Emit(Action(v.text, Some(v.after.pos))), v.after, false)
    else
      LexResult(Emit(ErrorToken(UNKNOWN_TOKEN_MESSAGE, Some(c.pos))), c, false)
  }

  /** What follows a `#` that was just consumed; `c` is right after it. */
  function LexStatement(c: Cursor): (r: LexResult)
    ensures |r.cursor.rest| <= |c.rest| && !r.skip
    ensures r.step.Emit? ==> r.step.token.pos.Some?
  {
    if IsDigit(PeekAt(c, 0)) then LexId(c)
    else if StartsWith(c.rest, "id:") then LexId(Move(c, 3))
    else LexKeyed(c)
  }

  /**
   * A bound on the work left: every step that emits a token either consumes
   * input or, when it only arms the recovery flag, uses up the flag's unit.
   */
  function Measure(c: Cursor, skip: bool): nat {
    2 * |c.rest| + (if skip then 0 else 1)
  }

  /**
   * One call of `next_token` from cursor `c` with the recovery flag `skip`:
   * a pending recovery first drops everything before the next `#`, then
   * whitespace is skipped; at the end of the input the answer is `None`, and
   * a statement without its `#` gives an error token and arms recovery.
   */
  function LexNext(c: Cursor, skip: bool): (r: LexResult)
    ensures |r.cursor.rest| <= |c.rest|
    ensures r.step.Emit? ==> Measure(r.cursor, r.skip) < Measure(c, skip)
    ensures r.skip <==> r.step == Emit(ErrorToken(MISSING_MARKER_MESSAGE, None))
  {
    var resumed := if skip then ScanUntil(c, {NEW_STATEMENT_CHAR}).after else c;
    var start := SkipSpaces(resumed);
    if |start.rest| == 0 then
      LexResult(Done, start, false)
    else if start.rest[0] != NEW_STATEMENT_CHAR then
      LexResult(Emit(ErrorToken(MISSING_MARKER_MESSAGE, None)), start, true)
    else
      LexStatement(Move(start, 1))
  }

  /** `tokens` put in front of the tokens of `rest`, unless `rest` failed. */
  function Prepend(tokens: seq<Token>, rest: Result<seq<Token>, Error>): Result<seq<Token>, Error> {
    match rest
    case Success(more) => Success(tokens + more)
    case Failure(e) => Failure(e)
  }

  lemma PrependNothing(r: Result<seq<Token>, Error>)
    ensures Prepend([], r) == r
  {
    if r.Success? {
      assert [] + r.value == r.value;
    }
  }

  lemma PrependTwice(a: seq<Token>, b: seq<Token>, r: Result<seq<Token>, Error>)
    ensures Prepend(a, Prepend(b, r)) == Prepend(a + b, r)
  {
    if r.Success? {
      assert a + (b + r.value) == (a + b) + r.value;
    }
  }

  /** `tokenise`: every token up to the end of the input, in order, or the first failure. */
  function TokenStream(c: Cursor, skip: bool): Result<seq<Token>, Error>
    decreases Measure(c, skip)
  {
    var r := LexNext(c, skip);
    match r.step
    case Done => Success([])
    case Raised(e) => Failure(e)
    case Emit(t) => Prepend([t], TokenStream(r.cursor, r.skip))
  }

  /** The tokens of a whole text. */
  function TokensOf(text: string): Result<seq<Token>, Error> {
    TokenStream(Cursor(text, FilePosition(0, 0)), false)
  }

  // ---------------------------------------------------------------------
  // The lexer object

  class Lexer {
    const reader: IoReader
    /** Set after a statement without its `#`: the next call first skips to the next `#`. */
    var skipCurrentToken: bool

    ghost predicate Valid()
      reads this, reader
    {
      reader.Valid()
    }

    constructor (reader: IoReader)
      requires reader.Valid()
      ensures Valid()
      ensures this.reader == reader && !skipCurrentToken
    {
      this.reader := reader;
      skipCurrentToken := false;
    }

    /** Consumes the whitespace in front of the reader. */
    method SkipWhitespace()
      requires Valid()
      modifies reader
      ensures Valid()
      ensures reader.State() == SkipSpaces(old(reader.State()))
    {
      var ch := reader.Peek();
      while IsSpace(ch)
        invariant Valid()
        invariant SkipSpaces(reader.State()) == SkipSpaces(old(reader.State()))
        invariant ch == PeekAt(reader.State(), 0)
        decreases |reader.Remaining()|
      {
        reader.Forward();
        ch := reader.Peek();
      }
    }

    /**
     * Consumes the input up to, not including, the first of `terminators`
     * (or to the end) and returns what it consumed, stripped.
     */
    method ReadUntil(terminators: set<char>) returns (s: string)
      requires Valid()
      modifies reader
      ensures Valid()
      ensures Scan(s, reader.State()) == ScanUntil(old(reader.State()), terminators)
    {
      ghost var goal := TakeUntil(reader.State(), terminators, "");
      var str := "";
      var atEnd := reader.Eof();
      while !atEnd
        invariant Valid()
        invariant TakeUntil(reader.State(), terminators, str) == goal
        invariant atEnd <==> reader.Remaining() == []
        decreases |reader.Remaining()|
      {
        var ch := reader.Peek();
        if ch in terminators {
          break;
        }
        str := str + [ch];
        reader.Forward();
        atEnd := reader.Eof();
      }
      s := Strip(str);
    }

    /**
     * Consumes a `path:` value up to, not including, the first unescaped `#`
     * and returns it decoded and stripped.
     */
    method ReadEscapedString() returns (s: string)
      requires Valid()
      modifies reader
      ensures Valid()
      ensures Scan(s, reader.State()) == ScanEscaped(old(reader.State()))
    {
      ghost var goal := TakeEscaped(reader.State(), "");
      var str := "";
      var atEnd := reader.Eof();
      while !atEnd
        invariant Valid()
        invariant TakeEscaped(reader.State(), str) == goal
        invariant atEnd <==> reader.Remaining() == []
        decreases |reader.Remaining()|
      {
        var ch := reader.Peek();
        if ch == NEW_STATEMENT_CHAR {
          break;
        }
        if ch == STRING_ESCAPE_CHAR {
          var nextCh := reader.Peek(1);
          if nextCh in ESCAPABLE_CHARS {
            ch := nextCh;
            reader.Forward();
          }
        }
        str := str + [ch];
        reader.Forward();
        atEnd := reader.Eof();
      }
      s := Strip(str);
    }

    /** Whether the next character is a digit; consumes nothing. */
    method IsPotentialIdChar() returns (b: bool)
      requires Valid()
      modifies reader
      ensures Valid()
      ensures reader.State() == old(reader.State())
      ensures b <==> IsDigit(PeekAt(reader.State(), 0))
    {
      var ch := reader.Peek();
      b := IsDigit(ch);
    }

    /** The digit loop of `next_token`: consumes the digits in front of the reader and returns them. */
    method ReadIdDigits() returns (s: string)
      requires Valid()
      modifies reader
      ensures Valid()
      ensures Scan(s, reader.State()) == TakeDigits(old(reader.State()), "")
    {
      ghost var goal := TakeDigits(reader.State(), "");
      s := "";
      var more := IsPotentialIdChar();
      while more
        invariant Valid()
        invariant AllDigits(s) && TakeDigits(reader.State(), s) == goal
        invariant more <==> IsDigit(PeekAt(reader.State(), 0))
        decreases |reader.Remaining()|
      {
        var ch := reader.Peek();
        s := s + [ch];
        reader.Forward();
        more := IsPotentialIdChar();
      }
    }

    /** The id branch of `next_token`, entered right after `#` or `#id:`. */
    method ReadId() returns (step: Step)
      requires Valid()
      modifies reader
      ensures Valid()
      ensures LexResult(step, reader.State(), false) == LexId(old(reader.State()))
    {
      SkipWhitespace();
      var digits := ReadIdDigits();
      if digits == [] {
        return Raised(ValueError(""));
      }
      var pos := reader.GetFilePos();
      return Emit(Id(DecimalValue(digits), Some(pos)));
    }

    /** Reads the statement after a consumed `#`. */
    method NextStatement() returns (step: Step)
      requires Valid()
      modifies reader
      ensures Valid()
      ensures LexResult(step, reader.State(), false) == LexStatement(old(reader.State()))
    {
      var digitFirst := IsPotentialIdChar();
      var labelled := false;
      if !digitFirst {
        labelled := reader.Check("id:");
      }
      if digitFirst || labelled {
        step := ReadId();
        return;
      }
      step := ReadKeyed();
    }

    /** The keyed branches of `next_token`, entered right after `#`. */
    method ReadKeyed() returns (step: Step)
      requires Valid()
      modifies reader
      ensures Valid()
      ensures LexResult(step, reader.State(), false) == LexKeyed(old(reader.State()))
    {
      var isMode := reader.Check("mode:");
      if isMode {
        SkipWhitespace();
        var value := ReadUntil(VALUE_TERMINATORS);
        var pos := reader.GetFilePos();
        return Emit(Mode(value, Some(pos)));
      }
      var isPath := reader.Check("path:");
      if isPath {
        SkipWhitespace();
        var value := ReadEscapedString();
        var pos := reader.GetFilePos();
        return Emit(Path(value, Some(pos)));
      }
      var isAction := reader.Check("action:");
      if isAction {
        SkipWhitespace();
        var value := ReadUntil(VALUE_TERMINATORS);
        var pos := reader.GetFilePos();
        return Emit(Action(value, Some(pos)));
      }
      var pos := reader.GetFilePos();
      return Emit(ErrorToken(UNKNOWN_TOKEN_MESSAGE, Some(pos)));
    }

    /** `next_token`: one step of the lexer, as `LexNext` specifies it. */
    method NextToken() returns (step: Step)
      requires Valid()
      modifies this, reader
      ensures Valid()
      ensures LexResult(step, reader.State(), skipCurrentToken)
           == LexNext(old(reader.State()), old(skipCurrentToken))
    {
      if skipCurrentToken {
        var _ := ReadUntil({NEW_STATEMENT_CHAR});
        skipCurrentToken := false;
      }
      SkipWhitespace();
      var atEnd := reader.Eof();
      if atEnd {
        return Done;
      }
      var marked := reader.Check([NEW_STATEMENT_CHAR]);
      if !marked {
        skipCurrentToken := true;
        return Emit(ErrorToken(MISSING_MARKER_MESSAGE, None));
      }
      step := NextStatement();
    }

    /** `tokenise`: all tokens of the remaining input, in order, or the first failure. */
    method Tokenise() returns (r: Result<seq<Token>, Error>)
      requires Valid()
      modifies this, reader
      ensures Valid()
      ensures r == TokenStream(old(reader.State()), old(skipCurrentToken))
    {
      var tokens := [];
      PrependNothing(TokenStream(reader.State(), skipCurrentToken));
      while true
        invariant Valid()
        invariant TokenStream(old(reader.State()), old(skipCurrentToken))
               == Prepend(tokens, TokenStream(reader.State(), skipCurrentToken))
        decreases Measure(reader.State(), skipCurrentToken)
      {
        ghost var rest := TokenStream(reader.State(), skipCurrentToken);
        var step := NextToken();
        match step {
          case Done =>
            assert tokens + [] == tokens;
            return Success(tokens);
          case Raised(e) =>
            return Failure(e);
          case Emit(t) =>
            PrependTwice(tokens, [t], TokenStream(reader.State(), skipCurrentToken));
            tokens := tokens + [t];
        }
      }
    }
  }
}
