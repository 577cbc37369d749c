/**
 * What the AQC lexer promises, proved about its specification in module
 * `Lexer`: which characters each reading helper consumes, that the stream
 * ends exactly when only whitespace is left, how a statement without its `#`
 * is recovered from, what each kind of statement turns into, and that a
 * document of well-formed statements lexes to the same tokens however its
 * statements are separated by whitespace (on one line or on several).
 */
module LexerProperties {
  import opened Wrappers
  import opened Errors
  import opened Text
  import opened Reader
  import opened Tokens
  import opened Lexer

  // ---------------------------------------------------------------------
  // What the reading helpers consume

  /** The index of the first character of `s` in `terminators`, or `|s|`. */
  function FirstIn(s: string, terminators: set<char>): (k: nat)
    ensures k <= |s|
    ensures forall i :: 0 <= i < k ==> s[i] !in terminators
    ensures k == |s| || s[k] in terminators
  {
    if s == [] || s[0] in terminators then 0 else 1 + FirstIn(s[1..], terminators)
  }

  /** Skipping whitespace consumes exactly the whitespace in front. */
  lemma {:induction false} SkipSpacesOver(c: Cursor, w: string, v: string)
    requires c.rest == w + v && AllSpace(w)
    requires v == [] || !IsSpace(v[0])
    ensures SkipSpaces(c) == Move(c, |w|)
    decreases |w|
  {
    if w == [] {
      assert c.rest == v;
      MoveNothing(c);
    } else {
      assert c.rest[0] == w[0];
      var c1 := Move(c, 1);
      assert c1.rest == w[1..] + v;
      SkipSpacesOver(c1, w[1..], v);
      MoveCompose(c, 1, |w| - 1);
    }
  }

  /** Only whitespace is left exactly when skipping whitespace reaches the end. */
  lemma {:induction false} SkipSpacesToEnd(c: Cursor)
    ensures SkipSpaces(c).rest == [] <==> AllSpace(c.rest)
    decreases |c.rest|
  {
    if c.rest != [] && IsSpace(c.rest[0]) {
      var c1 := Move(c, 1);
      SkipSpacesToEnd(c1);
      assert c.rest == [c.rest[0]] + c1.rest;
    }
  }

  /** Reading up to a terminator consumes exactly the characters before the first one. */
  lemma {:induction false} TakeUntilOver(c: Cursor, terminators: set<char>, x: string, v: string, acc: string)
    requires c.rest == x + v
    requires forall i :: 0 <= i < |x| ==> x[i] !in terminators
    requires v == [] || v[0] in terminators
    ensures TakeUntil(c, terminators, acc) == Scan(acc + x, Move(c, |x|))
    decreases |x|
  {
    if x == [] {
      assert c.rest == v && acc + x == acc;
      MoveNothing(c);
    } else {
      assert c.rest[0] == x[0];
      var c1 := Move(c, 1);
      assert c1.rest == x[1..] + v;
      TakeUntilOver(c1, terminators, x[1..], v, acc + [x[0]]);
      assert acc + [x[0]] + x[1..] == acc + x;
      MoveCompose(c, 1, |x| - 1);
    }
  }

  /** `TakeUntil` reads up to the first terminator, wherever it is. */
  lemma TakeUntilFirst(c: Cursor, terminators: set<char>)
    ensures var k := FirstIn(c.rest, terminators);
      TakeUntil(c, terminators, "") == Scan(c.rest[..k], Move(c, k))
  {
    var k := FirstIn(c.rest, terminators);
    assert c.rest == c.rest[..k] + c.rest[k..];
    TakeUntilOver(c, terminators, c.rest[..k], c.rest[k..], "");
  }

  /** Reading an id consumes exactly the run of digits in front. */
  lemma {:induction false} TakeDigitsOver(c: Cursor, d: string, v: string, acc: string)
    requires c.rest == d + v && AllDigits(d) && AllDigits(acc)
    requires v == [] || !IsDigit(v[0])
    ensures TakeDigits(c, acc) == Scan(acc + d, Move(c, |d|))
    decreases |d|
  {
    if d == [] {
      assert c.rest == v && acc + d == acc;
      MoveNothing(c);
    } else {
      assert c.rest[0] == d[0];
      var c1 := Move(c, 1);
      assert c1.rest == d[1..] + v;
      TakeDigitsOver(c1, d[1..], v, acc + [d[0]]);
      assert acc + [d[0]] + d[1..] == acc + d;
      MoveCompose(c, 1, |d| - 1);
    }
  }

  /**
   * How a `path:` value is written so that it reads back as `s`: a backslash
   * in front of every `#` and every backslash.
   */
  function Escape(s: string): (e: string)
    ensures |e| >= |s|
  {
    if s == [] then []
    else (if s[0] in ESCAPABLE_CHARS then [STRING_ESCAPE_CHAR, s[0]] else [s[0]]) + Escape(s[1..])
  }

  lemma {:induction false} EscapeAppend(s: string, t: string)
    ensures Escape(s + t) == Escape(s) + Escape(t)
    decreases |s|
  {
    if s == [] {
      assert s + t == t;
    } else {
      assert (s + t)[0] == s[0];
      assert (s + t)[1..] == s[1..] + t;
      EscapeAppend(s[1..], t);
    }
  }

  /** Text without `#` and backslashes is written as it is. */
  lemma {:induction false} EscapePlain(s: string)
    requires NEW_STATEMENT_CHAR !in s && STRING_ESCAPE_CHAR !in s
    ensures Escape(s) == s
    decreases |s|
  {
    if s != [] {
      assert s == [s[0]] + s[1..];
      EscapePlain(s[1..]);
      assert [s[0]] + s[1..] == s;
    }
  }

  /**
   * The `path:` value at the front of `s` with its escapes resolved, and the
   * number of characters it takes up: everything before the first `#` that
   * is not preceded by an escaping backslash.
   */
  function Unescape(s: string): (r: (string, nat))
    ensures r.1 <= |s|
  {
    if s == [] || s[0] == NEW_STATEMENT_CHAR then ("", 0)
    else if s[0] == STRING_ESCAPE_CHAR && 1 < |s| && s[1] in ESCAPABLE_CHARS then
      var t := Unescape(s[2..]);
      ([s[1]] + t.0, t.1 + 2)
    else
      var t := Unescape(s[1..]);
      ([s[0]] + t.0, t.1 + 1)
  }

  /** Reading a `path:` value from a cursor is `Unescape` of what is left. */
  lemma {:induction false} TakeEscapedUnescapes(c: Cursor, acc: string)
    ensures TakeEscaped(c, acc) == Scan(acc + Unescape(c.rest).0, Move(c, Unescape(c.rest).1))
    decreases |c.rest|
  {
    var s := c.rest;
    if s == [] || s[0] == NEW_STATEMENT_CHAR {
      assert acc + "" == acc;
      MoveNothing(c);
    } else if s[0] == STRING_ESCAPE_CHAR && 1 < |s| && s[1] in ESCAPABLE_CHARS {
      ReadEscapedPair(c, acc);
      TakeEscapedUnescapes(Move(c, 2), acc + [s[1]]);
      var t := Unescape(s[2..]);
      AppendAssoc(acc, [s[1]], t.0);
      MoveCompose(c, 2, t.1);
    } else {
      ReadPlain(c, acc);
      TakeEscapedUnescapes(Move(c, 1), acc + [s[0]]);
      var t := Unescape(s[1..]);
      AppendAssoc(acc, [s[0]], t.0);
      MoveCompose(c, 1, t.1);
    }
  }

  /** A backslash before `#` or a backslash: both are consumed, the second is kept. */
  lemma ReadEscapedPair(c: Cursor, acc: string)
    requires 2 <= |c.rest| && c.rest[0] == STRING_ESCAPE_CHAR && c.rest[1] in ESCAPABLE_CHARS
    ensures TakeEscaped(c, acc) == TakeEscaped(Move(c, 2), acc + [c.rest[1]])
  {
    MoveCompose(c, 1, 1);
  }

  /** Any other character, `#` aside, is consumed and kept as it is. */
  lemma ReadPlain(c: Cursor, acc: string)
    requires 1 <= |c.rest| && c.rest[0] != NEW_STATEMENT_CHAR
    requires !(c.rest[0] == STRING_ESCAPE_CHAR && 1 < |c.rest| && c.rest[1] in ESCAPABLE_CHARS)
    ensures TakeEscaped(c, acc) == TakeEscaped(Move(c, 1), acc + [c.rest[0]])
  {
  }

  /** `Unescape` undoes `Escape`, and stops at the `#` after it. */
  lemma {:induction false} UnescapeEscape(s: string, v: string)
    requires v == [] || v[0] == NEW_STATEMENT_CHAR
    ensures Unescape(Escape(s) + v) == (s, |Escape(s)|)
    decreases |s|
  {
    if s == [] {
      assert Escape(s) + v == v;
    } else {
      var x, e := s[0], Escape(s[1..]);
      UnescapeEscape(s[1..], v);
      assert [x] + s[1..] == s by {
        HeadTail(s);
      }
      if x in ESCAPABLE_CHARS {
        assert Escape(s) + v == [STRING_ESCAPE_CHAR, x] + (e + v) && |Escape(s)| == |e| + 2 by {
          AppendAssoc([STRING_ESCAPE_CHAR, x], e, v);
        }
        UnescapePair(x, e + v);
      } else {
        assert Escape(s) + v == [x] + (e + v) && |Escape(s)| == |e| + 1 by {
          AppendAssoc([x], e, v);
        }
        UnescapeSingle(x, e + v);
      }
    }
  }

  lemma UnescapePair(x: char, rest: string)
    requires x in ESCAPABLE_CHARS
    ensures Unescape([STRING_ESCAPE_CHAR, x] + rest)
         == ([x] + Unescape(rest).0, Unescape(rest).1 + 2)
  {
    Concat3([STRING_ESCAPE_CHAR, x] + rest, [STRING_ESCAPE_CHAR, x], rest, []);
    assert rest + [] == rest;
  }

  lemma UnescapeSingle(x: char, rest: string)
    requires x !in ESCAPABLE_CHARS
    ensures Unescape([x] + rest) == ([x] + Unescape(rest).0, Unescape(rest).1 + 1)
  {
    Concat3([x] + rest, [x], rest, []);
    assert rest + [] == rest;
  }

  /** Reading a `path:` value undoes `Escape` and stops at the `#` after it. */
  lemma TakeEscapedOver(c: Cursor, s: string, v: string, acc: string)
    requires c.rest == Escape(s) + v
    requires v == [] || v[0] == NEW_STATEMENT_CHAR
    ensures TakeEscaped(c, acc) == Scan(acc + s, Move(c, |Escape(s)|))
  {
    TakeEscapedUnescapes(c, acc);
    UnescapeEscape(s, v);
  }

  // ---------------------------------------------------------------------
  // One statement

  /** A value as `mode:` and `action:` take it: no terminator inside and nothing to strip. */
  predicate PlainValue(m: string) {
    m != [] && NoSurroundingSpace(m) && forall i :: 0 <= i < |m| ==> m[i] !in VALUE_TERMINATORS
  }

  lemma ValueParts(m: string, g: string, v: string, k: nat)
    requires k <= |g|
    ensures m + (g + v) == (m + g[..k]) + (g[k..] + v)
  {
    assert g == g[..k] + g[k..];
  }

  lemma ValueWithoutTerminator(m: string, g: string, k: nat)
    requires forall i :: 0 <= i < |m| ==> m[i] !in VALUE_TERMINATORS
    requires k == FirstIn(g, VALUE_TERMINATORS)
    ensures forall i :: 0 <= i < |m + g[..k]| ==> (m + g[..k])[i] !in VALUE_TERMINATORS
  {
  }

  lemma TerminatorAfterValue(g: string, v: string, k: nat)
    requires k == FirstIn(g, VALUE_TERMINATORS)
    requires v == [] || v[0] == NEW_STATEMENT_CHAR
    ensures g[k..] + v == [] || (g[k..] + v)[0] in VALUE_TERMINATORS
  {
    if k == |g| {
      assert g[k..] + v == v;
    }
  }

  /** The value of a `mode:` or `action:` statement: up to the next `#` or newline, stripped. */
  lemma ReadValue(c: Cursor, pad: string, m: string, g: string, v: string)
    requires c.rest == pad + (m + (g + v))
    requires AllSpace(pad) && PlainValue(m) && AllSpace(g)
    requires v == [] || v[0] == NEW_STATEMENT_CHAR
    ensures var r := ScanUntil(SkipSpaces(c), VALUE_TERMINATORS);
      r.text == m && r.after.rest == g[FirstIn(g, VALUE_TERMINATORS)..] + v
  {
    var k := FirstIn(g, VALUE_TERMINATORS);
    SplitAt(c.rest, pad, m + (g + v));
    SplitAt(m + (g + v), m, g + v);
    SkipSpacesOver(c, pad, m + (g + v));
    var c1 := Move(c, |pad|);
    var x, y := m + g[..k], g[k..] + v;
    ValueParts(m, g, v, k);
    ValueWithoutTerminator(m, g, k);
    TerminatorAfterValue(g, v, k);
    TakeUntilOver(c1, VALUE_TERMINATORS, x, y, "");
    SplitAt(x + y, x, y);
    EmptyAppend(x);
    AllSpaceSlice(g, 0, k);
    assert g[0..k] == g[..k];
    StripPadded(m, g[..k]);
  }

  /** A text starting with `a` starts with `a[0]`, and not with a word starting differently. */
  lemma StartsApart(s: string, a: string, b: string)
    requires StartsWith(s, a) && a != [] && b != [] && a[0] != b[0]
    ensures s[0] == a[0] && !StartsWith(s, b)
  {
    assert s[0] == s[..|a|][0];
    if |b| <= |s| {
      assert s[..|b|][0] == s[0];
    }
  }

  /** A statement that starts with neither a digit nor `id:` is a keyed one. */
  lemma KeyedStatement(c: Cursor)
    requires c.rest != [] && !IsDigit(c.rest[0]) && !StartsWith(c.rest, "id:")
    ensures LexStatement(c) == LexKeyed(c)
  {
  }

  /** What follows `#mode:`. */
  lemma StatementIsMode(c: Cursor)
    requires StartsWith(c.rest, "mode:")
    ensures LexStatement(c) ==
      var v := ScanUntil(SkipSpaces(Move(c, 5)), VALUE_TERMINATORS);
      LexResult(Emit(Mode(v.text, Some(v.after.pos))), v.after, false)
  {
    StartsApart(c.rest, "mode:", "id:");
    KeyedStatement(c);
  }

  /** What follows `#action:`. */
  lemma StatementIsAction(c: Cursor)
    requires StartsWith(c.rest, "action:")
    ensures LexStatement(c) ==
      var v := ScanUntil(SkipSpaces(Move(c, 7)), VALUE_TERMINATORS);
      LexResult(Emit(Action(v.text, Some(v.after.pos))), v.after, false)
  {
    StartsApart(c.rest, "action:", "id:");
    StartsApart(c.rest, "action:", "mode:");
    StartsApart(c.rest, "action:", "path:");
    KeyedStatement(c);
  }

  /** What follows `#path:`. */
  lemma StatementIsPath(c: Cursor)
    requires StartsWith(c.rest, "path:")
    ensures LexStatement(c) ==
      var v := ScanEscaped(SkipSpaces(Move(c, 5)));
      LexResult(Emit(Path(v.text, Some(v.after.pos))), v.after, false)
  {
    StartsApart(c.rest, "path:", "id:");
    StartsApart(c.rest, "path:", "mode:");
    KeyedStatement(c);
  }

  /** A step that emits a `Mode` token without arming recovery. */
  lemma EmittedMode(r: LexResult, m: string, p: Option<FilePosition>, after: Cursor)
    requires r == LexResult(Emit(Mode(m, p)), after, false)
    ensures r.step.Emit? && WithoutPosition(r.step.token) == Mode(m, None) && !r.skip && r.cursor == after
  {
  }

  /** A step that emits an `Action` token without arming recovery. */
  lemma EmittedAction(r: LexResult, a: string, p: Option<FilePosition>, after: Cursor)
    requires r == LexResult(Emit(Action(a, p)), after, false)
    ensures r.step.Emit? && WithoutPosition(r.step.token) == Action(a, None) && !r.skip && r.cursor == after
  {
  }

  /** `#mode:` with its value, read from right after the `#`. */
  lemma LexModeValue(c: Cursor, pad: string, m: string, g: string, v: string)
    requires StartsWith(c.rest, "mode:") && c.rest[5..] == pad + (m + (g + v))
    requires AllSpace(pad) && PlainValue(m) && AllSpace(g)
    requires v == [] || v[0] == NEW_STATEMENT_CHAR
    ensures var r := LexStatement(c);
      r.step.Emit? && WithoutPosition(r.step.token) == Mode(m, None) && !r.skip
      && r.cursor.rest == g[FirstIn(g, VALUE_TERMINATORS)..] + v
  {
    var c1 := Move(c, 5);
    var w := ScanUntil(SkipSpaces(c1), VALUE_TERMINATORS);
    assert w.text == m && w.after.rest == g[FirstIn(g, VALUE_TERMINATORS)..] + v by {
      ReadValue(c1, pad, m, g, v);
    }
    assert LexStatement(c) == LexResult(Emit(Mode(m, Some(w.after.pos))), w.after, false) by {
      StatementIsMode(c);
    }
    EmittedMode(LexStatement(c), m, Some(w.after.pos), w.after);
  }

  /** `#action:` with its value, read from right after the `#`. */
  lemma LexActionValue(c: Cursor, pad: string, a: string, g: string, v: string)
    requires StartsWith(c.rest, "action:") && c.rest[7..] == pad + (a + (g + v))
    requires AllSpace(pad) && PlainValue(a) && AllSpace(g)
    requires v == [] || v[0] == NEW_STATEMENT_CHAR
    ensures var r := LexStatement(c);
      r.step.Emit? && WithoutPosition(r.step.token) == Action(a, None) && !r.skip
      && r.cursor.rest == g[FirstIn(g, VALUE_TERMINATORS)..] + v
  {
    var c1 := Move(c, 7);
    var w := ScanUntil(SkipSpaces(c1), VALUE_TERMINATORS);
    assert w.text == a && w.after.rest == g[FirstIn(g, VALUE_TERMINATORS)..] + v by {
      ReadValue(c1, pad, a, g, v);
    }
    assert LexStatement(c) == LexResult(Emit(Action(a, Some(w.after.pos))), w.after, false) by {
      StatementIsAction(c);
    }
    EmittedAction(LexStatement(c), a, Some(w.after.pos), w.after);
  }

  lemma EscapeHead(p: string)
    requires p != [] && !IsSpace(p[0])
    ensures Escape(p) != [] && !IsSpace(Escape(p)[0])
  {
  }

  lemma EscapeSpaces(g: string)
    requires AllSpace(g)
    ensures Escape(g) == g
  {
    EscapePlain(g);
  }

  /** The value of a `path:` statement: up to the next unescaped `#`, unescaped and stripped. */
  lemma ReadPathValue(c: Cursor, pad: string, p: string, g: string, v: string)
    requires c.rest == pad + (Escape(p) + (g + v))
    requires AllSpace(pad) && p != [] && NoSurroundingSpace(p) && AllSpace(g)
    requires v == [] || v[0] == NEW_STATEMENT_CHAR
    ensures var r := ScanEscaped(SkipSpaces(c));
      r.text == p && r.after.rest == v
  {
    var e := Escape(p);
    EscapeHead(p);
    SplitAt(c.rest, pad, e + (g + v));
    SplitAt(e + (g + v), e, g + v);
    SkipSpacesOver(c, pad, e + (g + v));
    var c1 := Move(c, |pad|);
    EscapeAppend(p, g);
    EscapeSpaces(g);
    AppendAssoc(e, g, v);
    TakeEscapedOver(c1, p + g, v, "");
    SplitAt(c1.rest, Escape(p + g), v);
    EmptyAppend(p + g);
    StripPadded(p, g);
  }

  /** `#path:` with its escaped value, read from right after the `#`. */
  lemma LexPathValue(c: Cursor, pad: string, p: string, g: string, v: string)
    requires StartsWith(c.rest, "path:") && c.rest[5..] == pad + (Escape(p) + (g + v))
    requires AllSpace(pad) && p != [] && NoSurroundingSpace(p) && AllSpace(g)
    requires v == [] || v[0] == NEW_STATEMENT_CHAR
    ensures var r := LexStatement(c);
      r.step.Emit? && WithoutPosition(r.step.token) == Path(p, None) && !r.skip
      && r.cursor.rest == v
  {
    StatementIsPath(c);
    ReadPathValue(Move(c, 5), pad, p, g, v);
  }

  /** The digits of an id, after optional whitespace. */
  lemma ReadIdValue(c: Cursor, pad: string, d: string, g: string, v: string)
    requires c.rest == pad + (d + (g + v))
    requires AllSpace(pad) && d != [] && AllDigits(d) && AllSpace(g)
    requires v == [] || v[0] == NEW_STATEMENT_CHAR
    ensures var r := LexId(c);
      r.step.Emit? && WithoutPosition(r.step.token) == Id(DecimalValue(d), None) && !r.skip
      && r.cursor.rest == g + v
  {
    SplitAt(c.rest, pad, d + (g + v));
    SplitAt(d + (g + v), d, g + v);
    SkipSpacesOver(c, pad, d + (g + v));
    var c1 := Move(c, |pad|);
    if g != [] {
      assert (g + v)[0] == g[0];
    } else {
      assert g + v == v;
    }
    TakeDigitsOver(c1, d, g + v, "");
    assert "" + d == d;
    SplitAt(c1.rest, d, g + v);
  }

  /** `#` and an id without its label. */
  lemma LexBareId(c: Cursor, d: string, g: string, v: string)
    requires c.rest == d + (g + v)
    requires d != [] && AllDigits(d) && AllSpace(g)
    requires v == [] || v[0] == NEW_STATEMENT_CHAR
    ensures var r := LexStatement(c);
      r.step.Emit? && WithoutPosition(r.step.token) == Id(DecimalValue(d), None) && !r.skip
      && r.cursor.rest == g + v
  {
    SplitAt(c.rest, d, g + v);
    assert IsDigit(PeekAt(c, 0));
    assert c.rest == [] + (d + (g + v));
    ReadIdValue(c, [], d, g, v);
  }

  /** `#id:` and an id. */
  lemma LexLabelledId(c: Cursor, pad: string, d: string, g: string, v: string)
    requires StartsWith(c.rest, "id:") && c.rest[3..] == pad + (d + (g + v))
    requires AllSpace(pad) && d != [] && AllDigits(d) && AllSpace(g)
    requires v == [] || v[0] == NEW_STATEMENT_CHAR
    ensures var r := LexStatement(c);
      r.step.Emit? && WithoutPosition(r.step.token) == Id(DecimalValue(d), None) && !r.skip
      && r.cursor.rest == g + v
  {
    StartsApart(c.rest, "id:", "0");
    assert !IsDigit(PeekAt(c, 0));
    ReadIdValue(Move(c, 3), pad, d, g, v);
  }

  /**
   * `#id:` followed by whitespace and then no digit: converting the empty
   * digit string fails, so the lexer raises and the token stream is a failure.
   */
  lemma LabelledIdWithoutDigits(c: Cursor, w: string, pad: string, v: string)
    requires c.rest == w + ("#" + ("id:" + (pad + v))) && AllSpace(w) && AllSpace(pad)
    requires v == [] || (!IsSpace(v[0]) && !IsDigit(v[0]))
    ensures LexNext(c, false).step == Raised(ValueError(""))
    ensures TokenStream(c, false) == Failure(ValueError(""))
  {
    var body := "id:" + (pad + v);
    LexAfterMarker(c, w, body);
    var c1 := Move(c, |w| + 1);
    SplitAt(body, "id:", pad + v);
    StartsApart(c1.rest, "id:", "0");
    assert !IsDigit(PeekAt(c1, 0));
    var c2 := Move(c1, 3);
    assert c2.rest == pad + v;
    SkipSpacesOver(c2, pad, v);
    var c3 := Move(c2, |pad|);
    SplitAt(c2.rest, pad, v);
    assert c3.rest == [] + v;
    TakeDigitsOver(c3, [], v, "");
    MoveNothing(c3);
  }

  /** The same at the start of a text: its tokens are a failure. */
  lemma LabelledIdWithoutDigitsText(text: string, pad: string, v: string)
    requires text == "#id:" + pad + v && AllSpace(pad)
    requires v == [] || (!IsSpace(v[0]) && !IsDigit(v[0]))
    ensures TokensOf(text) == Failure(ValueError(""))
  {
    var c := Cursor(text, FilePosition(0, 0));
    assert text == [] + ("#" + ("id:" + (pad + v)));
    LabelledIdWithoutDigits(c, [], pad, v);
  }

  // ---------------------------------------------------------------------
  // Documents of statements

  /**
   * A statement as it can be written in a configuration file. `pad` is the
   * whitespace between a key and its value; an id is written with or
   * without its `id:` label, and without the label nothing may come between
   * the `#` and the digits.
   */
  datatype Statement =
    | IdStatement(digits: string, labelled: bool, pad: string)
    | ModeStatement(pad: string, mode: string)
    | PathStatement(pad: string, path: string)
    | ActionStatement(pad: string, action: string)

  predicate WellFormed(st: Statement) {
    match st
    case IdStatement(d, labelled, pad) => d != [] && AllDigits(d) && AllSpace(pad) && (labelled || pad == [])
    case ModeStatement(pad, m) => AllSpace(pad) && PlainValue(m)
    case PathStatement(pad, p) => AllSpace(pad) && p != [] && NoSurroundingSpace(p)
    case ActionStatement(pad, a) => AllSpace(pad) && PlainValue(a)
  }

  /** What comes after the `#` of statement `st`, followed by the text `after`. */
  function Body(st: Statement, after: string): string {
    match st
    case IdStatement(d, labelled, pad) =>
      if labelled then "id:" + (pad + (d + after)) else d + after
    case ModeStatement(pad, m) => "mode:" + (pad + (m + after))
    case PathStatement(pad, p) => "path:" + (pad + (Escape(p) + after))
    case ActionStatement(pad, a) => "action:" + (pad + (a + after))
  }

  /** Statement `st` written out, followed by the text `after`. */
  function Write(st: Statement, after: string): (r: string)
    ensures r != [] && r[0] == NEW_STATEMENT_CHAR
  {
    "#" + Body(st, after)
  }

  /** The token statement `st` stands for, without a position. */
  function Expected(st: Statement): Token
    requires WellFormed(st)
  {
    match st
    case IdStatement(d, _, _) => Id(DecimalValue(d), None)
    case ModeStatement(_, m) => Mode(m, None)
    case PathStatement(_, p) => Path(p, None)
    case ActionStatement(_, a) => Action(a, None)
  }

  /**
   * The part of the whitespace `g` after statement `st` that the lexer has
   * not consumed once it returns the statement's token.
   */
  function Gap(st: Statement, g: string): string {
    match st
    case IdStatement(_, _, _) => g
    case PathStatement(_, _) => []
    case _ => g[FirstIn(g, VALUE_TERMINATORS)..]
  }

  lemma GapIsSpace(st: Statement, g: string)
    requires AllSpace(g)
    ensures AllSpace(Gap(st, g))
  {
    AllSpaceSlice(g, FirstIn(g, VALUE_TERMINATORS), |g|);
  }

  /** Whitespace, a `#` and then `body`: the lexer goes on right after the `#`. */
  lemma LexAfterMarker(c: Cursor, w: string, body: string)
    requires c.rest == w + ("#" + body) && AllSpace(w)
    ensures LexNext(c, false) == LexStatement(Move(c, |w| + 1))
    ensures Move(c, |w| + 1).rest == body
  {
    SplitAt(c.rest, w, "#" + body);
    SkipSpacesOver(c, w, "#" + body);
    MoveCompose(c, |w|, 1);
    AppendAssoc(w, "#", body);
    SplitAt(c.rest, w + "#", body);
  }

  /** One well-formed statement after whitespace: its token, and the lexer stops in the gap after it. */
  lemma StatementToken(c: Cursor, w: string, st: Statement, g: string, v: string)
    requires WellFormed(st) && AllSpace(w) && AllSpace(g)
    requires v == [] || v[0] == NEW_STATEMENT_CHAR
    requires c.rest == w + Write(st, g + v)
    ensures var r := LexNext(c, false);
      r.step.Emit? && WithoutPosition(r.step.token) == Expected(st) && !r.skip
      && r.cursor.rest == Gap(st, g) + v
  {
    var body := Body(st, g + v);
    LexAfterMarker(c, w, body);
    var c1 := Move(c, |w| + 1);
    match st
    case IdStatement(d, labelled, pad) =>
      if labelled {
        SplitAt(body, "id:", pad + (d + (g + v)));
        LexLabelledId(c1, pad, d, g, v);
      } else {
        LexBareId(c1, d, g, v);
      }
    case ModeStatement(pad, m) =>
      SplitAt(body, "mode:", pad + (m + (g + v)));
      LexModeValue(c1, pad, m, g, v);
    case PathStatement(pad, p) =>
      SplitAt(body, "path:", pad + (Escape(p) + (g + v)));
      LexPathValue(c1, pad, p, g, v);
      EmptyAppend(v);
    case ActionStatement(pad, a) =>
      SplitAt(body, "action:", pad + (a + (g + v)));
      LexActionValue(c1, pad, a, g, v);
  }

  /** Statements, each followed by its whitespace gap. */
  function Statements(stmts: seq<Statement>, gaps: seq<string>): (r: string)
    requires |gaps| == |stmts|
    ensures r == [] || r[0] == NEW_STATEMENT_CHAR
  {
    if stmts == [] then [] else Write(stmts[0], gaps[0] + Statements(stmts[1..], gaps[1..]))
  }

  /** A configuration text: leading whitespace, then statements separated by whitespace. */
  function Layout(lead: string, stmts: seq<Statement>, gaps: seq<string>): string
    requires |gaps| == |stmts|
  {
    lead + Statements(stmts, gaps)
  }

  predicate AllWellFormed(stmts: seq<Statement>) {
    forall i :: 0 <= i < |stmts| ==> WellFormed(stmts[i])
  }

  predicate Spaced(gaps: seq<string>) {
    forall i :: 0 <= i < |gaps| ==> AllSpace(gaps[i])
  }

  /** The tokens with their positions dropped. */
  function Unplaced(ts: seq<Token>): seq<Token> {
    seq(|ts|, i requires 0 <= i < |ts| => WithoutPosition(ts[i]))
  }

  /** The tokens the statements stand for, in order. */
  function ExpectedTokens(stmts: seq<Statement>): seq<Token>
    requires AllWellFormed(stmts)
  {
    seq(|stmts|, i requires 0 <= i < |stmts| && WellFormed(stmts[i]) => Expected(stmts[i]))
  }

  lemma UnplacedCons(t: Token, ts: seq<Token>)
    ensures Unplaced([t] + ts) == [WithoutPosition(t)] + Unplaced(ts)
  {
  }

  lemma ExpectedCons(stmts: seq<Statement>)
    requires stmts != [] && AllWellFormed(stmts)
    ensures AllWellFormed(stmts[1..])
    ensures ExpectedTokens(stmts) == [Expected(stmts[0])] + ExpectedTokens(stmts[1..])
  {
  }

  lemma SpacedTail(gaps: seq<string>)
    requires gaps != [] && Spaced(gaps)
    ensures AllSpace(gaps[0]) && Spaced(gaps[1..])
  {
  }

  /**
   * Whitespace followed by well-formed statements separated by whitespace
   * lexes to the statements' tokens, in order, and nothing else.
   */
  lemma {:induction false} DocumentTokens(c: Cursor, w: string, stmts: seq<Statement>, gaps: seq<string>)
    requires |gaps| == |stmts| && AllWellFormed(stmts) && Spaced(gaps) && AllSpace(w)
    requires c.rest == w + Statements(stmts, gaps)
    ensures TokenStream(c, false).Success?
    ensures Unplaced(TokenStream(c, false).value) == ExpectedTokens(stmts)
    decreases |stmts|
  {
    if stmts == [] {
      EmptyAppend(w);
      SkipSpacesToEnd(c);
    } else {
      var v := Statements(stmts[1..], gaps[1..]);
      SpacedTail(gaps);
      ExpectedCons(stmts);
      StatementToken(c, w, stmts[0], gaps[0], v);
      var r := LexNext(c, false);
      GapIsSpace(stmts[0], gaps[0]);
      DocumentTokens(r.cursor, Gap(stmts[0], gaps[0]), stmts[1..], gaps[1..]);
      UnplacedCons(r.step.token, TokenStream(r.cursor, false).value);
    }
  }

  /** What `tokenise` returns for a laid-out text, positions aside. */
  lemma LayoutTokens(lead: string, stmts: seq<Statement>, gaps: seq<string>)
    requires |gaps| == |stmts| && AllWellFormed(stmts) && Spaced(gaps) && AllSpace(lead)
    ensures TokensOf(Layout(lead, stmts, gaps)).Success?
    ensures Unplaced(TokensOf(Layout(lead, stmts, gaps)).value) == ExpectedTokens(stmts)
  {
    DocumentTokens(Cursor(Layout(lead, stmts, gaps), FilePosition(0, 0)), lead, stmts, gaps);
  }

  /**
   * How statements are separated does not matter: with any whitespace
   * between them (one line, or one statement per line) the same tokens come
   * out, positions aside.
   */
  lemma LayoutDoesNotMatter(stmts: seq<Statement>, lead1: string, gaps1: seq<string>, lead2: string, gaps2: seq<string>)
    requires AllWellFormed(stmts)
    requires |gaps1| == |stmts| && Spaced(gaps1) && AllSpace(lead1)
    requires |gaps2| == |stmts| && Spaced(gaps2) && AllSpace(lead2)
    ensures TokensOf(Layout(lead1, stmts, gaps1)).Success? && TokensOf(Layout(lead2, stmts, gaps2)).Success?
    ensures Unplaced(TokensOf(Layout(lead1, stmts, gaps1)).value)
         == Unplaced(TokensOf(Layout(lead2, stmts, gaps2)).value)
  {
    LayoutTokens(lead1, stmts, gaps1);
    LayoutTokens(lead2, stmts, gaps2);
  }

  // ---------------------------------------------------------------------
  // The end of the input, errors and recovery

  /** `next_token` answers `None` exactly when only whitespace is left. */
  lemma DoneIffBlank(c: Cursor)
    ensures LexNext(c, false).step == Done <==> AllSpace(c.rest)
  {
    SkipSpacesToEnd(c);
  }

  /** `tokenise` returns no token and no error exactly for a text of whitespace. */
  lemma NoTokensIffBlank(c: Cursor)
    ensures TokenStream(c, false) == Success([]) <==> AllSpace(c.rest)
  {
    DoneIffBlank(c);
  }

  /**
   * A pending recovery drops everything before the next `#` (or the rest of
   * the input), and lexing carries on from there as usual.
   */
  lemma RecoveryResumes(c: Cursor)
    ensures var k := FirstIn(c.rest, {NEW_STATEMENT_CHAR});
      LexNext(c, true) == LexNext(Move(c, k), false)
      && TokenStream(c, true) == TokenStream(Move(c, k), false)
  {
    TakeUntilFirst(c, {NEW_STATEMENT_CHAR});
  }

  /**
   * A statement without its `#`: one error token without a position, and
   * the text up to the next `#` is skipped.
   */
  lemma MissingMarker(c: Cursor)
    requires var d := SkipSpaces(c); d.rest != [] && d.rest[0] != NEW_STATEMENT_CHAR
    ensures var d := SkipSpaces(c);
      TokenStream(c, false)
      == Prepend([ErrorToken(MISSING_MARKER_MESSAGE, None)],
                 TokenStream(Move(d, FirstIn(d.rest, {NEW_STATEMENT_CHAR})), false))
  {
    RecoveryResumes(SkipSpaces(c));
  }

  /** No key after a `#`: an error token at that place; recovery is not armed. */
  lemma UnknownStatement(c: Cursor, w: string, u: string)
    requires c.rest == w + ("#" + u) && AllSpace(w)
    requires u == [] || !IsDigit(u[0])
    requires !StartsWith(u, "id:") && !StartsWith(u, "mode:") && !StartsWith(u, "path:") && !StartsWith(u, "action:")
    ensures var after := Move(c, |w| + 1);
      LexNext(c, false) == LexResult(Emit(ErrorToken(UNKNOWN_TOKEN_MESSAGE, Some(after.pos))), after, false)
  {
    LexAfterMarker(c, w, u);
  }

  /** Whether a token's value has no whitespace around it. */
  predicate Trimmed(t: Token) {
    match t
    case Mode(m, _) => NoSurroundingSpace(m)
    case Path(p, _) => NoSurroundingSpace(p)
    case Action(a, _) => NoSurroundingSpace(a)
    case _ => true
  }

  lemma LexNextTrimmed(c: Cursor, skip: bool)
    ensures LexNext(c, skip).step.Emit? ==> Trimmed(LexNext(c, skip).step.token)
  {
  }

  /** Every value `tokenise` returns is stripped. */
  lemma {:induction false} TokenStreamTrimmed(c: Cursor, skip: bool)
    ensures TokenStream(c, skip).Success? ==>
      forall i :: 0 <= i < |TokenStream(c, skip).value| ==> Trimmed(TokenStream(c, skip).value[i])
    decreases Measure(c, skip)
  {
    var r := LexNext(c, skip);
    if r.step.Emit? {
      LexNextTrimmed(c, skip);
      TokenStreamTrimmed(r.cursor, r.skip);
    }
  }

  // ---------------------------------------------------------------------
  // Examples

  /** The statements of a four-statement configuration: an id, a mode, a path and an action. */
  const FourStatements: seq<Statement> := [
    IdStatement("1", false, ""), ModeStatement(" ", "dir"),
    PathStatement(" ", "/some/path"), ActionStatement(" ", "string")
  ]

  const FourTokens: seq<Token> := [Id(1, None), Mode("dir", None), Path("/some/path", None), Action("string", None)]

  lemma FourStatementsWellFormed()
    ensures AllWellFormed(FourStatements)
  {
  }

  lemma FourStatementsTokens()
    ensures AllWellFormed(FourStatements) && ExpectedTokens(FourStatements) == FourTokens
  {
    FourStatementsWellFormed();
    var e := ExpectedTokens(FourStatements);
    assert e[0] == FourTokens[0];
    assert e[1] == FourTokens[1];
    assert e[2] == FourTokens[2];
    assert e[3] == FourTokens[3];
  }

  lemma StatementsCons(st: Statement, stmts: seq<Statement>, g: string, gaps: seq<string>)
    requires |gaps| == |stmts|
    ensures Statements([st] + stmts, [g] + gaps) == Write(st, g + Statements(stmts, gaps))
  {
    assert ([st] + stmts)[1..] == stmts;
    assert ([g] + gaps)[1..] == gaps;
  }

  lemma WritePathAs(pad: string, p: string, e: string, after: string)
    requires Escape(p) == e
    ensures Write(PathStatement(pad, p), after) == "#" + ("path:" + (pad + (e + after)))
  {
  }

  lemma WriteId(after: string)
    ensures Write(FourStatements[0], after) == "#1" + after
  {
  }

  lemma WriteMode(after: string)
    ensures Write(FourStatements[1], after) == "#mode: dir" + after
  {
  }

  lemma WritePath(after: string)
    ensures Write(FourStatements[2], after) == "#path: /some/path" + after
  {
    EscapePlain("/some/path");
    WritePathAs(" ", "/some/path", "/some/path", after);
    PathText(after);
  }

  lemma PathText(after: string)
    ensures "#" + ("path:" + (" " + ("/some/path" + after))) == "#path: /some/path" + after
  {
  }

  lemma WriteAction(after: string)
    ensures Write(FourStatements[3], after) == "#action: string" + after
  {
  }

  lemma Flatten8(a: string, b: string, c: string, d: string, e: string, f: string, g: string, h: string)
    ensures a + (b + (c + (d + (e + (f + (g + h)))))) == a + b + c + d + e + f + g + h
  {
    AppendAssoc(a, b, c + (d + (e + (f + (g + h)))));
    AppendAssoc(a + b, c, d + (e + (f + (g + h))));
    AppendAssoc(a + b + c, d, e + (f + (g + h)));
    AppendAssoc(a + b + c + d, e, f + (g + h));
    AppendAssoc(a + b + c + d + e, f, g + h);
    AppendAssoc(a + b + c + d + e + f, g, h);
  }

  /** The four statements written out with the gaps `g0` to `g3` after them. */
  lemma {:induction false} FourLayout(g0: string, g1: string, g2: string, g3: string)
    ensures Layout("", FourStatements, [g0, g1, g2, g3])
         == "#1" + g0 + "#mode: dir" + g1 + "#path: /some/path" + g2 + "#action: string" + g3
  {
    var s0, s1, s2, s3 := FourStatements[0], FourStatements[1], FourStatements[2], FourStatements[3];
    assert FourStatements == [s0, s1, s2, s3];
    ConsDisplay(s0, s1, s2, s3);
    ConsDisplay(g0, g1, g2, g3);
    var x3 := Statements([s3], [g3]);
    assert x3 == "#action: string" + g3 by {
      StatementsCons(s3, [], g3, []);
      EmptyAppend(g3);
      WriteAction(g3);
    }
    var x2 := Statements([s2, s3], [g2, g3]);
    assert x2 == "#path: /some/path" + (g2 + x3) by {
      StatementsCons(s2, [s3], g2, [g3]);
      WritePath(g2 + x3);
    }
    var x1 := Statements([s1, s2, s3], [g1, g2, g3]);
    assert x1 == "#mode: dir" + (g1 + x2) by {
      StatementsCons(s1, [s2, s3], g1, [g2, g3]);
      WriteMode(g1 + x2);
    }
    assert Statements(FourStatements, [g0, g1, g2, g3]) == "#1" + (g0 + x1) by {
      StatementsCons(s0, [s1, s2, s3], g0, [g1, g2, g3]);
      WriteId(g0 + x1);
    }
    EmptyAppend(Statements(FourStatements, [g0, g1, g2, g3]));
    Flatten8("#1", g0, "#mode: dir", g1, "#path: /some/path", g2, "#action: string", g3);
  }

  /** The displays of four elements, taken apart from the front. */
  lemma ConsDisplay<T>(a: T, b: T, c: T, d: T)
    ensures [d] + [] == [d] && [c] + [d] == [c, d] && [b] + [c, d] == [b, c, d] && [a] + [b, c, d] == [a, b, c, d]
  {
  }

  lemma FourSpaced(g0: string, g1: string, g2: string, g3: string)
    requires AllSpace(g0) && AllSpace(g1) && AllSpace(g2) && AllSpace(g3)
    ensures Spaced([g0, g1, g2, g3])
  {
  }

  /** One statement per line, trailing blanks after the path. */
  lemma MultiLineExample(text: string)
    requires text == "#1" + "\n" + "#mode: dir" + "\n" + "#path: /some/path" + "  \n" + "#action: string" + "\n"
    ensures TokensOf(text).Success? && Unplaced(TokensOf(text).value) == FourTokens
  {
    FourStatementsTokens();
    FourLayout("\n", "\n", "  \n", "\n");
    FourSpaced("\n", "\n", "  \n", "\n");
    LayoutTokens("", FourStatements, ["\n", "\n", "  \n", "\n"]);
  }

  /** The same statements on one line: the same tokens. */
  lemma SingleLineExample(text: string)
    requires text == "#1" + "" + "#mode: dir" + "" + "#path: /some/path" + "  " + "#action: string" + ""
    ensures TokensOf(text).Success? && Unplaced(TokensOf(text).value) == FourTokens
  {
    FourStatementsTokens();
    FourLayout("", "", "  ", "");
    FourSpaced("", "", "  ", "");
    LayoutTokens("", FourStatements, ["", "", "  ", ""]);
  }

  /** A single statement with nothing around it lexes to its token. */
  lemma OneStatement(st: Statement)
    requires WellFormed(st)
    ensures TokensOf(Write(st, "")).Success?
    ensures Unplaced(TokensOf(Write(st, "")).value) == [Expected(st)]
  {
    assert AllWellFormed([st]);
    assert Spaced([""]);
    assert Statements([st], [""]) == Write(st, "" + Statements([], []));
    EmptyAppend("");
    EmptyAppend(Statements([st], [""]));
    LayoutTokens("", [st], [""]);
    assert ExpectedTokens([st])[0] == Expected(st);
  }

  /** `#123`: a bare id. */
  lemma BareIdExample(text: string)
    requires text == "#123"
    ensures TokensOf(text).Success? && Unplaced(TokensOf(text).value) == [Id(123, None)]
  {
    var st := IdStatement("123", false, "");
    assert "123"[..2] == "12" && "12"[..1] == "1" && "1"[..0] == "";
    assert DecimalValue("123") == 123;
    assert WellFormed(st);
    assert Write(st, "") == "#123";
    OneStatement(st);
  }

  /** `#id: 456`: a labelled id. */
  lemma LabelledIdExample(text: string)
    requires text == "#id: 456"
    ensures TokensOf(text).Success? && Unplaced(TokensOf(text).value) == [Id(456, None)]
  {
    var st := IdStatement("456", true, " ");
    assert "456"[..2] == "45" && "45"[..1] == "4" && "4"[..0] == "";
    assert DecimalValue("456") == 456;
    assert WellFormed(st);
    assert Write(st, "") == "#id: 456";
    OneStatement(st);
  }

  /** A path ending in `#`: the `#` is written escaped. */
  lemma EscapeTrailingMarker(p: string)
    requires NEW_STATEMENT_CHAR !in p && STRING_ESCAPE_CHAR !in p
    ensures Escape(p + "#") == p + "\\#"
  {
    EscapeAppend(p, "#");
    EscapePlain(p);
    assert "#"[1..] == [];
  }

  /**
   * A path whose last character is an escaped `#`: the `#` is part of the
   * value and does not start a statement.
   */
  lemma EscapedMarkerPath(p: string)
    requires p != [] && NoSurroundingSpace(p)
    requires NEW_STATEMENT_CHAR !in p && STRING_ESCAPE_CHAR !in p
    ensures var text := "#path: " + p + "\\#";
      TokensOf(text).Success? && Unplaced(TokensOf(text).value) == [Path(p + "#", None)]
  {
    var st := PathStatement(" ", p + "#");
    EscapeTrailingMarker(p);
    WritePathAs(" ", p + "#", p + "\\#", "");
    EmptyAppend(p + "\\#");
    AppendAssoc(p, "\\", "#");
    assert "#" + ("path:" + (" " + (p + "\\#"))) == "#path: " + p + "\\#";
    assert WellFormed(st);
    OneStatement(st);
  }

  /** `#path: /some/file\#` stands for the path `/some/file#`. */
  lemma EscapedMarkerExample()
    ensures var text := "#path: " + "/some/file" + "\\#";
      TokensOf(text).Success? && Unplaced(TokensOf(text).value) == [Path("/some/file" + "#", None)]
  {
    EscapedMarkerPath("/some/file");
  }

  /** A path ending in a backslash: the backslash is written doubled. */
  lemma EscapeTrailingBackslash(p: string)
    requires NEW_STATEMENT_CHAR !in p && STRING_ESCAPE_CHAR !in p
    ensures Escape(p + "\\") == p + "\\\\"
  {
    EscapeAppend(p, "\\");
    EscapePlain(p);
    assert "\\"[1..] == [];
  }

  /** Two statements with no gaps: the first written out in front of the second. */
  lemma TwoStatementsText(s0: Statement, s1: Statement)
    ensures Layout("", [s0, s1], ["", ""]) == Write(s0, Write(s1, ""))
  {
    assert [s0, s1] == [s0] + [s1] && ["", ""] == [""] + [""];
    StatementsCons(s1, [], "", []);
    StatementsCons(s0, [s1], "", [""]);
    EmptyAppend("");
    EmptyAppend(Write(s1, ""));
    EmptyAppend(Statements([s0, s1], ["", ""]));
  }

  lemma PathModeText(p: string, e: string, m: string)
    requires e == p + "\\\\"
    ensures "#" + ("path:" + (" " + (e + m))) == "#path: " + p + "\\\\" + m
  {
  }

  /**
   * A path whose last character is an escaped backslash, then a mode: the
   * doubled backslash stands for one, and the `#` after it starts the next
   * statement.
   */
  lemma EscapedBackslashPath(p: string)
    requires p != [] && !IsSpace(p[0])
    requires NEW_STATEMENT_CHAR !in p && STRING_ESCAPE_CHAR !in p
    ensures var text := "#path: " + p + "\\\\" + "#mode: dir";
      TokensOf(text).Success? && Unplaced(TokensOf(text).value) == [Path(p + "\\", None), Mode("dir", None)]
  {
    var text := "#path: " + p + "\\\\" + "#mode: dir";
    var s0 := PathStatement(" ", p + "\\");
    var s1 := FourStatements[1];
    assert Layout("", [s0, s1], ["", ""]) == text by {
      TwoStatementsText(s0, s1);
      assert Write(s1, "") == "#mode: dir" by {
        WriteMode("");
        EmptyAppend("#mode: dir");
      }
      EscapeTrailingBackslash(p);
      WritePathAs(" ", p + "\\", p + "\\\\", "#mode: dir");
      PathModeText(p, p + "\\\\", "#mode: dir");
    }
    BackslashPathWellFormed(p);
    FourStatementsWellFormed();
    TwoExpected(s0, s1);
    assert Spaced(["", ""]);
    LayoutTokens("", [s0, s1], ["", ""]);
  }

  lemma BackslashPathWellFormed(p: string)
    requires p != [] && !IsSpace(p[0])
    ensures WellFormed(PathStatement(" ", p + "\\"))
  {
    assert (p + "\\")[0] == p[0];
  }

  /** The tokens two well-formed statements stand for. */
  lemma TwoExpected(s0: Statement, s1: Statement)
    requires WellFormed(s0) && WellFormed(s1)
    ensures AllWellFormed([s0, s1]) && ExpectedTokens([s0, s1]) == [Expected(s0), Expected(s1)]
  {
  }

  /** `#path: /some/file\\#mode: dir`: the path `/some/file\`, then the mode `dir`. */
  lemma EscapedBackslashExample()
    ensures var text := "#path: " + "/some/file" + "\\\\" + "#mode: dir";
      TokensOf(text).Success?
      && Unplaced(TokensOf(text).value) == [Path("/some/file" + "\\", None), Mode("dir", None)]
  {
    EscapedBackslashPath("/some/file");
  }

  /** A statement without any `#` in the text: one error token and nothing more. */
  lemma NoMarkerAtAll(c: Cursor)
    requires c.rest != [] && !IsSpace(c.rest[0]) && NEW_STATEMENT_CHAR !in c.rest
    ensures TokenStream(c, false) == Success([ErrorToken(MISSING_MARKER_MESSAGE, None)])
  {
    SplitAt(c.rest, [], c.rest);
    SkipSpacesOver(c, [], c.rest);
    MoveNothing(c);
    MissingMarker(c);
    var k := FirstIn(c.rest, {NEW_STATEMENT_CHAR});
    assert k == |c.rest|;
    assert Move(c, k).rest == [];
    NoTokensIffBlank(Move(c, k));
    assert [ErrorToken(MISSING_MARKER_MESSAGE, None)] + [] == [ErrorToken(MISSING_MARKER_MESSAGE, None)];
  }

  /** `123`: a missing `#` gives a single error token. */
  lemma NoMarkerExample(text: string)
    requires text == "123"
    ensures TokensOf(text) == Success([ErrorToken(MISSING_MARKER_MESSAGE, None)])
  {
    NoMarkerAtAll(Cursor(text, FilePosition(0, 0)));
  }

  /** `#`: a `#` without a key gives a single error token, placed right after the `#`. */
  lemma LoneMarkerExample(text: string)
    requires text == "#"
    ensures TokensOf(text) == Success([ErrorToken(UNKNOWN_TOKEN_MESSAGE, Some(FilePosition(1, 0)))])
  {
    var c := Cursor(text, FilePosition(0, 0));
    assert c.rest == "" + ("#" + "");
    UnknownStatement(c, "", "");
    var after := Move(c, 1);
    assert after.rest == [];
    assert c.rest[..1] == "#" && "#"[..0] == [];
    assert after.pos == FilePosition(1, 0);
    NoTokensIffBlank(after);
    var t := ErrorToken(UNKNOWN_TOKEN_MESSAGE, Some(FilePosition(1, 0)));
    assert [t] + [] == [t];
  }
}
