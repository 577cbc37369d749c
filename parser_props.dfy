/**
 * What the AQC parser guarantees: the records it returns are complete and
 * stored under their own ids, their ids are exactly the ids of the input,
 * any error token or incomplete record makes the parse fail, token positions
 * play no part, and parsing the lexer's output token by token is the same as
 * parsing the token list the lexer produces.
 */
module ParserProperties {
  import opened Wrappers
  import opened Errors
  import opened Text
  import opened Reader
  import opened Configuration
  import Tokens
  import Lexer
  import LexerProperties
  import opened Parser

  // ---------------------------------------------------------------------
  // Mode and action names

  /** Every mode reads back from its own name, `Unknown` included. */
  lemma ModeNameRoundTrip(m: FileMode)
    ensures ModeFromString(m.Value()) == m
  {
  }

  /** Every action reads back from its own name, `Unknown` included. */
  lemma ActionNameRoundTrip(a: Action)
    ensures ActionFromString(a.Value()) == a
  {
  }

  // ---------------------------------------------------------------------
  // The records stored

  /** Every stored record is complete, stored under its own id and not tied to a file yet. */
  predicate ValidConfigurations(m: map<int, Config>) {
    forall id :: id in m ==> m[id].configId == id && IsComplete(m[id]) && m[id].pathToConfig.None?
  }

  /** The parser's state: valid records, and a record under construction without a file. */
  predicate StateValid(st: ParserState) {
    ValidConfigurations(st.configurations) && (st.current.Some? ==> st.current.value.pathToConfig.None?)
  }

  /** The ids the state already accounts for: those stored and the one being built. */
  function KnownIds(st: ParserState): set<int> {
    st.configurations.Keys + (if st.current.Some? then {st.current.value.configId} else {})
  }

  /** The ids the `Id` tokens of `ts` carry. */
  function IdsOf(ts: seq<Tokens.Token>): (ids: set<int>)
    ensures forall i :: 0 <= i < |ts| && ts[i].Id? ==> ts[i].id in ids
    ensures forall id :: id in ids ==> exists i :: 0 <= i < |ts| && ts[i].Id? && ts[i].id == id
  {
    if ts == [] then {}
    else
      var rest := IdsOf(ts[1..]);
      assert forall i :: 1 <= i < |ts| ==> ts[i] == ts[1..][i - 1];
      (if ts[0].Id? then {ts[0].id} else {}) + rest
  }

  /** Storing a record keeps the state valid and adds exactly the record's id. */
  lemma FinalizeValid(st: ParserState)
    requires StateValid(st)
    ensures Finalize(st).Success? <==> st.current.Some? && IsComplete(st.current.value)
    ensures Finalize(st).Success? ==>
      StateValid(Finalize(st).value) && Finalize(st).value.configurations.Keys == KnownIds(st)
  {
  }

  /** One token keeps the state valid and accounts for the id it carries, if any. */
  lemma ConsumeValid(st: ParserState, tok: Tokens.Token)
    requires StateValid(st)
    ensures Consume(st, tok).Success? ==> StateValid(Consume(st, tok).value)
    ensures Consume(st, tok).Success? ==>
      KnownIds(Consume(st, tok).value) == KnownIds(st) + (if tok.Id? then {tok.id} else {})
    ensures Consume(st, tok).Success? && tok.Id? ==> Consume(st, tok).value.current == Some(NewConfig(tok.id))
  {
    if tok.Id? && st.current.Some? {
      FinalizeValid(st);
    }
  }

  /**
   * A successful parse returns valid records, and their ids are exactly the
   * ids already known plus the ids of the `Id` tokens.
   */
  lemma {:induction false} ParseTokensValid(st: ParserState, ts: seq<Tokens.Token>)
    requires StateValid(st)
    ensures ParseTokens(st, ts).Success? ==>
      ValidConfigurations(ParseTokens(st, ts).value)
      && ParseTokens(st, ts).value.Keys == KnownIds(st) + IdsOf(ts)
    decreases |ts|
  {
    if ts == [] {
      FinalizeValid(st);
    } else {
      ConsumeValid(st, ts[0]);
      if Consume(st, ts[0]).Success? {
        ParseTokensValid(Consume(st, ts[0]).value, ts[1..]);
      }
    }
  }

  /** From the start: the records returned are valid and keyed exactly by the input's ids. */
  lemma ParseKeys(ts: seq<Tokens.Token>)
    ensures ParseTokens(InitialState, ts).Success? ==>
      ValidConfigurations(ParseTokens(InitialState, ts).value)
      && ParseTokens(InitialState, ts).value.Keys == IdsOf(ts)
  {
    ParseTokensValid(InitialState, ts);
  }

  /** Every record the parse returns is complete: all three keys were given. */
  lemma ParsedRecordsComplete(ts: seq<Tokens.Token>, id: int)
    requires ParseTokens(InitialState, ts).Success? && id in ParseTokens(InitialState, ts).value
    ensures var c := ParseTokens(InitialState, ts).value[id];
      c.configId == id && c.mode.Bool() && c.action.Bool() && c.actionPath.Some? && c.actionPath.value != []
  {
    ParseKeys(ts);
  }

  // ---------------------------------------------------------------------
  // Failures

  /** No input at all: there is no record to store. */
  lemma EmptyInputFails()
    ensures ParseTokens(InitialState, []) == Failure(ParserError(NO_CONFIGURATION_MESSAGE))
  {
  }

  /** A successful parse has seen no error token. */
  lemma {:induction false} SuccessHasNoErrorToken(st: ParserState, ts: seq<Tokens.Token>)
    ensures ParseTokens(st, ts).Success? ==> forall i :: 0 <= i < |ts| ==> !ts[i].ErrorToken?
    decreases |ts|
  {
    if ts != [] && Consume(st, ts[0]).Success? {
      SuccessHasNoErrorToken(Consume(st, ts[0]).value, ts[1..]);
      assert forall i :: 1 <= i < |ts| ==> ts[i] == ts[1..][i - 1];
    }
  }

  /** A successful parse from the start returns at least one record. */
  lemma SuccessHasRecords(ts: seq<Tokens.Token>)
    ensures ParseTokens(InitialState, ts).Success? ==>
      ParseTokens(InitialState, ts).value != map[]
      && exists i :: 0 <= i < |ts| && ts[i].Id?
  {
    ParseKeys(ts);
    if ParseTokens(InitialState, ts).Success? && ts == [] {
      EmptyInputFails();
    }
    if ParseTokens(InitialState, ts).Success? && ts != [] {
      ParseFirstIsId(ts);
      assert ts[0].id in ParseTokens(InitialState, ts).value;
    }
  }

  /** From the start, the first token must be an id: a key before any id has no record to go into. */
  lemma ParseFirstIsId(ts: seq<Tokens.Token>)
    requires ts != []
    ensures !ts[0].Id? && !ts[0].ErrorToken? ==> ParseTokens(InitialState, ts).Failure?
    ensures ts[0].Path? ==> ParseTokens(InitialState, ts) == Failure(AttributeError("action_path"))
    ensures ts[0].Mode? ==> ParseTokens(InitialState, ts) == Failure(AttributeError("mode"))
    ensures ts[0].Action? ==> ParseTokens(InitialState, ts) == Failure(AttributeError("action"))
    ensures ParseTokens(InitialState, ts).Success? ==> ts[0].Id?
  {
  }

  // ---------------------------------------------------------------------
  // Positions do not matter

  lemma ConsumeIgnoresPosition(st: ParserState, tok: Tokens.Token)
    ensures Consume(st, tok) == Consume(st, Tokens.WithoutPosition(tok))
  {
  }

  /** Parsing looks at the tokens' values only, never at their positions. */
  lemma {:induction false} ParseIgnoresPositions(st: ParserState, ts: seq<Tokens.Token>)
    ensures ParseTokens(st, ts) == ParseTokens(st, LexerProperties.Unplaced(ts))
    decreases |ts|
  {
    var us := LexerProperties.Unplaced(ts);
    if ts != [] {
      ConsumeIgnoresPosition(st, ts[0]);
      assert us[0] == Tokens.WithoutPosition(ts[0]);
      assert us[1..] == LexerProperties.Unplaced(ts[1..]);
      if Consume(st, ts[0]).Success? {
        ParseIgnoresPositions(Consume(st, ts[0]).value, ts[1..]);
      }
    }
  }

  // ---------------------------------------------------------------------
  // Pulling tokens from the lexer

  /**
   * Parsing while pulling tokens from the lexer agrees with lexing the
   * whole text first and parsing the tokens: whenever the lexer gets through
   * the text, and in particular whenever the parse succeeds.
   */
  lemma {:induction false} ParseFromTokens(c: Cursor, skip: bool, st: ParserState)
    ensures ParseFrom(c, skip, st).Success? ==> Lexer.TokenStream(c, skip).Success?
    ensures Lexer.TokenStream(c, skip).Success? ==>
      ParseFrom(c, skip, st) == ParseTokens(st, Lexer.TokenStream(c, skip).value)
    decreases Lexer.Measure(c, skip)
  {
    var r := Lexer.LexNext(c, skip);
    if r.step.Emit? {
      var tok := r.step.token;
      var rest := Lexer.TokenStream(r.cursor, r.skip);
      if Consume(st, tok).Success? {
        ParseFromTokens(r.cursor, r.skip, Consume(st, tok).value);
      }
      if rest.Success? {
        assert ([tok] + rest.value)[0] == tok;
        assert ([tok] + rest.value)[1..] == rest.value;
      }
    }
  }

  /**
   * `parse` of a whole text: the records the text's tokens describe; a blank
   * text has none.
   */
  lemma ParseText(text: string)
    ensures Lexer.TokensOf(text).Success? ==>
      Parse(text) == ParseTokens(InitialState, LexerProperties.Unplaced(Lexer.TokensOf(text).value))
    ensures AllSpace(text) ==> Parse(text) == Failure(ParserError(NO_CONFIGURATION_MESSAGE))
  {
    var c := Cursor(text, FilePosition(0, 0));
    ParseFromTokens(c, false, InitialState);
    if Lexer.TokensOf(text).Success? {
      ParseIgnoresPositions(InitialState, Lexer.TokensOf(text).value);
    }
    LexerProperties.NoTokensIffBlank(c);
  }

  /**
   * `#id:` with no digits after it: the lexer's failed integer conversion
   * ends `parse` with the same error, whatever comes after.
   */
  lemma LabelledIdWithoutDigitsParse(text: string, pad: string, v: string)
    requires text == "#id:" + pad + v && AllSpace(pad)
    requires v == [] || (!IsSpace(v[0]) && !IsDigit(v[0]))
    ensures Parse(text) == Failure(ValueError(""))
  {
    var c := Cursor(text, FilePosition(0, 0));
    assert text == [] + ("#" + ("id:" + (pad + v)));
    LexerProperties.LabelledIdWithoutDigits(c, [], pad, v);
  }

  // ---------------------------------------------------------------------
  // Examples

  /** The tokens of one record: its id, then its path, mode and action. */
  function Record(id: int, path: string, mode: string, action: string): seq<Tokens.Token> {
    [Tokens.Id(id, None), Tokens.Path(path, None), Tokens.Mode(mode, None), Tokens.Action(action, None)]
  }

  /** What the record `Record(id, path, mode, action)` stands for. */
  function RecordConfig(id: int, path: string, mode: string, action: string): Config {
    Config(id, None, ModeFromString(mode), ActionFromString(action), Some(Split(path)))
  }

  /** A record followed by more tokens: it becomes the record under construction. */
  lemma {:induction false} ParseRecord(st: ParserState, id: int, path: string, mode: string, action: string, rest: seq<Tokens.Token>)
    requires st.current.None? || IsComplete(st.current.value)
    ensures var stored := if st.current.Some? then st.configurations[st.current.value.configId := st.current.value] else st.configurations;
      ParseTokens(st, Record(id, path, mode, action) + rest)
      == ParseTokens(ParserState(Some(RecordConfig(id, path, mode, action)), stored), rest)
  {
    var ts := Record(id, path, mode, action) + rest;
    var stored := if st.current.Some? then st.configurations[st.current.value.configId := st.current.value] else st.configurations;
    var c0 := NewConfig(id);
    var c1 := c0.(actionPath := Some(Split(path)));
    var c2 := c1.(mode := ModeFromString(mode));
    assert ts[0] == Tokens.Id(id, None);
    assert ParseTokens(st, ts) == ParseTokens(ParserState(Some(c0), stored), ts[1..]);
    assert ts[1..][0] == Tokens.Path(path, None);
    assert ParseTokens(st, ts) == ParseTokens(ParserState(Some(c1), stored), ts[2..]) by {
      assert ts[1..][1..] == ts[2..];
    }
    assert ts[2..][0] == Tokens.Mode(mode, None);
    assert ParseTokens(st, ts) == ParseTokens(ParserState(Some(c2), stored), ts[3..]) by {
      assert ts[2..][1..] == ts[3..];
    }
    assert ts[3..][0] == Tokens.Action(action, None);
    assert ts[3..][1..] == rest;
  }

  /** One complete record: it is the only one returned. */
  lemma OneRecord(id: int, path: string, mode: string, action: string)
    requires ModeFromString(mode).Bool() && ActionFromString(action).Bool()
    ensures ParseTokens(InitialState, Record(id, path, mode, action))
         == Success(map[id := RecordConfig(id, path, mode, action)])
  {
    ParseRecord(InitialState, id, path, mode, action, []);
    assert Record(id, path, mode, action) + [] == Record(id, path, mode, action);
  }

  /**
   * Two complete records: both are returned; when they share an id the
   * later one replaces the earlier.
   */
  lemma TwoRecords(id1: int, path1: string, mode1: string, action1: string,
                   id2: int, path2: string, mode2: string, action2: string)
    requires ModeFromString(mode1).Bool() && ActionFromString(action1).Bool()
    requires ModeFromString(mode2).Bool() && ActionFromString(action2).Bool()
    ensures ParseTokens(InitialState, Record(id1, path1, mode1, action1) + Record(id2, path2, mode2, action2))
         == Success(map[id1 := RecordConfig(id1, path1, mode1, action1)][id2 := RecordConfig(id2, path2, mode2, action2)])
  {
    var second := Record(id2, path2, mode2, action2);
    ParseRecord(InitialState, id1, path1, mode1, action1, second);
    var st := ParserState(Some(RecordConfig(id1, path1, mode1, action1)), map[]);
    ParseRecord(st, id2, path2, mode2, action2, []);
    assert second + [] == second;
  }

  /** A text without ", " is a single path. */
  lemma NoCommaSinglePath(p: string)
    requires ',' !in p
    ensures Split(p) == [p]
  {
    assert NoSeparator(p) by {
      forall i | 0 <= i < |p|
        ensures !SeparatorAt(p, i)
      {
        assert p[i] in p;
      }
    }
    SplitWithoutSeparator(p);
  }

  /** Two paths separated by ", " are two entries. */
  lemma TwoPaths(a: string, b: string)
    requires ',' !in a && ',' !in b
    ensures Split(a + ", " + b) == [a, b]
  {
    NoCommaSinglePath(a);
    SplitWithoutSeparator(a);
    SplitAtSeparator(a, b);
    NoCommaSinglePath(b);
  }

  /** A complete record whose path lists two paths. */
  lemma ValidRecordExample()
    ensures ParseTokens(InitialState, Record(1, "/path/to/file" + ", " + "/another/path", "files", "count"))
         == Success(map[1 := Config(1, None, Files, Count, Some(["/path/to/file", "/another/path"]))])
  {
    OneRecord(1, "/path/to/file" + ", " + "/another/path", "files", "count");
    TwoPaths("/path/to/file", "/another/path");
  }

  /** Two records with different ids: both are returned. */
  lemma TwoRecordsExample(p1: string, p2: string, m1: string, a1: string, m2: string, a2: string)
    requires p1 == "/first/path" && p2 == "/second/path"
    requires m1 == "files" && a1 == "count" && m2 == "dir" && a2 == "replace"
    ensures ParseTokens(InitialState, Record(1, p1, m1, a1) + Record(2, p2, m2, a2))
         == Success(map[1 := Config(1, None, Files, Count, Some([p1])),
                        2 := Config(2, None, Dir, Replace, Some([p2]))])
  {
    SinglePaths(p1, p2);
    TwoRecords(1, p1, m1, a1, 2, p2, m2, a2);
  }

  /** The two test paths hold no comma, so each is a single path. */
  lemma SinglePaths(p1: string, p2: string)
    requires p1 == "/first/path" && p2 == "/second/path"
    ensures Split(p1) == [p1] && Split(p2) == [p2]
  {
    NoCommaSinglePath(p1);
    NoCommaSinglePath(p2);
  }

  /** A record without an action, whatever its path. */
  lemma MissingActionExample(p: string)
    ensures ParseTokens(InitialState, [Tokens.Id(2, None), Tokens.Path(p, None), Tokens.Mode("dir", None)])
         == Failure(ParserError(MISSING_KEYS_MESSAGE + "action"))
  {
    var ts := [Tokens.Id(2, None), Tokens.Path(p, None), Tokens.Mode("dir", None)];
    var c0 := NewConfig(2);
    var c1 := c0.(actionPath := Some(Split(p)));
    var c2 := c1.(mode := ModeFromString("dir"));
    assert ParseTokens(InitialState, ts) == ParseTokens(ParserState(Some(c0), map[]), ts[1..]);
    assert ts[1..][1..] == ts[2..];
    assert ParseTokens(InitialState, ts) == ParseTokens(ParserState(Some(c1), map[]), ts[2..]);
    assert ts[2..][1..] == [];
    assert ParseTokens(InitialState, ts) == Finish(ParserState(Some(c2), map[]));
    assert MissingKeys(c2) == ["action"];
  }

  /** An error token ends the parse with its message. */
  lemma ErrorTokenExample()
    ensures ParseTokens(InitialState, [Tokens.Id(4, None), Tokens.ErrorToken("Error message", None)])
         == Failure(ParserError("Error message"))
  {
    var ts := [Tokens.Id(4, None), Tokens.ErrorToken("Error message", None)];
    assert ts[1..] == [Tokens.ErrorToken("Error message", None)];
  }

  /** A mode that names no mode leaves the mode unset, whatever the path. */
  lemma InvalidModeExample(p: string)
    ensures ParseTokens(InitialState, [Tokens.Id(5, None), Tokens.Mode("invalid_mode", None),
                                       Tokens.Path(p, None), Tokens.Action("replace", None)])
         == Failure(ParserError(MISSING_KEYS_MESSAGE + "mode"))
  {
    var ts := [Tokens.Id(5, None), Tokens.Mode("invalid_mode", None),
               Tokens.Path(p, None), Tokens.Action("replace", None)];
    var c0 := NewConfig(5);
    var c1 := c0.(mode := ModeFromString("invalid_mode"));
    var c2 := c1.(actionPath := Some(Split(p)));
    var c3 := c2.(action := ActionFromString("replace"));
    assert ParseTokens(InitialState, ts) == ParseTokens(ParserState(Some(c0), map[]), ts[1..]);
    assert ts[1..][1..] == ts[2..];
    assert ParseTokens(InitialState, ts) == ParseTokens(ParserState(Some(c1), map[]), ts[2..]);
    assert ts[2..][1..] == ts[3..];
    assert ParseTokens(InitialState, ts) == ParseTokens(ParserState(Some(c2), map[]), ts[3..]);
    assert ts[3..][1..] == [];
    assert ParseTokens(InitialState, ts) == Finish(ParserState(Some(c3), map[]));
    assert MissingKeys(c3) == ["mode"];
  }

  /** A record with only a path: both other keys are reported, action first. */
  lemma PartialRecordExample()
    ensures ParseTokens(InitialState, [Tokens.Id(6, None), Tokens.Path("/partial/path", None)])
         == Failure(ParserError(MISSING_KEYS_MESSAGE + "action, mode"))
  {
    var ts := [Tokens.Id(6, None), Tokens.Path("/partial/path", None)];
    assert ts[1..] == [Tokens.Path("/partial/path", None)];
    JoinTwoKeys();
  }

  lemma JoinTwoKeys()
    ensures Join(["action", "mode"]) == "action, mode"
  {
    assert ["action", "mode"][1..] == ["mode"];
    assert "action" + Separator + "mode" == "action, mode";
  }

  /** A parse goes on from the state the first token leads to. */
  lemma ParseStep(st: ParserState, tok: Tokens.Token, rest: seq<Tokens.Token>)
    requires Consume(st, tok).Success?
    ensures ParseTokens(st, [tok] + rest) == ParseTokens(Consume(st, tok).value, rest)
  {
    assert ([tok] + rest)[1..] == rest;
  }

  /** A token that sets one key of the record under construction. */
  predicate IsValueToken(t: Tokens.Token) {
    t.Path? || t.Mode? || t.Action?
  }

  /** Two value tokens that set different keys. */
  predicate DifferentKeys(a: Tokens.Token, b: Tokens.Token) {
    IsValueToken(a) && IsValueToken(b) && !(a.Path? && b.Path?) && !(a.Mode? && b.Mode?) && !(a.Action? && b.Action?)
  }

  /** The key a value token sets, set on `c`. */
  function SetKey(c: Config, t: Tokens.Token): Config
    requires IsValueToken(t)
  {
    match t
    case Path(p, _) => c.(actionPath := Some(Split(p)))
    case Mode(m, _) => c.(mode := ModeFromString(m))
    case Action(a, _) => c.(action := ActionFromString(a))
  }

  /** With a record under construction, a value token sets its key and nothing else. */
  lemma ConsumeValue(st: ParserState, t: Tokens.Token)
    requires st.current.Some? && IsValueToken(t)
    ensures Consume(st, t) == Success(st.(current := Some(SetKey(st.current.value, t))))
  {
  }

  /**
   * Two value tokens for different keys can be given in either order: with a
   * record under construction both orders succeed and lead to the same state.
   */
  lemma ConsumeCommutes(st: ParserState, a: Tokens.Token, b: Tokens.Token)
    requires st.current.Some? && DifferentKeys(a, b)
    ensures Consume(st, a).Success? && Consume(Consume(st, a).value, b).Success?
    ensures Consume(st, b).Success? && Consume(Consume(st, b).value, a).Success?
    ensures Consume(Consume(st, a).value, b) == Consume(Consume(st, b).value, a)
  {
    ConsumeValue(st, a);
    ConsumeValue(Consume(st, a).value, b);
    ConsumeValue(st, b);
    ConsumeValue(Consume(st, b).value, a);
  }

  /** The six orders in which the path, mode and action of a record can follow its id. */
  function ValueOrders(path: string, mode: string, action: string): seq<seq<Tokens.Token>> {
    var p, m, a := Tokens.Path(path, None), Tokens.Mode(mode, None), Tokens.Action(action, None);
    [[p, m, a], [p, a, m], [m, p, a], [m, a, p], [a, p, m], [a, m, p]]
  }

  /** Three value tokens after a record has started: the record with their three keys set. */
  lemma ParseThreeValues(st: ParserState, vs: seq<Tokens.Token>)
    requires st.current.Some? && |vs| == 3
    requires IsValueToken(vs[0]) && IsValueToken(vs[1]) && IsValueToken(vs[2])
    ensures ParseTokens(st, vs)
         == Finish(st.(current := Some(SetKey(SetKey(SetKey(st.current.value, vs[0]), vs[1]), vs[2]))))
  {
    var st1 := st.(current := Some(SetKey(st.current.value, vs[0])));
    var st2 := st1.(current := Some(SetKey(st1.current.value, vs[1])));
    var st3 := st2.(current := Some(SetKey(st2.current.value, vs[2])));
    assert vs == [vs[0]] + ([vs[1]] + ([vs[2]] + []));
    ConsumeValue(st, vs[0]);
    ParseStep(st, vs[0], [vs[1]] + ([vs[2]] + []));
    ConsumeValue(st1, vs[1]);
    ParseStep(st1, vs[1], [vs[2]] + []);
    ConsumeValue(st2, vs[2]);
    ParseStep(st2, vs[2], []);
  }

  /** A record whose path, mode and action follow its id in any order: the same single record. */
  lemma RecordAnyOrder(id: int, path: string, mode: string, action: string, vs: seq<Tokens.Token>)
    requires ModeFromString(mode).Bool() && ActionFromString(action).Bool()
    requires vs in ValueOrders(path, mode, action)
    ensures ParseTokens(InitialState, [Tokens.Id(id, None)] + vs) == Success(map[id := RecordConfig(id, path, mode, action)])
  {
    var st := ParserState(Some(NewConfig(id)), map[]);
    ParseStep(InitialState, Tokens.Id(id, None), vs);
    ParseThreeValues(st, vs);
  }

  /** The tokens of the four-statement text: one complete record. */
  lemma FourTokensRecord()
    ensures ParseTokens(InitialState, LexerProperties.FourTokens)
         == Success(map[1 := Config(1, None, Dir, String, Some(["/some/path"]))])
  {
    var vs := [Tokens.Mode("dir", None), Tokens.Path("/some/path", None), Tokens.Action("string", None)];
    assert vs == ValueOrders("/some/path", "dir", "string")[2];
    assert LexerProperties.FourTokens == [Tokens.Id(1, None)] + vs;
    RecordAnyOrder(1, "/some/path", "dir", "string", vs);
    NoCommaSinglePath("/some/path");
  }

  /** `parse` of a whole four-statement text, one statement per line. */
  lemma FourStatementTextExample(text: string)
    requires text == "#1" + "\n" + "#mode: dir" + "\n" + "#path: /some/path" + "  \n" + "#action: string" + "\n"
    ensures Parse(text) == Success(map[1 := Config(1, None, Dir, String, Some(["/some/path"]))])
  {
    LexerProperties.MultiLineExample(text);
    ParseText(text);
    FourTokensRecord();
  }
}
