/**
 * The AQC parser: it turns the lexer's tokens into job configurations keyed by
 * id. An `Id` token starts a record; `path:`, `mode:` and `action:` tokens
 * fill in the record being built; a record is checked and stored when the
 * next `Id` arrives and at the end of the input. An error token, a record
 * missing a required key, or an input without any record aborts the parse.
 *
 * `Consume`, `Finish` and `ParseTokens` describe the parse over a list of
 * tokens; `ParseFrom` describes it over the text the lexer reads, pulling one
 * token at a time; the class `Parser` is proved to compute `ParseFrom`.
 */
module Parser {
  import opened Wrappers
  import opened Errors
  import opened Text
  import opened Reader
  import opened Configuration
  import Tokens
  import Lexer

  const NO_CONFIGURATION_MESSAGE: string := "No valid configuration found"
  const MISSING_KEYS_MESSAGE: string := "Missing required keys: "

  /** The record being built, if any, and the records stored so far. */
  datatype ParserState = ParserState(current: Option<Config>, configurations: map<int, Config>)

  /** A new parser has no record and has stored nothing. */
  const InitialState: ParserState := ParserState(None, map[])

  /** `_mode_from_string`: the mode a `mode:` value names, `Unknown` for anything else. */
  function ModeFromString(mode: string): (m: FileMode)
    ensures m.Bool() <==> mode == "dir" || mode == "files"
    ensures m.Bool() ==> m.Value() == mode
  {
    match mode
    case "dir" => FileMode.Dir
    case "files" => FileMode.Files
    case _ => FileMode.Unknown
  }

  /** `_action_from_string`: the action an `action:` value names, `Unknown` for anything else. */
  function ActionFromString(action: string): (a: Action)
    ensures a.Bool() <==> action == "string" || action == "count" || action == "replace"
    ensures a.Bool() ==> a.Value() == action
  {
    match action
    case "string" => Action.String
    case "count" => Action.Count
    case "replace" => Action.Replace
    case _ => Action.Unknown
  }

  /** Where a key stands in the order missing keys are reported in. */
  function KeyRank(key: string): int {
    if key == "action" then 0 else if key == "mode" then 1 else if key == "path" then 2 else 3
  }

  /** Whether `action_path` is falsy: unset, or an empty list. */
  predicate PathMissing(c: Config) {
    c.actionPath.None? || c.actionPath.value == []
  }

  /** The required keys a record lacks, as `_check_current_config` lists them. */
  function MissingKeys(c: Config): (keys: seq<string>)
    ensures keys == [] <==> IsComplete(c)
    ensures "action" in keys <==> !c.action.Bool()
    ensures "mode" in keys <==> !c.mode.Bool()
    ensures "path" in keys <==> PathMissing(c)
    ensures forall i :: 0 <= i < |keys| ==> KeyRank(keys[i]) < 3
    ensures forall i :: 0 < i < |keys| ==> KeyRank(keys[i - 1]) < KeyRank(keys[i])
  {
    (if !c.action.Bool() then ["action"] else [])
    + (if !c.mode.Bool() then ["mode"] else [])
    + (if PathMissing(c) then ["path"] else [])
  }

  /**
   * `_check_current_config`: fails without a record, and fails naming the
   * missing keys when the record lacks any.
   */
  function CheckConfig(current: Option<Config>): (o: Outcome<Error>)
    ensures o.Pass? <==> current.Some? && IsComplete(current.value)
    ensures current.None? ==> o == Fail(ParserError(NO_CONFIGURATION_MESSAGE))
    ensures current.Some? && o.Fail? ==>
      o == Fail(ParserError(MISSING_KEYS_MESSAGE + Join(MissingKeys(current.value))))
  {
    match current
    case None => Fail(ParserError(NO_CONFIGURATION_MESSAGE))
    case Some(c) =>
      var keys := MissingKeys(c);
      if |keys| > 0 then Fail(ParserError(MISSING_KEYS_MESSAGE + Join(keys))) else Pass
  }

  /** `_build_current_config`: check the record, then store it under its id. */
  function Finalize(st: ParserState): Result<ParserState, Error> {
    match CheckConfig(st.current)
    case Fail(e) => Failure(e)
    case Pass =>
      var c := st.current.value;
      Success(st.(configurations := st.configurations[c.configId := c]))
  }

  /** One round of `parse`'s loop: the state after token `tok`. */
  function Consume(st: ParserState, tok: Tokens.Token): Result<ParserState, Error> {
    match tok
    case Id(id, _) =>
      if st.current.Some? then
        match Finalize(st)
        case Failure(e) => Failure(e)
        case Success(stored) => Success(stored.(current := Some(NewConfig(id))))
      else Success(st.(current := Some(NewConfig(id))))
    case Path(path, _) =>
      if st.current.None? then Failure(AttributeError("action_path"))
      else Success(st.(current := Some(st.current.value.(actionPath := Some(Split(path))))))
    case Mode(mode, _) =>
      if st.current.None? then Failure(AttributeError("mode"))
      else Success(st.(current := Some(st.current.value.(mode := ModeFromString(mode)))))
    case Action(action, _) =>
      if st.current.None? then Failure(AttributeError("action"))
      else Success(st.(current := Some(st.current.value.(action := ActionFromString(action)))))
    case ErrorToken(message, _) => Failure(ParserError(message))
  }

  /** What `parse` returns once the tokens run out. */
  function Finish(st: ParserState): Result<map<int, Config>, Error> {
    match Finalize(st)
    case Failure(e) => Failure(e)
    case Success(stored) => Success(stored.configurations)
  }

  /** `parse` over a list of tokens. */
  function ParseTokens(st: ParserState, tokens: seq<Tokens.Token>): Result<map<int, Config>, Error>
    decreases |tokens|
  {
    if tokens == [] then Finish(st)
    else
      match Consume(st, tokens[0])
      case Failure(e) => Failure(e)
      case Success(next) => ParseTokens(next, tokens[1..])
  }

  /** `parse` over the text the lexer reads from `c` with its recovery flag `skip`. */
  function ParseFrom(c: Cursor, skip: bool, st: ParserState): Result<map<int, Config>, Error>
    decreases Lexer.Measure(c, skip)
  {
    var r := Lexer.LexNext(c, skip);
    match r.step
    case Done => Finish(st)
    case Raised(e) => Failure(e)
    case Emit(tok) =>
      match Consume(st, tok)
      case Failure(e) => Failure(e)
      case Success(next) => ParseFrom(r.cursor, r.skip, next)
  }

  /** `parse` of a whole text. */
  function Parse(text: string): Result<map<int, Config>, Error> {
    ParseFrom(Cursor(text, FilePosition(0, 0)), false, InitialState)
  }

  class Parser {
    const lexer: Lexer.Lexer
    var configurations: map<int, Config>
    var currentConfig: Option<Config>

    function State(): ParserState
      reads this
    {
      ParserState(currentConfig, configurations)
    }

    ghost predicate Valid()
      reads this, lexer, lexer.reader
    {
      lexer.Valid()
    }

    constructor (lexer: Lexer.Lexer)
      requires lexer.Valid()
      ensures Valid()
      ensures this.lexer == lexer && State() == InitialState
    {
      this.lexer := lexer;
      configurations := map[];
      currentConfig := None;
    }

    /** `_check_current_config`, collecting the missing keys one by one. */
    method CheckCurrentConfig() returns (o: Outcome<Error>)
      ensures o == CheckConfig(currentConfig)
    {
      if currentConfig.None? {
        return Fail(ParserError(NO_CONFIGURATION_MESSAGE));
      }
      var missingKeys := [];
      if !currentConfig.value.action.Bool() {
        missingKeys := missingKeys + ["action"];
      }
      if !currentConfig.value.mode.Bool() {
        missingKeys := missingKeys + ["mode"];
      }
      if PathMissing(currentConfig.value) {
        missingKeys := missingKeys + ["path"];
      }
      assert missingKeys == MissingKeys(currentConfig.value);
      if |missingKeys| > 0 {
        return Fail(ParserError(MISSING_KEYS_MESSAGE + Join(missingKeys)));
      }
      return Pass;
    }

    /** `_build_current_config`: stores the checked record under its id. */
    method BuildCurrentConfig() returns (o: Outcome<Error>)
      modifies this`configurations
      ensures o == CheckConfig(currentConfig)
      ensures Finalize(old(State())) == if o.Pass? then Success(State()) else Failure(o.error)
    {
      o := CheckCurrentConfig();
      if o.Pass? {
        configurations := configurations[currentConfig.value.configId := currentConfig.value];
      }
    }

    /**
     * `parse`: pulls tokens from the lexer until it has none left and folds
     * them into the configurations; the result is `ParseFrom` of where the
     * lexer started.
     */
    method Parse() returns (r: Result<map<int, Config>, Error>)
      requires Valid()
      modifies this, lexer, lexer.reader
      ensures r == ParseFrom(old(lexer.reader.State()), old(lexer.skipCurrentToken), old(State()))
      ensures r.Success? ==> configurations == r.value
    {
      while true
        invariant Valid()
        invariant ParseFrom(lexer.reader.State(), lexer.skipCurrentToken, State())
               == ParseFrom(old(lexer.reader.State()), old(lexer.skipCurrentToken), old(State()))
        decreases Lexer.Measure(lexer.reader.State(), lexer.skipCurrentToken)
      {
        var step := lexer.NextToken();
        match step {
          case Done =>
            break;
          case Raised(e) =>
            return Failure(e);
          case Emit(tok) =>
            match tok {
              case Id(id, _) =>
                if currentConfig.Some? {
                  var built := BuildCurrentConfig();
                  if built.Fail? {
                    return Failure(built.error);
                  }
                }
                currentConfig := Some(NewConfig(id));
              case Path(path, _) =>
                if currentConfig.None? {
                  return Failure(AttributeError("action_path"));
                }
                currentConfig := Some(currentConfig.value.(actionPath := Some(Split(path))));
              case Mode(mode, _) =>
                if currentConfig.None? {
                  return Failure(AttributeError("mode"));
                }
                currentConfig := Some(currentConfig.value.(mode := ModeFromString(mode)));
              case Action(action, _) =>
                if currentConfig.None? {
                  return Failure(AttributeError("action"));
                }
                currentConfig := Some(currentConfig.value.(action := ActionFromString(action)));
              case ErrorToken(message, _) =>
                return Failure(ParserError(message));
            }
        }
      }
      var built := BuildCurrentConfig();
      if built.Fail? {
        return Failure(built.error);
      }
      return Success(configurations);
    }
  }
}
