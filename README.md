# AQC front end and executor, modelled in Dafny

AQC is a small configuration language. Every statement starts with `#`:
`#<digits>` or `#id: <digits>` opens a record, and `#mode:`, `#path:` and
`#action:` fill in its keys. The `aqp/lib` package reads such a text in
three stages and can then execute one record:

- A **reader** (`reader.py`) is a character cursor over a text stream. It
  buffers lookahead (`peek`, `prefix`, `eof`, an all-or-nothing `check`) and
  keeps the current line and position within the line (`forward`).
- A **lexer** (`lexer.py`) turns the characters into tokens (`tokens.py`).
  `mode:` and `action:` values end at the next `#` or line break. A `path:`
  value ends only at an unescaped `#`, and `\#` and `\\` stand for `#` and
  `\`. A statement without its `#` gives an error token and a one-shot
  recovery that skips to the next `#`.
- A **parser** (`parser.py`) builds `Config` records (`config.py`) keyed by
  id. An `Id` token stores the record being built and starts a new one; the
  end of the input stores the last one. Storing checks that no required key
  is missing; the missing keys are reported in the order action, mode,
  path.
- The **library functions** (`functions.py`) do three things:
  - `loads` chains the three stages;
  - three line handlers copy a line, count its words or replace `a`/`b`/`c`;
  - `execute_config` handles every line of every selected file into a table
    indexed by line number and file number, from 1.

Each stage is modelled in the form the code has:

- The reader, the lexer and the parser are classes. Their fields change in
  place, and their loops carry invariants.
- Every method is proved to compute a pure specification function on values:
  - `Reader.Advance` over a `Cursor` (the remaining text and the place in the file);
  - `Lexer.LexNext` and `Lexer.TokenStream` for the lexer;
  - `Parser.ParseFrom` and `Parser.ParseTokens` for the parser;
  - `Functions.OutTable` and `Functions.Execute` for the executor.
- The properties the program promises are lemmas about those functions. They
  live in `lexer_props.dfy`, `parser_props.dfy` and `functions_props.dfy`.
- The tests' scenarios appear as lemmas with concrete inputs.

Where the code and its documentation disagree, the model follows the code:

- An `unknown token` error (a `#` followed by no known key, `lexer.py:74`)
  does not arm recovery. Only a missing `#` does.
- The missing-`#` error token carries no position (`lexer.py:46`).
- `#id:` without digits is not an error token. `int("")` raises, and that
  ends `tokenise` and `parse`; it is modelled as `ValueError`.
- A `path:`, `mode:` or `action:` token before any `Id` assigns to a missing
  record. That raises, and it is modelled as `AttributeError`.

One defect of the code is not followed. The token classes take a single
argument (`aqp/lib/tokens.py:10-33`), but every token the lexer builds after
a `#` is given a second one, a `FilePosition` (`aqp/lib/lexer.py:57`, `62`,
`67`, `72` and `74`). As written, each of those calls raises `TypeError`, so
`tokenise`, `parse` and `loads` fail at the first statement that starts with
`#`. The model builds the tokens the lexer evidently means to build: each
carries an optional position, and the parser ignores it
(`ParserProperties.ParseIgnoresPositions`).

## Model

| member | source | states |
|---|---|---|
| Reader.TrackIsWalk | aqp/lib/reader.py:20-34 | `forward`'s bookkeeping on a whole chunk equals stepping over it one character at a time: a newline moves to the next line at position 0, any other character advances the position |
| Reader.WalkAppend | aqp/lib/reader.py:20-34 | the bookkeeping composes: moving over `s` and then over `t` is moving over `s + t` |
| Reader.ForwardBookkeeping | aqp/lib/reader.py:20-34 | `forward(offset)` drops the first min(offset, remaining) characters. The line grows by their number of newlines. The position becomes the count after the last newline, or grows by `offset` when there is none |
| Reader.AdvanceKeepsKnown | aqp/lib/reader.py:20-34 | from a known place, moving forward never lowers the line and never reaches the unknown place (-1, -1) |
| Reader.IoReader.constructor | aqp/lib/reader.py:67-71 | a fresh reader has the whole text left to read, an empty buffer, and stands at position 0 of line 0 |
| Reader.IoReader.FillBuffer | aqp/lib/reader.py:73-78 | the text left to read is unchanged. Afterwards the buffer holds at least `length` characters or the stream is used up. A buffer that was long enough is untouched |
| Reader.IoReader.ForwardImpl | aqp/lib/reader.py:80-82 | exactly the first min(length, remaining) characters of the text left to read are dropped |
| Reader.IoReader.Prefix | aqp/lib/reader.py:84-86 | returns the first min(length, remaining) characters and changes neither the text left nor the place |
| Reader.IoReader.Peek | aqp/lib/reader.py:88-92 | returns the character at `position` of the text left, or the EOF sentinel `'\0'` when fewer than position+1 remain; nothing is consumed |
| Reader.IoReader.Eof | aqp/lib/reader.py:94-96 | true exactly when fewer than offset+1 characters remain; nothing is consumed |
| Reader.IoReader.Forward | aqp/lib/reader.py:20-34 | the reader moves to `Advance` of its old state: the buffer and the unread stream together stay the remaining input, and the place follows the bookkeeping |
| Reader.IoReader.GetFilePos | aqp/lib/reader.py:36-39 | returns the current place, which is never the unknown place and has no negative field |
| Reader.IoReader.Check | aqp/lib/reader.py:56-64 | true exactly when the remaining text starts with `s`; then exactly `len(s)` characters are consumed, otherwise the reader is unchanged |
| Text.RFind | aqp/lib/reader.py:28 | `rfind`: the index of the last occurrence, or -1 when there is none |
| Text.Strip | aqp/lib/lexer.py:104 | `strip()` leaves no whitespace at either end |
| Text.StripPadded | aqp/lib/lexer.py:104 | stripping a value followed by whitespace gives back the value |
| Text.StripKeeps | aqp/lib/lexer.py:125 | a value with no whitespace at its ends is unchanged by `strip()` |
| Text.StripAfterSpaces | aqp/lib/lexer.py:104 | whitespace in front does not change what `strip()` returns |
| Text.Split | aqp/lib/parser.py:34 | `split(", ")` always gives at least one piece |
| Text.JoinSplit | aqp/lib/functions.py:71 | joining the pieces of `split(", ")` with `", "` gives back the text |
| Text.SplitAtSeparator | aqp/lib/parser.py:34 | a piece without a separator followed by `", "` is the first piece of the split |
| Text.SplitWithoutSeparator | aqp/lib/parser.py:34 | a text without `", "` splits into itself alone |
| Text.WordsAreRuns | aqp/lib/functions.py:110 | every word of `split()` is non-empty and holds no whitespace |
| Text.WordsSplitAtSpace | aqp/lib/functions.py:110 | a whitespace character separates words: the words of `a + x + b` are those of `a` followed by those of `b` |
| Text.NatToDecimal | aqp/lib/functions.py:110 | `str(n)` is a non-empty digit string without leading zero whose decimal value is `n` |
| Configuration.FileMode.Bool | aqp/lib/config.py:12-13 | `bool(mode)` is false exactly for the member whose value is `unknown` |
| Configuration.FileMode.Value | aqp/lib/config.py:7-10 | each member's value, from `auto()`, is its name in lower case: a non-empty string of lower-case letters |
| Configuration.Action.Bool | aqp/lib/config.py:22-23 | `bool(action)` is false exactly for the member whose value is `unknown` |
| Configuration.Action.Value | aqp/lib/config.py:16-20 | each member's value, from `auto()`, is its name in lower case: a non-empty string of lower-case letters |
| Tokens.WithoutPosition | aqp/lib/tokens.py:5-33 | a token as the token classes define it, with no place in the file: same kind and same value, no position |
| Configuration.NewConfig | aqp/lib/config.py:26-33 | `Config(config_id=id)` has that id, no file, a falsy mode and action, and no path |
| Lexer.SkipSpaces | aqp/lib/lexer.py:130-132 | skipping whitespace consumes no more than the input and stops at the end or at a non-whitespace character |
| Lexer.TakeUntil | aqp/lib/lexer.py:85-105 | the scan stops at the end or in front of a terminator, which it does not consume |
| Lexer.TakeEscaped | aqp/lib/lexer.py:107-125 | the `path:` scan stops at the end or in front of a `#`, which it does not consume |
| Lexer.TakeDigits | aqp/lib/lexer.py:51-54 | the id scan collects only digits |
| Lexer.LexId | aqp/lib/lexer.py:48-57 | an id statement never arms recovery and never moves the cursor backwards. It raises `ValueError` exactly when no digit follows the whitespace, because `int("")` fails; otherwise it gives an `Id` token placed where its digits end |
| Lexer.LexKeyed | aqp/lib/lexer.py:59-74 | a keyed or unknown statement never arms recovery and never moves the cursor backwards; its token, the `unknown token` error included, carries a position |
| Lexer.LexStatement | aqp/lib/lexer.py:48-74 | whatever follows a `#` never arms recovery and never moves the cursor backwards, and every token it gives carries a position, unlike the missing-`#` error token |
| Lexer.LexNext | aqp/lib/lexer.py:32-74 | the recovery flag is left set exactly when the call returns the missing-`#` error token. Every token returned shrinks a measure of the remaining input, so `tokenise` ends |
| Lexer.Lexer.constructor | aqp/lib/lexer.py:15-17 | a new lexer reads from the given reader with no recovery pending |
| Lexer.Lexer.SkipWhitespace | aqp/lib/lexer.py:130-132 | the reader moves past the leading whitespace, as `SkipSpaces` says |
| Lexer.Lexer.ReadUntil | aqp/lib/lexer.py:85-105 | returns the stripped text before the first terminator and leaves the reader in front of it |
| Lexer.Lexer.ReadEscapedString | aqp/lib/lexer.py:107-125 | returns the stripped, unescaped `path:` value and leaves the reader in front of the next unescaped `#` |
| Lexer.Lexer.IsPotentialIdChar | aqp/lib/lexer.py:127-128 | true exactly when the next character is a digit; nothing is consumed |
| Lexer.Lexer.ReadIdDigits | aqp/lib/lexer.py:51-54 | reads the run of digits in front, as `TakeDigits` says |
| Lexer.Lexer.ReadId | aqp/lib/lexer.py:48-57 | an `Id` with the digits' value and the place after them, or `ValueError` when there are no digits |
| Lexer.Lexer.NextStatement | aqp/lib/lexer.py:48-74 | after a `#`: an id, one of the three keyed statements, or the `unknown token` error, as `LexStatement` says |
| Lexer.Lexer.ReadKeyed | aqp/lib/lexer.py:59-74 | the `mode:`, `path:` and `action:` branches, and the `unknown token` error, as `LexKeyed` says |
| Lexer.Lexer.NextToken | aqp/lib/lexer.py:32-74 | one call of `next_token` returns the step and leaves the reader and the recovery flag as `LexNext` says |
| Lexer.Lexer.Tokenise | aqp/lib/lexer.py:19-30 | returns `TokenStream` of the reader's state: every token in order until `None`, or the first exception |
| LexerProperties.SkipSpacesOver | aqp/lib/lexer.py:130-132 | skipping whitespace consumes exactly the whitespace in front |
| LexerProperties.SkipSpacesToEnd | aqp/lib/lexer.py:39-42 | skipping whitespace reaches the end exactly when only whitespace is left |
| LexerProperties.TakeUntilOver | aqp/lib/lexer.py:93-101 | the scan consumes and collects exactly the characters before the first terminator |
| LexerProperties.TakeUntilFirst | aqp/lib/lexer.py:85-105 | the scan reads up to the first terminator, wherever it is |
| LexerProperties.TakeDigitsOver | aqp/lib/lexer.py:51-54 | the id scan consumes exactly the run of digits in front |
| LexerProperties.EscapeAppend | aqp/lib/lexer.py:116-122 | escaping works character by character, so it distributes over concatenation |
| LexerProperties.EscapePlain | aqp/lib/lexer.py:116-122 | text without `#` or backslash is written as it is |
| LexerProperties.TakeEscapedUnescapes | aqp/lib/lexer.py:107-125 | the `path:` scan over a cursor reads `Unescape` of the remaining text and consumes what `Unescape` consumes |
| LexerProperties.ReadEscapedPair | aqp/lib/lexer.py:116-123 | `\#` and `\\` are consumed together and only the second character is kept |
| LexerProperties.ReadPlain | aqp/lib/lexer.py:116-123 | any other character, a lone backslash included, is consumed and kept |
| LexerProperties.UnescapeEscape | aqp/lib/lexer.py:107-125 | reading back an escaped value gives the value and consumes exactly its escaped form, stopping at the next `#` |
| LexerProperties.TakeEscapedOver | aqp/lib/lexer.py:107-125 | the `path:` scan over `Escape(s)` reads `s` and consumes exactly `Escape(s)` |
| LexerProperties.ReadValue | aqp/lib/lexer.py:59-72 | after whitespace, a `mode:` or `action:` value reads as itself, and the input from the first terminator on is left |
| LexerProperties.ReadPathValue | aqp/lib/lexer.py:64-67 | after whitespace, an escaped path followed by whitespace reads as the path, and the scan stops at the next `#` |
| LexerProperties.StatementIsMode | aqp/lib/lexer.py:59-62 | a statement starting `mode:` gives a `Mode` token of the value after it, placed after the value |
| LexerProperties.StatementIsAction | aqp/lib/lexer.py:69-72 | a statement starting `action:` gives an `Action` token of the value after it |
| LexerProperties.StatementIsPath | aqp/lib/lexer.py:64-67 | a statement starting `path:` gives a `Path` token of the unescaped value after it |
| LexerProperties.LexModeValue | aqp/lib/lexer.py:59-62 | `mode:` and a plain value give `Mode(value)`, with no recovery, leaving the terminator |
| LexerProperties.LexActionValue | aqp/lib/lexer.py:69-72 | `action:` and a plain value give `Action(value)`, with no recovery, leaving the terminator |
| LexerProperties.LexPathValue | aqp/lib/lexer.py:64-67 | `path:` and an escaped value give `Path(value)` and leave the next `#` |
| LexerProperties.ReadIdValue | aqp/lib/lexer.py:49-57 | whitespace and a digit run give `Id` of the run's decimal value, leaving what follows the digits |
| LexerProperties.LexBareId | aqp/lib/lexer.py:48-57 | `#<digits>` gives `Id` of the digits' value |
| LexerProperties.LexLabelledId | aqp/lib/lexer.py:48-57 | `#id:`, whitespace and digits give `Id` of the digits' value |
| LexerProperties.LabelledIdWithoutDigits | aqp/lib/lexer.py:48-57 | `#id:`, whitespace and then no digit: `next_token` raises `ValueError`, and `tokenise` fails with it |
| LexerProperties.LabelledIdWithoutDigitsText | aqp/lib/lexer.py:19-57 | a text that starts with `#id:` and no digits does not tokenise: it fails with `ValueError` |
| LexerProperties.LexAfterMarker | aqp/lib/lexer.py:39-48 | after leading whitespace and a `#`, `next_token` reads a statement from the character after the `#` |
| LexerProperties.StatementToken | aqp/lib/lexer.py:32-74 | a well-formed statement after whitespace gives its own token, and the input after it is left |
| LexerProperties.DocumentTokens | aqp/lib/lexer.py:19-30 | well-formed statements separated by whitespace tokenise, without failure, to their tokens in order |
| LexerProperties.LayoutTokens | aqp/lib/lexer.py:19-30 | a text of leading whitespace and whitespace-separated statements tokenises to the statements' tokens |
| LexerProperties.LayoutDoesNotMatter | tests/test_lexer.py:60-96 | the same statements give the same tokens wherever whitespace separates them, on one line or on several |
| LexerProperties.DoneIffBlank | aqp/lib/lexer.py:39-42 | `next_token` returns `None` exactly when only whitespace remains |
| LexerProperties.NoTokensIffBlank | aqp/lib/lexer.py:19-30 | `tokenise` returns no token exactly when only whitespace remains |
| LexerProperties.RecoveryResumes | aqp/lib/lexer.py:35-37 | with recovery pending, lexing equals lexing from the next `#` with recovery clear; the `#` itself is not consumed |
| LexerProperties.MissingMarker | aqp/lib/lexer.py:44-46 | input that does not start with `#` gives a position-less error token, and the remaining tokens come from the next `#` on |
| LexerProperties.UnknownStatement | aqp/lib/lexer.py:74 | a `#` followed by no digit and no known key gives the `unknown token` error, placed right after the `#`, without arming recovery |
| LexerProperties.LexNextTrimmed | aqp/lib/lexer.py:103-125 | a `Mode`, `Path` or `Action` value has no whitespace at either end |
| LexerProperties.TokenStreamTrimmed | aqp/lib/lexer.py:19-30 | no value in a token list has whitespace at either end |
| LexerProperties.OneStatement | tests/test_lexer.py:33-57 | one well-formed statement alone is one token |
| LexerProperties.MultiLineExample | tests/test_lexer.py:60-76 | one statement per line gives `Id(1)`, `Mode("dir")`, `Path("/some/path")` and `Action("string")` |
| LexerProperties.SingleLineExample | tests/test_lexer.py:79-96 | the same statements on one line give the same four tokens |
| LexerProperties.BareIdExample | tests/test_lexer.py:14-20 | `#123` is `Id(123)` |
| LexerProperties.LabelledIdExample | tests/test_lexer.py:23-30 | `#id: 456` is `Id(456)` |
| LexerProperties.EscapedMarkerPath | tests/test_lexer.py:115-121 | a path ending in `\#` keeps the `#` in its value |
| LexerProperties.EscapedMarkerExample | tests/test_lexer.py:115-121 | `#path: /some/file\#` is `Path("/some/file#")` |
| LexerProperties.EscapedBackslashPath | tests/test_lexer.py:124-133 | a path ending in `\\` keeps one backslash, and the `#` after it starts the next statement |
| LexerProperties.EscapedBackslashExample | tests/test_lexer.py:124-133 | `#path: /some/file\\#mode: dir` is `Path("/some/file\")` and `Mode("dir")` |
| LexerProperties.NoMarkerAtAll | aqp/lib/lexer.py:44-46 | a text without any `#` gives exactly one error token |
| LexerProperties.NoMarkerExample | tests/test_lexer.py:99-104 | `123` is a single missing-`#` error token |
| LexerProperties.LoneMarkerExample | tests/test_lexer.py:107-112 | `#` alone is a single `unknown token` error |
| Parser.ModeFromString | aqp/lib/parser.py:51-58 | the mode is known exactly for `"dir"` and `"files"`, and a known mode's value is the text it came from |
| Parser.ActionFromString | aqp/lib/parser.py:60-69 | the action is known exactly for `"string"`, `"count"` and `"replace"`, and a known action's value is the text it came from |
| Parser.MissingKeys | aqp/lib/parser.py:79-88 | a key is listed exactly when its field is falsy, and none is listed exactly when the record is complete. The keys come in the order action, mode, path |
| Parser.CheckConfig | aqp/lib/parser.py:75-91 | the check passes exactly for a present, complete record. Otherwise it fails with "No valid configuration found" or with the missing keys joined by `", "` |
| Parser.Parser.constructor | aqp/lib/parser.py:12-15 | a new parser has no record under construction and nothing stored |
| Parser.Parser.CheckCurrentConfig | aqp/lib/parser.py:75-91 | the outcome is `CheckConfig` of the record under construction |
| Parser.Parser.BuildCurrentConfig | aqp/lib/parser.py:71-73 | a record that passes the check is stored under its id; on failure the error is returned |
| Parser.Parser.Parse | aqp/lib/parser.py:17-49 | pulling tokens from the lexer gives `ParseFrom` of the reader's text; on success the parser's map is the result |
| ParserProperties.ModeNameRoundTrip | aqp/lib/parser.py:51-58 | reading a mode's own value gives the mode back |
| ParserProperties.ActionNameRoundTrip | aqp/lib/parser.py:60-69 | reading an action's own value gives the action back |
| ParserProperties.FinalizeValid | aqp/lib/parser.py:71-91 | storing succeeds exactly for a complete record under construction; the stored records stay valid and their ids are the ones known before |
| ParserProperties.ConsumeValid | aqp/lib/parser.py:26-43 | each token keeps the stored records valid, and only an `Id` adds an id. An `Id` starts a fresh default record with that id |
| ParserProperties.ParseTokensValid | aqp/lib/parser.py:17-49 | on success every stored record has its own id as key, is complete and has no file. The keys are the ids known before plus those of the `Id` tokens |
| ParserProperties.ParseKeys | aqp/lib/parser.py:73 | the keys of a parse result are exactly the ids of its `Id` tokens |
| ParserProperties.ParsedRecordsComplete | aqp/lib/parser.py:75-91 | every record in a result has a known mode, a known action and a non-empty path |
| ParserProperties.EmptyInputFails | aqp/lib/parser.py:75-77 | no tokens at all fail with "No valid configuration found" |
| ParserProperties.SuccessHasNoErrorToken | aqp/lib/parser.py:42-43 | a successful parse met no error token: any error token aborts the whole parse |
| ParserProperties.SuccessHasRecords | aqp/lib/parser.py:17-49 | a successful parse has at least one record and saw an `Id` token |
| ParserProperties.ParseFirstIsId | aqp/lib/parser.py:33-40 | a value token before any `Id` fails, naming the attribute it assigned |
| ParserProperties.ConsumeIgnoresPosition | aqp/lib/parser.py:26-43 | a token's place in the file does not change what the parser does with it |
| ParserProperties.ParseIgnoresPositions | aqp/lib/parser.py:17-49 | parsing a token list with or without positions gives the same result |
| ParserProperties.ParseFromTokens | aqp/lib/parser.py:17-22 | pulling tokens one at a time agrees with parsing the list `tokenise` returns; a lexer exception makes the parse fail |
| ParserProperties.ParseText | aqp/lib/parser.py:17-49 | parsing a text is parsing its token list; a blank text fails with "No valid configuration found" |
| ParserProperties.ParseRecord | aqp/lib/parser.py:26-40 | an id, path, mode and action store the complete record under construction, if any, and leave their own record under construction |
| ParserProperties.OneRecord | aqp/lib/parser.py:17-49 | a single full record parses to a map with that one record |
| ParserProperties.TwoRecords | aqp/lib/parser.py:73 | two records parse to a map with both; with a repeated id the later record wins |
| ParserProperties.ConsumeValue | aqp/lib/parser.py:33-40 | a path, mode or action token sets its own key of the record under construction and changes nothing else |
| ParserProperties.ConsumeCommutes | aqp/lib/parser.py:33-40 | two value tokens for different keys leave the same state in either order |
| ParserProperties.ParseThreeValues | aqp/lib/parser.py:17-49 | three value tokens at the end of the input set their keys in turn, and then the record is finished |
| ParserProperties.RecordAnyOrder | aqp/lib/parser.py:26-49 | an id followed by its path, mode and action in any of the six orders parses to the same single record |
| ParserProperties.NoCommaSinglePath | aqp/lib/parser.py:34 | a path without a comma is a single path |
| ParserProperties.TwoPaths | aqp/lib/parser.py:34 | `a, b` is the two paths `a` and `b`, in order |
| ParserProperties.ValidRecordExample | tests/test_parser.py:20-35 | the record with path `/path/to/file, /another/path`, mode `files` and action `count` parses to the two paths, `Files` and `Count` |
| ParserProperties.TwoRecordsExample | tests/test_parser.py:62-83 | two records parse to both, each with its own keys |
| ParserProperties.MissingActionExample | tests/test_parser.py:38-43 | a record without an action fails with "Missing required keys: action", whatever its path |
| ParserProperties.ErrorTokenExample | tests/test_parser.py:46-51 | an error token fails the parse with its message |
| ParserProperties.InvalidModeExample | tests/test_parser.py:54-59 | an unknown mode fails with "Missing required keys: mode", whatever the path of the record |
| ParserProperties.PartialRecordExample | tests/test_parser.py:94-99 | a record with only a path fails with "Missing required keys: action, mode" |
| ParserProperties.LabelledIdWithoutDigitsParse | aqp/lib/parser.py:17-22 | `#id:` with no digits after it makes `parse` fail with the lexer's `ValueError`, whatever follows |
| ParserProperties.FourStatementTextExample | aqp/lib/functions.py:13-21 | loading the four-statement text gives record 1 with mode `Dir`, action `String` and path `/some/path` |
| Functions.StringHandleLine | aqp/lib/functions.py:105-106 | the string handler returns the line unchanged |
| Functions.CountHandleLine | aqp/lib/functions.py:109-110 | the count handler returns a decimal numeral without leading zero whose value is the number of whitespace-separated words |
| Functions.ReplaceHandleLine | aqp/lib/functions.py:113-122 | the loop builds `Replaced(line)`: each character replaced in order |
| Functions.GetLineHandler | aqp/lib/functions.py:125-134 | a handler exists exactly for a known action, and it is that action's handler. `Unknown` fails with "Unsupported action unknown" |
| Functions.GetFiles | aqp/lib/functions.py:35-50 | the nested loops compute `Files`: the paths themselves for `files`, or the regular files in each directory for `dir`. The call fails exactly for an unknown mode |
| Functions.FillFile | aqp/lib/functions.py:80-87 | after file `k` every line of files 1..k has its handled value in the table, and no other entry exists |
| Functions.FillRow | aqp/lib/functions.py:90-92 | a row gets the handled empty line for every file that had no line at that number |
| Functions.BuildOutTable | aqp/lib/functions.py:75-92 | the two passes build exactly `OutTable` |
| Functions.ExecuteConfig | aqp/lib/functions.py:53-96 | `execute_config` gives `Execute`: the report, or the first error in the program's order |
| Functions.Loads | aqp/lib/functions.py:13-21 | `loads` (reader, lexer, parser) gives `Parse` of the text |
| FunctionsProperties.ReplacedAppend | aqp/lib/functions.py:119-121 | replacing works character by character: replacing `s + t` is replacing `s`, then `t` |
| FunctionsProperties.ReplacedChar | aqp/lib/functions.py:114-121 | `a`, `b` and `c` become `1`, `2` and `3` followed by the file number; any other character stays |
| FunctionsProperties.ReplacedUntouched | aqp/lib/functions.py:119-121 | a line without `a`, `b` and `c` is unchanged |
| FunctionsProperties.ReplaceOneA | aqp/lib/functions.py:113-122 | one `a` among untouched characters becomes `1` and the file number, in place |
| FunctionsProperties.ReplaceTwoC | aqp/lib/functions.py:113-122 | two `c`s among untouched characters each become `3` and the file number, in place |
| FunctionsProperties.NewlineRemoved | aqp/lib/functions.py:85-87 | a line's trailing line break is removed before it is handled |
| FunctionsProperties.LastLineKept | aqp/lib/functions.py:85-87 | a last line without a line break is handled as it is |
| FunctionsProperties.OutTableShape | aqp/lib/functions.py:89-92 | the table has a row for every line number 1..longest file, and each row has an entry for every file number 1..file count |
| FunctionsProperties.OutTableLine | aqp/lib/functions.py:79-87 | the entry for line `j` of file `k` is the handled line without its line break, with file number `k` |
| FunctionsProperties.OutTableBlank | aqp/lib/functions.py:89-92 | a file shorter than the row's line number gets the handled empty line |
| FunctionsProperties.OutTableEmpty | aqp/lib/functions.py:75-92 | files without lines give an empty table |
| FunctionsProperties.TwoByTwo | aqp/lib/functions.py:75-92 | two files of two lines each give a 2-by-2 table of the handled lines |
| FunctionsProperties.ExecuteFailures | aqp/lib/functions.py:53-64 | execution fails exactly for a missing path, an unknown mode or an unknown action, checked in that order, each with its message |
| FunctionsProperties.ExecuteReport | aqp/lib/functions.py:66-94 | the report holds the id, the config file, the mode's value, the joined paths, and the table of the selected files' lines |
| FunctionsProperties.PathFieldRestoresText | aqp/lib/functions.py:71 | the report's `path` is the raw text the parser split |
| FunctionsProperties.LoadedRecords | aqp/lib/functions.py:13-21 | every loaded record has its own id as key, is complete and has no `path_to_config` |
| FunctionsProperties.LoadedRecordsExecute | aqp/lib/functions.py:60-64 | every loaded record executes without error, and its report carries its id and no config file |
| FunctionsProperties.StringTableExample | tests/test_execute.py:16-22 | the two test files under `string` give the table of their lines |
| FunctionsProperties.CountTableExample | tests/test_execute.py:23-29 | the two test files under `count` give their word counts: `2` and `3` on line 1 of files 1 and 2, `4` and `2` on line 2 |
| FunctionsProperties.ReplaceExample | tests/test_execute.py:30-36 | `pytest is great` in file 2 becomes `pytest is gre12t` |
| FunctionsProperties.ReplaceTableExample | tests/test_execute.py:30-36 | the two test files under `replace` give `hello world` and `pytest is gre12t` on line 1, `this is 11 test` and `exe32ute 32onfig` on line 2 |

## Left out

- File and stream I/O are parameters:
  - `TextIO.read(n)` is modelled as handing out min(n, remaining) characters of a known text, as `StringIO` does.
  - `os.listdir` and `os.path.isfile` become the functions `listDir` and `isFile`.
  - `open` and iterating a file become `readLines`, which gives each line with its line break.
  - I/O errors, encodings and newline translation are not modelled.
- `load(text_io)` (`aqp/lib/functions.py:24-32`) is `loads` over a stream rather than a string. The model has one entry point, `Functions.Loads`, because a stream is modelled by its text.
- `StringReader` (`aqp/lib/reader.py:99-101`) is the `IoReader` constructor over a text. The abstract `Reader` base and `IoReader` are one class.
- `FilePosition.__str__` (`aqp/lib/reader.py:111-112`) is left out because it only formats text. As written, it prints the line number in both of its fields.
- Whitespace and digits are ASCII only:
  - `isspace`, `strip` and `split()` use the ASCII whitespace Python recognises, `\x1c`-`\x1f` included.
  - `isnumeric` means `'0'`-`'9'`.
  - Other Unicode whitespace and numerals are not modelled.
- `os.path.join` is simplified: an absolute name replaces the directory; otherwise a single `/` joins the two.
- Dictionary insertion order is not modelled: the result and the `out` table are maps, and the key order of the JSON is not modelled.
- The `case _: raise ParserError("Unknown token")` branch (`aqp/lib/parser.py:45-46`) cannot be reached, because the token type is closed.
- Python exceptions are `Error` values. `AttributeError` and `ValueError` record the attribute or the literal, not Python's message text.
- `Config.action_path` is any iterable of paths in the source and a sequence of strings here. `path_to_config` is an optional string, and path-like objects are not distinguished.
- The `TypeError` that the two-argument token constructions raise as written (`aqp/lib/lexer.py:57-74`) is not modelled; the tokens are built with their positions, as described above.
- `ErrorToken`'s default message is the constant `Tokens.DefaultErrorToken`. The lexer always passes a message.
- aqp/src (an older prototype), aqp/cli.py, aqp/__init__.py and setup.py are not part of this model. Neither is aqp/lib/error.py: only the name of `AqpError` is used.
- Lexer.SkipSpaces, Lexer.TakeUntil, Lexer.TakeEscaped and Lexer.TakeDigits: their own contracts state only bounds. Exactly what each consumes is proved in the lemmas `SkipSpacesOver`, `TakeUntilOver`, `TakeEscapedUnescapes` and `TakeDigitsOver`.
