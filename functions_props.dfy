/**
 * What the library functions guarantee: the replace handler rewrites each
 * `a`, `b` and `c` and nothing else, the out table has an entry for every
 * file in every row, `execute_config` fails exactly for a record without a
 * path, mode or action, its `path` field gives back the text the parser
 * split, and every record `loads` returns can be executed.
 */
module FunctionsProperties {
  import opened Wrappers
  import opened Errors
  import opened Text
  import opened Reader
  import opened Configuration
  import Lexer
  import LexerProperties
  import Parser
  import ParserProperties
  import opened Functions

  // ---------------------------------------------------------------------
  // The replace handler

  /** Replacing works character by character: a line may be cut anywhere. */
  lemma {:induction false} ReplacedAppend(s: string, t: string, fileNumber: int)
    ensures Replaced(s + t, fileNumber) == Replaced(s, fileNumber) + Replaced(t, fileNumber)
    decreases |t|
  {
    if t == [] {
      assert s + t == s;
    } else {
      var t' := t[..|t| - 1];
      AppendDropLast(s, t);
      ReplacedAppend(s, t', fileNumber);
      ReplacedLast(s + t, fileNumber);
      ReplacedLast(t, fileNumber);
      AppendAssoc(Replaced(s, fileNumber), Replaced(t', fileNumber), Replacement(t[|t| - 1], fileNumber));
    }
  }

  /** The last character's replacement ends the replaced line. */
  lemma ReplacedLast(u: string, fileNumber: int)
    requires u != []
    ensures Replaced(u, fileNumber) == Replaced(u[..|u| - 1], fileNumber) + Replacement(u[|u| - 1], fileNumber)
  {
  }

  /** A single character becomes its replacement: `a`, `b` and `c` a digit and the file number, any other itself. */
  lemma ReplacedChar(ch: char, fileNumber: int)
    ensures Replaced([ch], fileNumber)
         == if ch == 'a' then "1" + IntToDecimal(fileNumber)
            else if ch == 'b' then "2" + IntToDecimal(fileNumber)
            else if ch == 'c' then "3" + IntToDecimal(fileNumber)
            else [ch]
  {
    assert [ch][..0] == [];
  }

  /** A line without `a`, `b` or `c` comes back unchanged. */
  lemma {:induction false} ReplacedUntouched(s: string, fileNumber: int)
    requires forall i :: 0 <= i < |s| ==> s[i] !in Replacements(fileNumber)
    ensures Replaced(s, fileNumber) == s
    decreases |s|
  {
    if s != [] {
      var s' := s[..|s| - 1];
      ReplacedUntouched(s', fileNumber);
      assert s' + [s[|s| - 1]] == s;
    }
  }

  // ---------------------------------------------------------------------
  // Line breaks

  /** A line read with its line break is handled without it. */
  lemma NewlineRemoved(s: string)
    ensures RemoveNewlineSuffix(s + "\n") == s
  {
    assert (s + "\n")[..|s|] == s;
  }

  /** A line without a final line break (the last line of a file) is handled as it is. */
  lemma LastLineKept(s: string)
    requires s == [] || s[|s| - 1] != '\n'
    ensures RemoveNewlineSuffix(s) == s
  {
  }

  // ---------------------------------------------------------------------
  // The out table

  /**
   * The table has a row for every line number from 1 to the length of the
   * longest file, and every row has an entry for every file number from 1
   * to the number of files.
   */
  lemma OutTableShape(h: LineHandler, contents: seq<seq<string>>)
    ensures forall lineInd :: lineInd in OutTable(h, contents) <==> 1 <= lineInd <= MaxLines(contents)
    ensures forall lineInd, fileInd :: lineInd in OutTable(h, contents) ==>
      (fileInd in OutTable(h, contents)[lineInd] <==> 1 <= fileInd <= |contents|)
  {
  }

  /** A line a file has: handled without its line break, with the file's number. */
  lemma OutTableLine(h: LineHandler, contents: seq<seq<string>>, lineInd: int, fileInd: int)
    requires 1 <= fileInd <= |contents| && 1 <= lineInd <= |contents[fileInd - 1]|
    ensures lineInd in OutTable(h, contents) && fileInd in OutTable(h, contents)[lineInd]
    ensures OutTable(h, contents)[lineInd][fileInd]
         == Handle(h, RemoveNewlineSuffix(contents[fileInd - 1][lineInd - 1]), fileInd)
  {
    assert |contents[fileInd - 1]| <= MaxLines(contents);
  }

  /** A line a shorter file lacks: the handled empty line. */
  lemma OutTableBlank(h: LineHandler, contents: seq<seq<string>>, lineInd: int, fileInd: int)
    requires 1 <= fileInd <= |contents| && |contents[fileInd - 1]| < lineInd <= MaxLines(contents)
    ensures OutTable(h, contents)[lineInd][fileInd] == Handle(h, "", fileInd)
  {
  }

  /** No files, or only empty files: an empty table. */
  lemma OutTableEmpty(h: LineHandler, contents: seq<seq<string>>)
    requires forall i :: 0 <= i < |contents| ==> contents[i] == []
    ensures OutTable(h, contents) == map[]
  {
    assert MaxLines(contents) == 0;
  }

  lemma TwoFilesRow(h: LineHandler, contents: seq<seq<string>>, lineInd: int, x: string, y: string)
    requires |contents| == 2 && 1 <= lineInd <= |contents[0]| && lineInd <= |contents[1]|
    requires RemoveNewlineSuffix(contents[0][lineInd - 1]) == x && RemoveNewlineSuffix(contents[1][lineInd - 1]) == y
    ensures Row(h, contents, lineInd) == map[1 := Handle(h, x, 1), 2 := Handle(h, y, 2)]
  {
    var r := Row(h, contents, lineInd);
    assert r.Keys == {1, 2};
    assert r[1] == Handle(h, x, 1) && r[2] == Handle(h, y, 2);
  }

  lemma MaxLinesOfTwo(x: seq<string>, y: seq<string>)
    ensures MaxLines([x, y]) == if |y| > |x| then |y| else |x|
  {
    assert [x, y][..1] == [x];
    assert [x][..0] == [];
  }

  lemma TableOfTwoRows(h: LineHandler, contents: seq<seq<string>>, row1: map<int, string>, row2: map<int, string>)
    requires MaxLines(contents) == 2 && Row(h, contents, 1) == row1 && Row(h, contents, 2) == row2
    ensures OutTable(h, contents) == map[1 := row1, 2 := row2]
  {
  }

  /** Two files of two lines each, every line with its line break. */
  lemma TwoByTwo(h: LineHandler, a1: string, a2: string, b1: string, b2: string)
    ensures OutTable(h, [[a1 + "\n", a2 + "\n"], [b1 + "\n", b2 + "\n"]])
         == map[1 := map[1 := Handle(h, a1, 1), 2 := Handle(h, b1, 2)],
                2 := map[1 := Handle(h, a2, 1), 2 := Handle(h, b2, 2)]]
  {
    var contents := [[a1 + "\n", a2 + "\n"], [b1 + "\n", b2 + "\n"]];
    NewlineRemoved(a1);
    NewlineRemoved(a2);
    NewlineRemoved(b1);
    NewlineRemoved(b2);
    MaxLinesOfTwo(contents[0], contents[1]);
    TwoFilesRow(h, contents, 1, a1, b1);
    TwoFilesRow(h, contents, 2, a2, b2);
    TableOfTwoRows(h, contents, map[1 := Handle(h, a1, 1), 2 := Handle(h, b1, 2)], map[1 := Handle(h, a2, 1), 2 := Handle(h, b2, 2)]);
  }

  // ---------------------------------------------------------------------
  // execute_config

  /**
   * Executing a record fails exactly when it has no path, no mode or no
   * action, and with the error for the first of these checks.
   */
  lemma ExecuteFailures(c: Config, listDir: string -> seq<string>, isFile: string -> bool, readLines: string -> seq<string>)
    ensures var r := Execute(c, listDir, isFile, readLines);
      (r.Failure? <==> c.actionPath.None? || !c.mode.Bool() || !c.action.Bool())
      && (c.actionPath.None? ==> r == Failure(AqpError("Action path is not provided")))
      && (c.actionPath.Some? && !c.mode.Bool() ==> r == Failure(AqpError("Unsupported file mode " + "unknown")))
      && (c.actionPath.Some? && c.mode.Bool() && !c.action.Bool() ==> r == Failure(AqpError("Unsupported action " + "unknown")))
  {
  }

  /**
   * A successful report carries the record's id, file, mode and paths, and
   * its table holds the handled lines of the selected files.
   */
  lemma ExecuteReport(c: Config, listDir: string -> seq<string>, isFile: string -> bool, readLines: string -> seq<string>)
    requires Execute(c, listDir, isFile, readLines).Success?
    ensures var r := Execute(c, listDir, isFile, readLines).value;
      var files := if c.mode == Files then c.actionPath.value else DirFiles(c.actionPath.value, listDir, isFile);
      r.configurationId == c.configId && r.configFile == c.pathToConfig && r.mode == c.mode.Value()
      && r.path == Join(c.actionPath.value)
      && GetLineHandler(c.action).Success?
      && r.out == OutTable(GetLineHandler(c.action).value, Contents(files, readLines))
  {
  }

  /** The `path` field gives back the text the parser split into paths. */
  lemma PathFieldRestoresText(c: Config, text: string, listDir: string -> seq<string>, isFile: string -> bool, readLines: string -> seq<string>)
    requires c.actionPath == Some(Split(text))
    requires Execute(c, listDir, isFile, readLines).Success?
    ensures Execute(c, listDir, isFile, readLines).value.path == text
  {
    JoinSplit(text);
  }

  // ---------------------------------------------------------------------
  // loads

  /**
   * The records `loads` returns are complete, stored under their own ids,
   * and have no configuration file set.
   */
  lemma LoadedRecords(text: string)
    ensures Parser.Parse(text).Success? ==> ParserProperties.ValidConfigurations(Parser.Parse(text).value)
  {
    var c := Cursor(text, FilePosition(0, 0));
    ParserProperties.ParseFromTokens(c, false, Parser.InitialState);
    ParserProperties.ParseText(text);
    if Lexer.TokensOf(text).Success? {
      ParserProperties.ParseKeys(LexerProperties.Unplaced(Lexer.TokensOf(text).value));
    }
  }

  /** Every record `loads` returns can be executed, and its report names no configuration file. */
  lemma LoadedRecordsExecute(text: string, id: int, listDir: string -> seq<string>, isFile: string -> bool, readLines: string -> seq<string>)
    requires Parser.Parse(text).Success? && id in Parser.Parse(text).value
    ensures Execute(Parser.Parse(text).value[id], listDir, isFile, readLines).Success?
    ensures Execute(Parser.Parse(text).value[id], listDir, isFile, readLines).value.configFile.None?
    ensures Execute(Parser.Parse(text).value[id], listDir, isFile, readLines).value.configurationId == id
  {
    LoadedRecords(text);
  }

  // ---------------------------------------------------------------------
  // Examples: two files of two lines each

  const FirstFile: seq<string> := ["hello world" + "\n", "this is a test" + "\n"]
  const SecondFile: seq<string> := ["pytest is great" + "\n", "execute config" + "\n"]

  /** The string handler: the lines without their line breaks. */
  lemma StringTableExample()
    ensures OutTable(StringHandler, [FirstFile, SecondFile])
         == map[1 := map[1 := "hello world", 2 := "pytest is great"],
                2 := map[1 := "this is a test", 2 := "execute config"]]
  {
    TwoByTwo(StringHandler, "hello world", "this is a test", "pytest is great", "execute config");
  }

  /** A word and a space in front of a text: one more word. */
  lemma WordsCons(a: string, rest: string)
    requires a != [] && NoSpace(a)
    ensures Words(a + " " + rest) == [a] + Words(rest)
  {
    WordsSplitAtSpace(a, ' ', rest);
    WordsOfWord(a);
  }

  /** A line of two words, one space between them. */
  lemma TwoWords(a: string, b: string)
    requires a != [] && NoSpace(a) && b != [] && NoSpace(b)
    ensures |Words(a + " " + b)| == 2
  {
    WordsCons(a, b);
    WordsOfWord(b);
  }

  /** A line of three words, one space between each two. */
  lemma ThreeWords(a: string, b: string, c: string)
    requires a != [] && NoSpace(a) && b != [] && NoSpace(b) && c != [] && NoSpace(c)
    ensures |Words(a + " " + (b + " " + c))| == 3
  {
    WordsCons(a, b + " " + c);
    TwoWords(b, c);
  }

  /** A line of four words, one space between each two. */
  lemma FourWords(a: string, b: string, c: string, d: string)
    requires a != [] && NoSpace(a) && b != [] && NoSpace(b) && c != [] && NoSpace(c) && d != [] && NoSpace(d)
    ensures |Words(a + " " + (b + " " + (c + " " + d)))| == 4
  {
    WordsCons(a, b + " " + (c + " " + d));
    ThreeWords(b, c, d);
  }

  /** `hello world`: two words. */
  lemma HelloWorldWords(line: string)
    requires line == "hello world"
    ensures |Words(line)| == 2
  {
    assert line == "hello" + " " + "world";
    TwoWords("hello", "world");
  }

  /** `this is a test`: four words. */
  lemma ThisIsATestWords(line: string)
    requires line == "this is a test"
    ensures |Words(line)| == 4
  {
    assert line == "this" + " " + ("is" + " " + ("a" + " " + "test"));
    FourWords("this", "is", "a", "test");
  }

  /** `pytest is great`: three words. */
  lemma PytestIsGreatWords(line: string)
    requires line == "pytest is great"
    ensures |Words(line)| == 3
  {
    assert line == "pytest" + " " + ("is" + " " + "great");
    ThreeWords("pytest", "is", "great");
  }

  /** `execute config`: two words. */
  lemma ExecuteConfigWords(line: string)
    requires line == "execute config"
    ensures |Words(line)| == 2
  {
    assert line == "execute" + " " + "config";
    TwoWords("execute", "config");
  }

  /** The count handler: the number of words of every line. */
  lemma CountTableExample(a1: string, a2: string, b1: string, b2: string)
    requires a1 == "hello world" && a2 == "this is a test" && b1 == "pytest is great" && b2 == "execute config"
    ensures OutTable(CountHandler, [[a1 + "\n", a2 + "\n"], [b1 + "\n", b2 + "\n"]])
         == map[1 := map[1 := "2", 2 := "3"],
                2 := map[1 := "4", 2 := "2"]]
  {
    TwoByTwo(CountHandler, a1, a2, b1, b2);
    HelloWorldWords(a1);
    ThisIsATestWords(a2);
    PytestIsGreatWords(b1);
    ExecuteConfigWords(b2);
  }

  /** One `a` between untouched text: it alone becomes `1` and the file number. */
  lemma ReplaceOneA(u: string, v: string, fileNumber: int)
    requires forall i :: 0 <= i < |u| ==> u[i] !in Replacements(fileNumber)
    requires forall i :: 0 <= i < |v| ==> v[i] !in Replacements(fileNumber)
    ensures Replaced(u + "a" + v, fileNumber) == u + ("1" + IntToDecimal(fileNumber)) + v
  {
    ReplacedAppend(u + "a", v, fileNumber);
    ReplacedAppend(u, "a", fileNumber);
    ReplacedUntouched(u, fileNumber);
    ReplacedUntouched(v, fileNumber);
    ReplacedChar('a', fileNumber);
  }

  /** The second file's first line: only the `a` changes. */
  lemma ReplaceExample(line: string)
    requires line == "pytest is great"
    ensures Replaced(line, 2) == "pytest is gre12t"
  {
    assert line == "pytest is gre" + "a" + "t";
    ReplaceOneA("pytest is gre", "t", 2);
    assert IntToDecimal(2) == "2";
    assert "pytest is gre" + ("1" + "2") + "t" == "pytest is gre12t";
  }

  /** One `c` between untouched text: it alone becomes `3` and the file number. */
  lemma ReplaceOneC(u: string, v: string, fileNumber: int)
    requires forall i :: 0 <= i < |u| ==> u[i] !in Replacements(fileNumber)
    requires forall i :: 0 <= i < |v| ==> v[i] !in Replacements(fileNumber)
    ensures Replaced(u + "c" + v, fileNumber) == u + ("3" + IntToDecimal(fileNumber)) + v
  {
    ReplacedAppend(u + "c", v, fileNumber);
    ReplacedAppend(u, "c", fileNumber);
    ReplacedUntouched(u, fileNumber);
    ReplacedUntouched(v, fileNumber);
    ReplacedChar('c', fileNumber);
  }

  /** Two `c`s between untouched text: each becomes `3` and the file number. */
  lemma ReplaceTwoC(u: string, v: string, w: string, fileNumber: int)
    requires forall i :: 0 <= i < |u| ==> u[i] !in Replacements(fileNumber)
    requires forall i :: 0 <= i < |v| ==> v[i] !in Replacements(fileNumber)
    requires forall i :: 0 <= i < |w| ==> w[i] !in Replacements(fileNumber)
    ensures var r := "3" + IntToDecimal(fileNumber);
      Replaced(u + "c" + (v + "c" + w), fileNumber) == u + r + (v + r + w)
  {
    ReplaceOneC(v, w, fileNumber);
    ReplacedAppend(u + "c", v + "c" + w, fileNumber);
    ReplacedAppend(u, "c", fileNumber);
    ReplacedUntouched(u, fileNumber);
    ReplacedChar('c', fileNumber);
  }

  /** The first file's first line has no `a`, `b` or `c`: it comes back as it is. */
  lemma HelloWorldUntouched(line: string)
    requires line == "hello world"
    ensures Replaced(line, 1) == "hello world"
  {
    ReplacedUntouched(line, 1);
  }

  /** The first file's second line: only the `a` changes. */
  lemma ReplaceTestLine(line: string)
    requires line == "this is a test"
    ensures Replaced(line, 1) == "this is 11 test"
  {
    assert line == "this is " + "a" + " test";
    ReplaceOneA("this is ", " test", 1);
    assert IntToDecimal(1) == "1";
    assert "this is " + ("1" + "1") + " test" == "this is 11 test";
  }

  /** The second file's second line: both `c`s change. */
  lemma ReplaceConfigLine(line: string)
    requires line == "execute config"
    ensures Replaced(line, 2) == "exe32ute 32onfig"
  {
    assert line == "exe" + "c" + ("ute " + "c" + "onfig");
    ReplaceTwoC("exe", "ute ", "onfig", 2);
    assert IntToDecimal(2) == "2";
    assert "exe" + ("3" + "2") + ("ute " + ("3" + "2") + "onfig") == "exe32ute 32onfig";
  }

  /** The replace handler: every `a`, `b` and `c` of every line rewritten with its file's number. */
  lemma ReplaceTableExample(a1: string, a2: string, b1: string, b2: string)
    requires a1 == "hello world" && a2 == "this is a test" && b1 == "pytest is great" && b2 == "execute config"
    ensures OutTable(ReplaceHandler, [[a1 + "\n", a2 + "\n"], [b1 + "\n", b2 + "\n"]])
         == map[1 := map[1 := "hello world", 2 := "pytest is gre12t"],
                2 := map[1 := "this is 11 test", 2 := "exe32ute 32onfig"]]
  {
    TwoByTwo(ReplaceHandler, a1, a2, b1, b2);
    HelloWorldUntouched(a1);
    ReplaceTestLine(a2);
    ReplaceExample(b1);
    ReplaceConfigLine(b2);
  }
}
