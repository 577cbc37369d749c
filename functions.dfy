/**
 * The public functions of the AQC library: loading configurations from text,
 * the three line handlers, and executing a configuration into its report,
 * whose `out` table holds one handled line per line number and file number.
 *
 * The file system is a parameter: `listDir` gives the entries of a
 * directory, `isFile` tells regular files apart, and `readLines` gives the
 * lines a file iterates over (each with its line break, if it has one).
 */
module Functions {
  import opened Wrappers
  import opened Errors
  import opened Text
  import opened Reader
  import opened Configuration
  import Lexer
  import Parser
  import ParserProperties

  // ---------------------------------------------------------------------
  // Line handlers

  /** The handler an action selects. */
  datatype LineHandler = StringHandler | CountHandler | ReplaceHandler

  /** `_string_handle_line`: the line as it is. */
  function StringHandleLine(line: string, fileNumber: int): (r: string)
    ensures r == line
  {
    line
  }

  /** `_count_handle_line`: the number of whitespace-separated words, in decimal. */
  function CountHandleLine(line: string, fileNumber: int): (r: string)
    ensures r != [] && AllDigits(r) && DecimalValue(r) == |Words(line)|
    ensures |r| > 1 ==> r[0] != '0'
  {
    NatToDecimal(|Words(line)|)
  }

  /** The table `_replace_handle_line` looks characters up in. */
  function Replacements(fileNumber: int): map<char, string> {
    map['a' := "1" + IntToDecimal(fileNumber), 'b' := "2" + IntToDecimal(fileNumber), 'c' := "3" + IntToDecimal(fileNumber)]
  }

  /** What one character of the line becomes. */
  function Replacement(ch: char, fileNumber: int): string {
    var replacements := Replacements(fileNumber);
    if ch in replacements then replacements[ch] else [ch]
  }

  /** The line with every character replaced, left to right. */
  function Replaced(line: string, fileNumber: int): string
    decreases |line|
  {
    if line == [] then []
    else Replaced(line[..|line| - 1], fileNumber) + Replacement(line[|line| - 1], fileNumber)
  }

  /** `_replace_handle_line`: builds the result one character at a time. */
  method ReplaceHandleLine(line: string, fileNumber: int) returns (result: string)
    ensures result == Replaced(line, fileNumber)
  {
    var replacements := Replacements(fileNumber);
    result := "";
    for i := 0 to |line|
      invariant result == Replaced(line[..i], fileNumber)
    {
      var ch := line[i];
      assert line[..i + 1][..i] == line[..i];
      result := result + if ch in replacements then replacements[ch] else [ch];
    }
    assert line[..|line|] == line;
  }

  /** What handler `h` makes of a line of file number `fileNumber`. */
  function Handle(h: LineHandler, line: string, fileNumber: int): string {
    match h
    case StringHandler => StringHandleLine(line, fileNumber)
    case CountHandler => CountHandleLine(line, fileNumber)
    case ReplaceHandler => Replaced(line, fileNumber)
  }

  /** Calls the handler. */
  method HandleLine(h: LineHandler, line: string, fileNumber: int) returns (r: string)
    ensures r == Handle(h, line, fileNumber)
  {
    match h {
      case StringHandler => r := StringHandleLine(line, fileNumber);
      case CountHandler => r := CountHandleLine(line, fileNumber);
      case ReplaceHandler => r := ReplaceHandleLine(line, fileNumber);
    }
  }

  /** The action a handler serves. */
  function HandlerAction(h: LineHandler): Action {
    match h
    case StringHandler => Action.String
    case CountHandler => Action.Count
    case ReplaceHandler => Action.Replace
  }

  /** `_get_line_handler`: the handler of an action; `Unknown` has none. */
  function GetLineHandler(action: Action): (r: Result<LineHandler, Error>)
    ensures r.Success? <==> action.Bool()
    ensures r.Success? ==> HandlerAction(r.value) == action
    ensures r.Failure? ==> r.error == AqpError("Unsupported action " + action.Value())
  {
    match action
    case String => Success(StringHandler)
    case Replace => Success(ReplaceHandler)
    case Count => Success(CountHandler)
    case Unknown => Failure(AqpError("Unsupported action " + action.Value()))
  }

  // ---------------------------------------------------------------------
  // The files a configuration selects

  /** `os.path.join(dir, name)`. */
  function PathJoin(dir: string, name: string): string {
    if name != [] && name[0] == '/' then name
    else if dir == [] || dir[|dir| - 1] == '/' then dir + name
    else dir + "/" + name
  }

  /** The regular files among the entries of `dir`, joined to it, in listing order. */
  function FilesIn(dir: string, names: seq<string>, isFile: string -> bool): seq<string>
    decreases |names|
  {
    if names == [] then []
    else
      var path := PathJoin(dir, names[|names| - 1]);
      FilesIn(dir, names[..|names| - 1], isFile) + (if isFile(path) then [path] else [])
  }

  /** The regular files of every directory in `dirs`, directory by directory. */
  function DirFiles(dirs: seq<string>, listDir: string -> seq<string>, isFile: string -> bool): seq<string>
    decreases |dirs|
  {
    if dirs == [] then []
    else DirFiles(dirs[..|dirs| - 1], listDir, isFile) + FilesIn(dirs[|dirs| - 1], listDir(dirs[|dirs| - 1]), isFile)
  }

  /** The files a configuration selects: its paths, or the files in its directories. */
  function Files(c: Config, listDir: string -> seq<string>, isFile: string -> bool): Result<seq<string>, Error>
    requires c.actionPath.Some?
  {
    match c.mode
    case Files => Success(c.actionPath.value)
    case Dir => Success(DirFiles(c.actionPath.value, listDir, isFile))
    case Unknown => Failure(AqpError("Unsupported file mode " + c.mode.Value()))
  }

  /** `_get_files`, collecting the directories' files with two nested loops. */
  method GetFiles(c: Config, listDir: string -> seq<string>, isFile: string -> bool) returns (r: Result<seq<string>, Error>)
    requires c.actionPath.Some?
    ensures r == Files(c, listDir, isFile)
    ensures r.Failure? <==> !c.mode.Bool()
  {
    match c.mode {
      case Files =>
        return Success(c.actionPath.value);
      case Dir =>
        var dirs := c.actionPath.value;
        var files := [];
        for i := 0 to |dirs|
          invariant files == DirFiles(dirs[..i], listDir, isFile)
        {
          var dirPath := dirs[i];
          var names := listDir(dirPath);
          for j := 0 to |names|
            invariant files == DirFiles(dirs[..i], listDir, isFile) + FilesIn(dirPath, names[..j], isFile)
          {
            var filePath := PathJoin(dirPath, names[j]);
            assert names[..j + 1][..j] == names[..j];
            if isFile(filePath) {
              files := files + [filePath];
            }
          }
          assert names[..|names|] == names;
          assert dirs[..i + 1][..i] == dirs[..i];
        }
        assert dirs[..|dirs|] == dirs;
        return Success(files);
      case Unknown =>
        return Failure(AqpError("Unsupported file mode " + c.mode.Value()));
    }
  }

  // ---------------------------------------------------------------------
  // The out table

  /** The largest number of lines in any of the files. */
  function MaxLines(contents: seq<seq<string>>): (n: nat)
    ensures forall i :: 0 <= i < |contents| ==> |contents[i]| <= n
    ensures n == 0 || exists i :: 0 <= i < |contents| && |contents[i]| == n
    decreases |contents|
  {
    if contents == [] then 0
    else
      var m := MaxLines(contents[..|contents| - 1]);
      assert forall i :: 0 <= i < |contents| - 1 ==> contents[i] == contents[..|contents| - 1][i];
      if |contents[|contents| - 1]| > m then |contents[|contents| - 1]| else m
  }

  /**
   * The entry for line `lineInd` of file `fileInd` (both counted from 1):
   * the handled line without its line break, or the handled empty line when
   * the file is shorter.
   */
  function Cell(h: LineHandler, contents: seq<seq<string>>, lineInd: int, fileInd: int): string
    requires 1 <= fileInd <= |contents|
  {
    var lines := contents[fileInd - 1];
    if 1 <= lineInd <= |lines| then Handle(h, RemoveNewlineSuffix(lines[lineInd - 1]), fileInd)
    else Handle(h, "", fileInd)
  }

  /** One row of the table: an entry for every file. */
  function Row(h: LineHandler, contents: seq<seq<string>>, lineInd: int): map<int, string> {
    map fileInd | 1 <= fileInd <= |contents| :: Cell(h, contents, lineInd, fileInd)
  }

  /** The finished table: a row for every line number up to the longest file. */
  function OutTable(h: LineHandler, contents: seq<seq<string>>): map<int, map<int, string>> {
    map lineInd | 1 <= lineInd <= MaxLines(contents) :: Row(h, contents, lineInd)
  }

  /**
   * The table while the first loop runs: files before `k` are done, and the
   * first `j - 1` lines of file `k`.
   */
  ghost predicate FirstPass(out: map<int, map<int, string>>, h: LineHandler, contents: seq<seq<string>>, k: int, j: int)
    requires 1 <= k <= |contents| + 1
  {
    FirstPassRows(out, contents, k, j) && FirstPassEntries(out, contents, k, j) && FirstPassValues(out, h, contents)
  }

  /** The rows present: every line number some finished file has, and those of file `k` done so far. */
  ghost predicate FirstPassRows(out: map<int, map<int, string>>, contents: seq<seq<string>>, k: int, j: int)
    requires 1 <= k <= |contents| + 1
  {
    forall lineInd :: lineInd in out <==> 1 <= lineInd && (lineInd <= MaxLines(contents[..k - 1]) || lineInd < j)
  }

  /** The entries present in a row: the finished files that have the line, and file `k` if done with it. */
  ghost predicate FirstPassEntries(out: map<int, map<int, string>>, contents: seq<seq<string>>, k: int, j: int)
    requires 1 <= k <= |contents| + 1
  {
    forall lineInd, fileInd :: lineInd in out ==>
      (fileInd in out[lineInd] <==>
         1 <= fileInd && ((fileInd < k && lineInd <= |contents[fileInd - 1]|) || (fileInd == k && lineInd < j)))
  }

  /** Every entry present is the cell's value. */
  ghost predicate FirstPassValues(out: map<int, map<int, string>>, h: LineHandler, contents: seq<seq<string>>) {
    forall lineInd, fileInd :: lineInd in out && fileInd in out[lineInd] && 1 <= fileInd <= |contents| ==>
      out[lineInd][fileInd] == Cell(h, contents, lineInd, fileInd)
  }

  /** Row `lineInd` once the files before `f` have their entry, or had one from the first loop. */
  ghost predicate RowUpTo(row: map<int, string>, h: LineHandler, contents: seq<seq<string>>, lineInd: int, f: int) {
    (forall fileInd :: fileInd in row <==>
       1 <= fileInd <= |contents| && (fileInd < f || lineInd <= |contents[fileInd - 1]|))
    && (forall fileInd :: fileInd in row && 1 <= fileInd <= |contents| ==> row[fileInd] == Cell(h, contents, lineInd, fileInd))
  }

  lemma MaxLinesStep(contents: seq<seq<string>>, k: int)
    requires 1 <= k <= |contents|
    ensures MaxLines(contents[..k]) == if |contents[k - 1]| > MaxLines(contents[..k - 1]) then |contents[k - 1]| else MaxLines(contents[..k - 1])
  {
    assert contents[..k][..k - 1] == contents[..k - 1];
  }

  /** The table with `v` entered for line `lineInd` of file `fileInd`. */
  function Enter(out: map<int, map<int, string>>, lineInd: int, fileInd: int, v: string): map<int, map<int, string>> {
    out[lineInd := (if lineInd in out then out[lineInd] else map[])[fileInd := v]]
  }

  lemma FirstPassEnter(out: map<int, map<int, string>>, h: LineHandler, contents: seq<seq<string>>, k: int, j: int)
    requires 1 <= k <= |contents| && 1 <= j <= |contents[k - 1]|
    requires FirstPass(out, h, contents, k, j)
    ensures FirstPass(Enter(out, j, k, Cell(h, contents, j, k)), h, contents, k, j + 1)
  {
    EnterRows(out, contents, k, j, Cell(h, contents, j, k));
    EnterEntries(out, contents, k, j, Cell(h, contents, j, k));
    EnterValues(out, h, contents, k, j);
  }

  lemma EnterRows(out: map<int, map<int, string>>, contents: seq<seq<string>>, k: int, j: int, v: string)
    requires 1 <= k <= |contents| && 1 <= j
    requires FirstPassRows(out, contents, k, j)
    ensures FirstPassRows(Enter(out, j, k, v), contents, k, j + 1)
  {
  }

  lemma EnterEntries(out: map<int, map<int, string>>, contents: seq<seq<string>>, k: int, j: int, v: string)
    requires 1 <= k <= |contents| && 1 <= j
    requires FirstPassRows(out, contents, k, j) && FirstPassEntries(out, contents, k, j)
    ensures FirstPassEntries(Enter(out, j, k, v), contents, k, j + 1)
  {
    var out' := Enter(out, j, k, v);
    forall lineInd, fileInd | lineInd in out'
      ensures fileInd in out'[lineInd] <==>
        1 <= fileInd && ((fileInd < k && lineInd <= |contents[fileInd - 1]|) || (fileInd == k && lineInd < j + 1))
    {
      if lineInd == j && j !in out && 1 <= fileInd < k && lineInd <= |contents[fileInd - 1]| {
        MaxLinesBound(contents[..k - 1], fileInd - 1);
      }
    }
  }

  lemma EnterValues(out: map<int, map<int, string>>, h: LineHandler, contents: seq<seq<string>>, k: int, j: int)
    requires 1 <= k <= |contents|
    requires FirstPassValues(out, h, contents)
    ensures FirstPassValues(Enter(out, j, k, Cell(h, contents, j, k)), h, contents)
  {
  }

  lemma MaxLinesBound(contents: seq<seq<string>>, i: int)
    requires 0 <= i < |contents|
    ensures |contents[i]| <= MaxLines(contents)
  {
  }

  lemma FirstPassNextFile(out: map<int, map<int, string>>, h: LineHandler, contents: seq<seq<string>>, k: int)
    requires 1 <= k <= |contents|
    requires FirstPass(out, h, contents, k, |contents[k - 1]| + 1)
    ensures FirstPass(out, h, contents, k + 1, 1)
  {
    MaxLinesStep(contents, k);
  }

  /** The first loop's body for file `k`: an entry for each of its lines. */
  method FillFile(out0: map<int, map<int, string>>, h: LineHandler, contents: seq<seq<string>>, k: int)
    returns (out: map<int, map<int, string>>)
    requires 1 <= k <= |contents| && FirstPass(out0, h, contents, k, 1)
    ensures FirstPass(out, h, contents, k + 1, 1)
  {
    out := out0;
    var lines := contents[k - 1];
    var lineInd := 1;
    while lineInd <= |lines|
      invariant 1 <= lineInd <= |lines| + 1
      invariant FirstPass(out, h, contents, k, lineInd)
    {
      var line := lines[lineInd - 1];
      ghost var before := out;
      if lineInd !in out {
        out := out[lineInd := map[]];
      }
      var v := HandleLine(h, RemoveNewlineSuffix(line), k);
      out := out[lineInd := out[lineInd][k := v]];
      assert out == Enter(before, lineInd, k, Cell(h, contents, lineInd, k));
      FirstPassEnter(before, h, contents, k, lineInd);
      lineInd := lineInd + 1;
    }
    FirstPassNextFile(out, h, contents, k);
  }

  /** The second loop's body for row `lineInd`: the handled empty line for every file that has no entry. */
  method FillRow(row0: map<int, string>, h: LineHandler, contents: seq<seq<string>>, lineInd: int)
    returns (row: map<int, string>)
    requires RowUpTo(row0, h, contents, lineInd, 1)
    ensures row == Row(h, contents, lineInd)
  {
    row := row0;
    var fileInd := 1;
    while fileInd <= |contents|
      invariant 1 <= fileInd <= |contents| + 1
      invariant RowUpTo(row, h, contents, lineInd, fileInd)
    {
      if fileInd !in row {
        var v := HandleLine(h, "", fileInd);
        RowUpToFill(row, h, contents, lineInd, fileInd, v);
        row := row[fileInd := v];
      } else {
        RowUpToKeep(row, h, contents, lineInd, fileInd);
      }
      fileInd := fileInd + 1;
    }
    RowComplete(row, h, contents, lineInd);
  }

  lemma RowUpToFill(row: map<int, string>, h: LineHandler, contents: seq<seq<string>>, lineInd: int, f: int, v: string)
    requires 1 <= f <= |contents| && RowUpTo(row, h, contents, lineInd, f)
    requires f !in row && v == Handle(h, "", f)
    ensures RowUpTo(row[f := v], h, contents, lineInd, f + 1)
  {
  }

  lemma RowUpToKeep(row: map<int, string>, h: LineHandler, contents: seq<seq<string>>, lineInd: int, f: int)
    requires 1 <= f <= |contents| && RowUpTo(row, h, contents, lineInd, f) && f in row
    ensures RowUpTo(row, h, contents, lineInd, f + 1)
  {
  }

  lemma RowComplete(row: map<int, string>, h: LineHandler, contents: seq<seq<string>>, lineInd: int)
    requires RowUpTo(row, h, contents, lineInd, |contents| + 1)
    ensures row == Row(h, contents, lineInd)
  {
  }

  /**
   * The out table of `execute_config`: a first pass over every line of every
   * file, then a pass over the rows that fills in the files without that line.
   */
  method BuildOutTable(h: LineHandler, contents: seq<seq<string>>) returns (out: map<int, map<int, string>>)
    ensures out == OutTable(h, contents)
  {
    out := map[];
    var fileInd := 1;
    while fileInd <= |contents|
      invariant 1 <= fileInd <= |contents| + 1
      invariant FirstPass(out, h, contents, fileInd, 1)
    {
      out := FillFile(out, h, contents, fileInd);
      fileInd := fileInd + 1;
    }
    assert contents[..|contents|] == contents;
    var pending := out.Keys;
    while pending != {}
      invariant pending <= out.Keys
      invariant forall lineInd :: lineInd in out <==> 1 <= lineInd <= MaxLines(contents)
      invariant forall lineInd :: lineInd in out && lineInd !in pending ==> out[lineInd] == Row(h, contents, lineInd)
      invariant forall lineInd :: lineInd in pending ==> RowUpTo(out[lineInd], h, contents, lineInd, 1)
      decreases pending
    {
      var lineInd :| lineInd in pending;
      var row := FillRow(out[lineInd], h, contents, lineInd);
      out := out[lineInd := row];
      pending := pending - {lineInd};
    }
  }

  // ---------------------------------------------------------------------
  // execute_config

  /** The dictionary `execute_config` returns. */
  datatype Report = Report(
    configurationId: int,
    configFile: Option<string>,
    mode: string,
    path: string,
    out: map<int, map<int, string>>)

  /** The lines of every file, in the order of `files`. */
  function Contents(files: seq<string>, readLines: string -> seq<string>): (contents: seq<seq<string>>)
    ensures |contents| == |files|
  {
    seq(|files|, i requires 0 <= i < |files| => readLines(files[i]))
  }

  /** What executing `c` yields: its report, or the first error met. */
  function Execute(c: Config, listDir: string -> seq<string>, isFile: string -> bool, readLines: string -> seq<string>)
    : Result<Report, Error>
  {
    if c.actionPath.None? then Failure(AqpError("Action path is not provided"))
    else
      match Files(c, listDir, isFile)
      case Failure(e) => Failure(e)
      case Success(files) =>
        match GetLineHandler(c.action)
        case Failure(e) => Failure(e)
        case Success(h) =>
          Success(Report(c.configId, c.pathToConfig, c.mode.Value(), Join(c.actionPath.value),
                         OutTable(h, Contents(files, readLines))))
  }

  /** `execute_config`. */
  method ExecuteConfig(c: Config, listDir: string -> seq<string>, isFile: string -> bool, readLines: string -> seq<string>)
    returns (r: Result<Report, Error>)
    ensures r == Execute(c, listDir, isFile, readLines)
  {
    if c.actionPath.None? {
      return Failure(AqpError("Action path is not provided"));
    }
    var files := GetFiles(c, listDir, isFile);
    if files.Failure? {
      return Failure(files.error);
    }
    var handler := GetLineHandler(c.action);
    if handler.Failure? {
      return Failure(handler.error);
    }
    var contents := Contents(files.value, readLines);
    var out := BuildOutTable(handler.value, contents);
    return Success(Report(c.configId, c.pathToConfig, c.mode.Value(), Join(c.actionPath.value), out));
  }

  // ---------------------------------------------------------------------
  // loads

  /** `loads`: a reader over the text, a lexer over the reader, a parser over the lexer. */
  method Loads(text: string) returns (r: Result<map<int, Config>, Error>)
    ensures r == Parser.Parse(text)
  {
    var reader := new IoReader(text);
    var lexer := new Lexer.Lexer(reader);
    var parser := new Parser.Parser(lexer);
    r := parser.Parse();
  }
}
