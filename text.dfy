/**
 * The handful of Python string operations the AQC front end and its line
 * handlers rely on: `isspace`, `isnumeric`, `count`, `rfind`, `strip`,
 * `split(", ")`, `", ".join`, `split()`, `int`, `str` and `removesuffix`.
 * Character classes are restricted to ASCII: whitespace is what Python's
 * `str.isspace` accepts below 128, a digit is '0'..'9'.
 */
module Text {

  /** Python's `str.isspace` on one ASCII character. */
  predicate IsSpace(c: char) {
    c == ' ' || c == '\t' || c == '\n' || c == '\r' || c == '\U{000B}' || c == '\U{000C}'
    || ('\U{001C}' <= c <= '\U{001F}')
  }

  /** Python's `str.isnumeric` on one character, restricted to ASCII digits. */
  predicate IsDigit(c: char) {
    '0' <= c <= '9'
  }

  predicate AllDigits(s: string) {
    forall i :: 0 <= i < |s| ==> IsDigit(s[i])
  }

  predicate NoSpace(s: string) {
    forall i :: 0 <= i < |s| ==> !IsSpace(s[i])
  }

  predicate AllSpace(s: string) {
    forall i :: 0 <= i < |s| ==> IsSpace(s[i])
  }

  /** Neither the first nor the last character is whitespace. */
  predicate NoSurroundingSpace(s: string) {
    s == [] || (!IsSpace(s[0]) && !IsSpace(s[|s| - 1]))
  }

  predicate StartsWith(s: string, prefix: string) {
    |prefix| <= |s| && s[..|prefix|] == prefix
  }

  /**
   * A text made of `x`, then `e`, then `v` starts with `x`, and `e + v` is
   * what follows it. Stated over plain sequences so that a proof about a
   * text built by a recursive function need not reason about that function
   * to take it apart.
   */
  lemma Concat3(r: string, x: string, e: string, v: string)
    requires r == (x + e) + v
    ensures |r| == |x| + |e| + |v|
    ensures forall i :: 0 <= i < |x| ==> r[i] == x[i]
    ensures r[|x|..] == e + v
  {
  }

  lemma AppendAssoc(a: string, b: string, c: string)
    ensures a + b + c == a + (b + c)
  {
  }

  lemma HeadTail(s: string)
    requires s != []
    ensures [s[0]] + s[1..] == s
  {
  }

  /** `x` and `y` are the two halves of `x + y`. */
  lemma SplitAt(r: string, x: string, y: string)
    requires r == x + y
    ensures |r| == |x| + |y| && r[..|x|] == x && r[|x|..] == y
    ensures forall i :: 0 <= i < |x| ==> r[i] == x[i]
  {
  }

  /** Dropping the last character of `s + t`, with `t` not empty, drops the last character of `t`. */
  lemma AppendDropLast(s: string, t: string)
    requires t != []
    ensures (s + t)[..|s + t| - 1] == s + t[..|t| - 1] && (s + t)[|s + t| - 1] == t[|t| - 1]
  {
  }

  lemma AllSpaceSlice(g: string, i: nat, j: nat)
    requires AllSpace(g) && i <= j <= |g|
    ensures AllSpace(g[i..j])
  {
  }

  lemma EmptyAppend(s: string)
    ensures "" + s == s && s + "" == s
  {
  }

  // ---------------------------------------------------------------------------
  // count and rfind

  /** `s.count(ch)` for a single character. */
  function Count(s: string, ch: char): nat
  {
    if s == [] then 0
    else Count(s[..|s| - 1], ch) + (if s[|s| - 1] == ch then 1 else 0)
  }

  /** `s.rfind(ch)`: the last index holding `ch`, or -1. */
  function RFind(s: string, ch: char): (r: int)
    ensures -1 <= r < |s|
    ensures 0 <= r ==> s[r] == ch
    ensures forall i :: r < i < |s| ==> s[i] != ch
  {
    if s == [] then -1
    else if s[|s| - 1] == ch then |s| - 1
    else RFind(s[..|s| - 1], ch)
  }

  // ---------------------------------------------------------------------------
  // strip

  function StripLeft(s: string): (r: string)
    ensures |r| <= |s| && r == s[|s| - |r|..]
    ensures forall i :: 0 <= i < |s| - |r| ==> IsSpace(s[i])
    ensures r == [] || !IsSpace(r[0])
  {
    if s != [] && IsSpace(s[0]) then
      var r := StripLeft(s[1..]);
      assert s[1..][|s| - 1 - |r|..] == s[|s| - |r|..];
      r
    else s
  }

  function StripRight(s: string): (r: string)
    ensures |r| <= |s| && r == s[..|r|]
    ensures forall i :: |r| <= i < |s| ==> IsSpace(s[i])
    ensures r == [] || !IsSpace(r[|r| - 1])
  {
    if s != [] && IsSpace(s[|s| - 1]) then StripRight(s[..|s| - 1]) else s
  }

  /** `s.strip()`: drops leading and trailing whitespace and nothing else. */
  function Strip(s: string): (r: string)
    ensures NoSurroundingSpace(r)
    ensures |r| <= |s|
  {
    StripRight(StripLeft(s))
  }

  lemma {:induction false} StripLeftAfterSpaces(w: string, v: string)
    requires AllSpace(w)
    ensures StripLeft(w + v) == StripLeft(v)
  {
    if w != [] {
      assert (w + v)[0] == w[0];
      assert (w + v)[1..] == w[1..] + v;
      StripLeftAfterSpaces(w[1..], v);
    } else {
      assert w + v == v;
    }
  }

  /** Whitespace in front of a string does not change what `strip` returns. */
  lemma StripAfterSpaces(w: string, v: string)
    requires AllSpace(w)
    ensures Strip(w + v) == Strip(v)
  {
    StripLeftAfterSpaces(w, v);
  }

  lemma {:induction false} StripRightPadded(m: string, w: string)
    requires m == [] || !IsSpace(m[|m| - 1])
    requires AllSpace(w)
    ensures StripRight(m + w) == m
    decreases |w|
  {
    if w == [] {
      assert m + w == m;
    } else {
      var w' := w[..|w| - 1];
      assert (m + w)[|m + w| - 1] == w[|w| - 1];
      assert (m + w)[..|m + w| - 1] == m + w';
      StripRightPadded(m, w');
    }
  }

  /** Whitespace after a string with no surrounding whitespace is all `strip` removes. */
  lemma StripPadded(m: string, w: string)
    requires NoSurroundingSpace(m) && AllSpace(w)
    ensures Strip(m + w) == m
  {
    if m == [] {
      assert m + w == w + [];
      StripLeftAfterSpaces(w, []);
      StripRightPadded([], []);
    } else {
      assert (m + w)[0] == m[0];
      assert StripLeft(m + w) == m + w;
      StripRightPadded(m, w);
    }
  }

  /** A string with no surrounding whitespace is its own `strip`. */
  lemma StripKeeps(s: string)
    requires NoSurroundingSpace(s)
    ensures Strip(s) == s
  {
  }

  // ---------------------------------------------------------------------------
  // split(", ") and ", ".join

  const Separator: string := ", "

  /** `s.split(", ")`: the pieces between the occurrences of ", ", left to right. */
  function Split(s: string): (parts: seq<string>)
    ensures |parts| >= 1
    decreases |s|
  {
    if |s| < 2 then [s]
    else if s[..2] == Separator then [""] + Split(s[2..])
    else
      var tail := Split(s[1..]);
      [[s[0]] + tail[0]] + tail[1..]
  }

  /** `", ".join(parts)`. */
  function Join(parts: seq<string>): string
  {
    if parts == [] then ""
    else if |parts| == 1 then parts[0]
    else parts[0] + Separator + Join(parts[1..])
  }

  /** Joining the pieces of a split restores the text that was split. */
  lemma {:induction false} JoinSplit(s: string)
    ensures Join(Split(s)) == s
    decreases |s|
  {
    if |s| < 2 {
    } else if s[..2] == Separator {
      var rest := Split(s[2..]);
      assert Split(s) == [""] + rest;
      assert Join(rest) == s[2..] by {
        JoinSplit(s[2..]);
      }
      assert Join([""] + rest) == "" + Separator + Join(rest) by {
        JoinCons("", rest);
      }
      assert s == s[..2] + s[2..];
    } else {
      var tail := Split(s[1..]);
      assert Split(s) == [[s[0]] + tail[0]] + tail[1..];
      assert Join(tail) == s[1..] by {
        JoinSplit(s[1..]);
      }
      assert Join([[s[0]] + tail[0]] + tail[1..]) == [s[0]] + Join(tail) by {
        JoinFront(s[0], tail);
      }
      assert s == [s[0]] + s[1..];
    }
  }

  /** A piece in front of other pieces is joined to them by a separator. */
  lemma JoinCons(x: string, rest: seq<string>)
    requires rest != []
    ensures Join([x] + rest) == x + Separator + Join(rest)
  {
    assert ([x] + rest)[1..] == rest;
  }

  /** A character put in front of the first piece ends up in front of the joined text. */
  lemma JoinFront(ch: char, parts: seq<string>)
    requires parts != []
    ensures Join([[ch] + parts[0]] + parts[1..]) == [ch] + Join(parts)
  {
    if |parts| > 1 {
      JoinCons([ch] + parts[0], parts[1..]);
      JoinCons(parts[0], parts[1..]);
      assert [parts[0]] + parts[1..] == parts;
    }
  }

  /** Whether ", " starts at index `i` of `s`. */
  predicate SeparatorAt(s: string, i: int) {
    0 <= i && i + 1 < |s| && s[i] == ',' && s[i + 1] == ' '
  }

  predicate NoSeparator(s: string) {
    forall i :: 0 <= i < |s| ==> !SeparatorAt(s, i)
  }

  /** A text holding no separator splits into the one piece at its front. */
  lemma {:induction false} SplitAtSeparator(a: string, b: string)
    requires NoSeparator(a)
    ensures Split(a + Separator + b) == [a] + Split(b)
    decreases |a|
  {
    var s := a + Separator + b;
    if a == [] {
      assert s[..2] == Separator;
      assert s[2..] == b;
    } else {
      assert s[..2] != Separator by {
        if |a| >= 2 {
          assert !SeparatorAt(a, 0);
          assert s[..2] == a[..2];
        } else {
          assert s[..2] == [a[0], ','];
        }
      }
      assert Split(s[1..]) == [a[1..]] + Split(b) by {
        assert NoSeparator(a[1..]) by {
          forall i | 0 <= i < |a[1..]|
            ensures !SeparatorAt(a[1..], i)
          {
            assert !SeparatorAt(a, i + 1);
          }
        }
        assert s[1..] == a[1..] + Separator + b;
        SplitAtSeparator(a[1..], b);
      }
      assert [s[0]] + a[1..] == a;
    }
  }

  /** A text with no separator in it is a single piece. */
  lemma {:induction false} SplitWithoutSeparator(s: string)
    requires NoSeparator(s)
    ensures Split(s) == [s]
    decreases |s|
  {
    if |s| >= 2 {
      assert !SeparatorAt(s, 0);
      assert NoSeparator(s[1..]) by {
        forall i | 0 <= i < |s[1..]|
          ensures !SeparatorAt(s[1..], i)
        {
          assert !SeparatorAt(s, i + 1);
        }
      }
      SplitWithoutSeparator(s[1..]);
      assert [s[0]] + s[1..] == s;
    }
  }

  // ---------------------------------------------------------------------------
  // split() into words

  /** Length of the run of non-whitespace characters that `s` starts with. */
  function RunLength(s: string): (n: nat)
    ensures n <= |s|
    ensures forall i :: 0 <= i < n ==> !IsSpace(s[i])
    ensures n == |s| || IsSpace(s[n])
  {
    if s == [] || IsSpace(s[0]) then 0 else 1 + RunLength(s[1..])
  }

  /** `s.split()`: the maximal runs of non-whitespace characters, in order. */
  function Words(s: string): seq<string>
    decreases |s|
  {
    if s == [] then []
    else if IsSpace(s[0]) then Words(s[1..])
    else
      var n := RunLength(s);
      [s[..n]] + Words(s[n..])
  }

  /** Every word is a non-empty run of non-whitespace characters. */
  lemma {:induction false} WordsAreRuns(s: string)
    ensures forall k :: 0 <= k < |Words(s)| ==> Words(s)[k] != [] && NoSpace(Words(s)[k])
    decreases |s|
  {
    if s != [] {
      if IsSpace(s[0]) {
        WordsAreRuns(s[1..]);
      } else {
        WordsAreRuns(s[RunLength(s)..]);
      }
    }
  }

  /** A single run of non-whitespace is one word. */
  lemma WordsOfWord(w: string)
    requires w != [] && NoSpace(w)
    ensures Words(w) == [w]
  {
    assert RunLength(w) == |w|;
    assert w[..|w|] == w;
    assert w[|w|..] == [];
    assert Words([]) == [];
  }

  /** Leading whitespace is not part of any word. */
  lemma WordsAfterSpace(x: char, b: string)
    requires IsSpace(x)
    ensures Words([x] + b) == Words(b)
  {
    assert ([x] + b)[1..] == b;
  }

  /** A text starting with a non-whitespace character starts with its first word. */
  lemma WordsOfNonSpace(s: string)
    requires s != [] && !IsSpace(s[0])
    ensures Words(s) == [s[..RunLength(s)]] + Words(s[RunLength(s)..])
  {
  }

  /** The first run of `a + [x] + b`, for whitespace `x`, is the first run of `a`. */
  lemma RunLengthBeforeSpace(a: string, x: char, b: string)
    requires IsSpace(x)
    ensures RunLength(a + [x] + b) == RunLength(a)
    decreases |a|
  {
    if a != [] && !IsSpace(a[0]) {
      assert (a + [x] + b)[1..] == a[1..] + [x] + b;
      RunLengthBeforeSpace(a[1..], x, b);
    } else if a == [] {
      assert a + [x] + b == [x] + b;
    }
  }

  lemma WordsAtRun(a: string, x: char, b: string)
    requires IsSpace(x) && a != [] && !IsSpace(a[0])
    ensures Words(a + [x] + b) == Words(a) + Words(b)
    decreases |a|, 0
  {
    var m := RunLength(a);
    assert Words(a + [x] + b) == [a[..m]] + Words(a[m..] + [x] + b) by {
      RunLengthBeforeSpace(a, x, b);
      CutBefore(a, x, b, m);
      WordsOfNonSpace(a + [x] + b);
    }
    assert Words(a) == [a[..m]] + Words(a[m..]) by {
      WordsOfNonSpace(a);
    }
    WordsSplitAtSpace(a[m..], x, b);
  }

  /** Cutting `a + [x] + b` inside `a` cuts `a`. */
  lemma CutBefore(a: string, x: char, b: string, m: nat)
    requires m <= |a|
    ensures (a + [x] + b)[..m] == a[..m] && (a + [x] + b)[m..] == a[m..] + [x] + b
  {
  }

  /** Words never span whitespace: a whitespace character splits the word list. */
  lemma {:induction false} WordsSplitAtSpace(a: string, x: char, b: string)
    requires IsSpace(x)
    ensures Words(a + [x] + b) == Words(a) + Words(b)
    decreases |a|, 1
  {
    var s := a + [x] + b;
    if a == [] {
      assert s == [x] + b;
      WordsAfterSpace(x, b);
      assert Words(a) == [];
    } else if IsSpace(a[0]) {
      var a' := a[1..];
      assert s == [a[0]] + (a' + [x] + b);
      assert a == [a[0]] + a';
      WordsAfterSpace(a[0], a' + [x] + b);
      WordsAfterSpace(a[0], a');
      WordsSplitAtSpace(a', x, b);
    } else {
      WordsAtRun(a, x, b);
    }
  }

  // ---------------------------------------------------------------------------
  // int() and str() on decimal numbers

  function DigitValue(c: char): nat
    requires IsDigit(c)
  {
    c as int - '0' as int
  }

  function DigitChar(d: nat): (c: char)
    requires d < 10
    ensures IsDigit(c) && DigitValue(c) == d
  {
    ('0' as int + d) as char
  }

  /** `int(digits)` for a string of ASCII digits (0 for the empty string). */
  function DecimalValue(digits: string): nat
    requires AllDigits(digits)
  {
    if digits == [] then 0
    else DecimalValue(digits[..|digits| - 1]) * 10 + DigitValue(digits[|digits| - 1])
  }

  /** `str(n)` for a natural number: its decimal digits without leading zeros. */
  function NatToDecimal(n: nat): (r: string)
    ensures r != [] && AllDigits(r)
    ensures |r| > 1 ==> r[0] != '0'
    ensures DecimalValue(r) == n
    decreases n
  {
    if n < 10 then [DigitChar(n)]
    else
      var p := NatToDecimal(n / 10);
      var r := p + [DigitChar(n % 10)];
      assert r[..|r| - 1] == p;
      r
  }

  /** `str(i)` for any integer. */
  function IntToDecimal(i: int): string
  {
    if i < 0 then "-" + NatToDecimal(-i) else NatToDecimal(i)
  }

  /** `line.removesuffix("\n")`. */
  function RemoveNewlineSuffix(line: string): string
  {
    if |line| > 0 && line[|line| - 1] == '\n' then line[..|line| - 1] else line
  }
}
