/**
 * The tokens of the AQC language. Every kind holds exactly one payload, kept
 * as it was given; a token may also carry the place in the file where the
 * lexer stood right after reading it.
 */
module Tokens {
  import opened Wrappers
  import opened Reader

  datatype Token =
    /** `#<digits>` or `#id: <digits>`: starts a record. */
    | Id(id: int, pos: Option<FilePosition>)
    /** `#path: <escaped text>` */
    | Path(path: string, pos: Option<FilePosition>)
    /** `#mode: <text>` */
    | Mode(mode: string, pos: Option<FilePosition>)
    /** `#action: <text>` */
    | Action(action: string, pos: Option<FilePosition>)
    /** Malformed input; its value is None and it carries a message instead. */
    | ErrorToken(errorMessage: string, pos: Option<FilePosition>)

  /** `ErrorToken()`: the message defaults to the empty string. */
  const DefaultErrorToken: Token := ErrorToken("", None)

  /** The same token without its place in the file. */
  function WithoutPosition(t: Token): (u: Token)
    ensures u.pos.None? && u.(pos := t.pos) == t
  {
    t.(pos := None)
  }
}
