/** Character classes and the decoding of character literals (util/Utilities.java). */
module Utilities {
  import opened Outcomes

  /** A character that may start an identifier: `_` or an ASCII letter. */
  predicate IsIdentifierNonDigit(c: char) {
    c == '_' || ('a' <= c <= 'z') || ('A' <= c <= 'Z')
  }

  predicate IsDigit(c: char) {
    '0' <= c <= '9'
  }

  /**
   * The escape sequences a character literal may hold, by the letter after the
   * backslash, with the code each stands for.
   */
  function EscapeCode(letter: char): Option<int> {
    match letter
    case 'n' => Some(10)
    case 'r' => Some(13)
    case 't' => Some(9)
    case 'f' => Some(12)
    case '0' => Some(0)
    case '\\' => Some(92)
    case 'a' => Some(7)
    case 'b' => Some(8)
    case 'v' => Some(11)
    case _ => None
  }

  /**
   * `getASCII(str)`: the code a character literal's text denotes. `None` stands for
   * the `null` returned when the text is not wrapped in single quotes or what is
   * between the quotes is neither a listed escape nor one character. On the empty
   * text (`charAt(0)`) and a lone quote (`substring(1, 0)`) Java throws.
   */
  function GetASCII(s: string): (r: Result<Option<int>>)
    ensures r.Throws? <==> s == [] || s == "'"
    ensures r.Ok? && r.value.Some? ==> |s| >= 3 && s[0] == '\'' && s[|s| - 1] == '\''
  {
    if s == [] then Throws(IndexOutOfBounds)
    else if s[0] != '\'' || s[|s| - 1] != '\'' then Ok(None)
    else if |s| == 1 then Throws(IndexOutOfBounds)
    else
      var inner := s[1..|s| - 1];
      if inner == "\\n" then Ok(Some(10))
      else if inner == "\\r" then Ok(Some(13))
      else if inner == "\\t" then Ok(Some(9))
      else if inner == "\\f" then Ok(Some(12))
      else if inner == "\\0" then Ok(Some(0))
      else if inner == "\\\\" then Ok(Some(92))
      else if inner == "\\a" then Ok(Some(7))
      else if inner == "\\b" then Ok(Some(8))
      else if inner == "\\v" then Ok(Some(11))
      else if inner == "\"" then Ok(Some('"' as int))
      else if inner == "'" then Ok(Some('\'' as int))
      else if |inner| != 1 then Ok(None)
      else Ok(Some(inner[0] as int))
  }

  /** A quoted single character denotes its own code, quotes included. */
  lemma QuotedCharCode(c: char)
    ensures GetASCII(['\'', c, '\'']) == Ok(Some(c as int))
  {
    var s := ['\'', c, '\''];
    assert s[1..|s| - 1] == [c];
  }

  /**
   * A backslash and a letter between quotes decode exactly as the escape table says;
   * every other letter, among them `'` and `"`, gives `null`.
   */
  lemma {:induction false} EscapeDecoding(letter: char)
    ensures GetASCII(['\'', '\\', letter, '\'']) == Ok(EscapeCode(letter))
  {
    var s := ['\'', '\\', letter, '\''];
    assert s[1..|s| - 1] == ['\\', letter];
  }

  /** A quoted text of two or more characters that is not an escape gives `null`. */
  lemma {:induction false} LongLiteralIsNull(inner: string)
    requires |inner| >= 2 && !(|inner| == 2 && inner[0] == '\\' && EscapeCode(inner[1]).Some?)
    ensures GetASCII(['\''] + inner + ['\'']) == Ok(None)
  {
    var s := ['\''] + inner + ['\''];
    assert s[1..|s| - 1] == inner;
    if |inner| == 2 && inner[0] == '\\' {
      assert inner == ['\\', inner[1]];
    }
  }

  /** Unquoted text gives `null`. */
  lemma UnquotedIsNull(s: string)
    requires |s| > 0 && (s[0] != '\'' || s[|s| - 1] != '\'')
    ensures GetASCII(s) == Ok(None)
  {
  }
}
