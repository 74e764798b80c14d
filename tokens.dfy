/** Tokens and their classification (lexical/Token.java). */
module Tokens {
  import opened Outcomes

  /** The token categories of the source language. */
  datatype TokenType =
    | IDENFR | INTCON | STRCON | CHRCON
    | MAINTK | CONSTTK | INTTK | CHARTK | BREAKTK | CONTINUETK | IFTK | ELSETK
    | NOT | AND | OR
    | FORTK | GETINTTK | GETCHARTK | PRINTFTK | RETURNTK
    | PLUS | MINU | VOIDTK | MULT | DIV | MOD
    | LSS | LEQ | GRE | GEQ | EQL | NEQ
    | ASSIGN | SEMICN | COMMA | LPARENT | RPARENT | LBRACK | RBRACK | LBRACE | RBRACE
    | EOF

  /** A token: its text, its category and the 0-based index of its source line. */
  datatype Token = Token(text: string, kind: TokenType, line: int)

  /** The reserved words and two-character operators, with their categories. */
  const Reserved: map<string, TokenType> := map[
    "main" := MAINTK, "const" := CONSTTK, "int" := INTTK, "char" := CHARTK,
    "break" := BREAKTK, "continue" := CONTINUETK, "if" := IFTK, "else" := ELSETK,
    "for" := FORTK, "getint" := GETINTTK, "getchar" := GETCHARTK, "printf" := PRINTFTK,
    "return" := RETURNTK, "void" := VOIDTK,
    "&&" := AND, "||" := OR, "<=" := LEQ, ">=" := GEQ, "==" := EQL, "!=" := NEQ]

  /** The single-character tokens, with their categories. */
  const Punctuation: map<char, TokenType> := map[
    '!' := NOT, '(' := LPARENT, ')' := RPARENT, '{' := LBRACE, '}' := RBRACE,
    '[' := LBRACK, ']' := RBRACK, ';' := SEMICN, ',' := COMMA, '+' := PLUS,
    '-' := MINU, '*' := MULT, '/' := DIV, '%' := MOD, '<' := LSS, '>' := GRE,
    '=' := ASSIGN]

  /** The category `Token(String, int)` gives a word: a chain of string comparisons. */
  function WordType(s: string): TokenType {
    if s == "main" then MAINTK
    else if s == "const" then CONSTTK
    else if s == "int" then INTTK
    else if s == "char" then CHARTK
    else if s == "break" then BREAKTK
    else if s == "continue" then CONTINUETK
    else if s == "if" then IFTK
    else if s == "else" then ELSETK
    else if s == "for" then FORTK
    else if s == "getint" then GETINTTK
    else if s == "getchar" then GETCHARTK
    else if s == "printf" then PRINTFTK
    else if s == "return" then RETURNTK
    else if s == "void" then VOIDTK
    else if s == "&&" then AND
    else if s == "||" then OR
    else if s == "<=" then LEQ
    else if s == ">=" then GEQ
    else if s == "==" then EQL
    else if s == "!=" then NEQ
    else IDENFR
  }

  /** `new Token(s, line)`: the text kept as given, classified by `WordType`. */
  function FromWord(s: string, line: int): (t: Token)
    ensures t.text == s && t.line == line
    ensures t.kind == if s in Reserved then Reserved[s] else IDENFR
  {
    Token(s, WordType(s), line)
  }

  /** The category `Token(char, int)` gives a character, or `UnknownError`. */
  function CharType(c: char): Result<TokenType> {
    if c == '!' then Ok(NOT)
    else if c == '(' then Ok(LPARENT)
    else if c == ')' then Ok(RPARENT)
    else if c == '{' then Ok(LBRACE)
    else if c == '}' then Ok(RBRACE)
    else if c == '[' then Ok(LBRACK)
    else if c == ']' then Ok(RBRACK)
    else if c == ';' then Ok(SEMICN)
    else if c == ',' then Ok(COMMA)
    else if c == '+' then Ok(PLUS)
    else if c == '-' then Ok(MINU)
    else if c == '*' then Ok(MULT)
    else if c == '/' then Ok(DIV)
    else if c == '%' then Ok(MOD)
    else if c == '<' then Ok(LSS)
    else if c == '>' then Ok(GRE)
    else if c == '=' then Ok(ASSIGN)
    else Throws(UnknownError)
  }

  /** `new Token(c, line)`: a one-character token, or `UnknownError` for any other character. */
  function FromChar(c: char, line: int): (r: Result<Token>)
    ensures r.Ok? <==> c in Punctuation
    ensures r.Ok? ==> r.value == Token([c], Punctuation[c], line)
    ensures r.Throws? ==> r.exception == UnknownError
  {
    var kind :- CharType(c);
    Ok(Token([c], kind, line))
  }

  /** Words that are not reserved are identifiers, and only they are. */
  lemma {:induction false} IdentifierIffNotReserved(s: string)
    ensures WordType(s) == IDENFR <==> s !in Reserved
  {
    assert FromWord(s, 0).kind == WordType(s);
  }

  /** Distinct reserved words get distinct categories, none of them IDENFR. */
  lemma ReservedDistinct(s: string, u: string)
    requires s in Reserved && u in Reserved && s != u
    ensures Reserved[s] != Reserved[u] && Reserved[s] != IDENFR
  {
  }
}
