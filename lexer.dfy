/**
 * The line-oriented tokenizer and the token cursor (lexical/Lexer.java).
 *
 * `Lex` states what the tokenizing constructor computes over the program's lines;
 * `Tokenize` is its loop, proved to compute `Lex`. Java exceptions raised while
 * scanning (`charAt` past the end of a line, `getLine` past the last line,
 * `UnknownError` for a character outside the alphabet) are `Throws` results.
 */
module Lexer {
  import opened Outcomes
  import opened Utilities
  import opened Tokens
  import opened ProgramExceptions

  predicate IsBlank(c: char) {
    c == ' ' || c == '\t' || c == '\r' || c == '\n'
  }

  predicate IsWordChar(c: char) {
    IsIdentifierNonDigit(c) || IsDigit(c)
  }

  /** The characters a string constant keeps. */
  predicate IsPrintable(c: char) {
    32 <= c as int <= 126
  }

  /** The characters that always form a token on their own. */
  predicate IsSingle(c: char) {
    c == '+' || c == '-' || c == '*' || c == '%' || c == ';' || c == ',' ||
    c == ')' || c == '(' || c == '{' || c == '}' || c == '[' || c == ']'
  }

  /** The end of the run of identifier characters that starts at `j`. */
  function WordEnd(line: string, j: nat): (e: nat)
    requires j <= |line|
    ensures j <= e <= |line|
    ensures forall k :: j <= k < e ==> IsWordChar(line[k])
    ensures e == |line| || !IsWordChar(line[e])
    decreases |line| - j
  {
    if j < |line| && IsWordChar(line[j]) then WordEnd(line, j + 1) else j
  }

  /** The end of the run of digits that starts at `j`. */
  function DigitsEnd(line: string, j: nat): (e: nat)
    requires j <= |line|
    ensures j <= e <= |line|
    ensures forall k :: j <= k < e ==> IsDigit(line[k])
    ensures e == |line| || !IsDigit(line[e])
    decreases |line| - j
  {
    if j < |line| && IsDigit(line[j]) then DigitsEnd(line, j + 1) else j
  }

  /** The position of the first `"` at or after `j`, if any. */
  function QuoteAt(line: string, j: nat): (r: Option<nat>)
    requires j <= |line|
    ensures r.Some? ==> j <= r.value < |line| && line[r.value] == '"'
    ensures r.Some? ==> forall k :: j <= k < r.value ==> line[k] != '"'
    ensures r.None? ==> forall k :: j <= k < |line| ==> line[k] != '"'
    decreases |line| - j
  {
    if j == |line| then None else if line[j] == '"' then Some(j) else QuoteAt(line, j + 1)
  }

  /** The printable characters of `s`, in order. */
  function Printable(s: string): (r: string)
    ensures forall k :: 0 <= k < |r| ==> IsPrintable(r[k])
  {
    if s == [] then []
    else Printable(s[..|s| - 1]) + (if IsPrintable(s[|s| - 1]) then [s[|s| - 1]] else [])
  }

  /** A text made only of printable characters is kept whole. */
  lemma {:induction false} PrintableKeepsAll(s: string)
    requires forall k :: 0 <= k < |s| ==> IsPrintable(s[k])
    ensures Printable(s) == s
    decreases |s|
  {
    if s != [] {
      PrintableKeepsAll(s[..|s| - 1]);
    }
  }

  /** Each printable character of `s` is kept exactly as often as it occurs there, and no other. */
  lemma {:induction false} PrintableCounts(s: string)
    ensures forall c :: multiset(Printable(s))[c] == if IsPrintable(c) then multiset(s)[c] else 0
    decreases |s|
  {
    if s != [] {
      var s' := s[..|s| - 1];
      assert s == s' + [s[|s| - 1]];
      PrintableCounts(s');
    }
  }

  /** Appending one character keeps it exactly when it is printable. */
  lemma PrintableSnoc(s: string, c: char)
    ensures Printable(s + [c]) == Printable(s) + (if IsPrintable(c) then [c] else [])
  {
    assert (s + [c])[..|s + [c]| - 1] == s;
  }

  /** Filtering distributes over concatenation, so the kept characters stay in their order. */
  lemma {:induction false} PrintableConcat(a: string, b: string)
    ensures Printable(a + b) == Printable(a) + Printable(b)
    decreases |b|
  {
    if b == [] {
      assert a + b == a;
    } else {
      var b' := b[..|b| - 1];
      var c := b[|b| - 1];
      assert a + b == (a + b') + [c] && b == b' + [c];
      PrintableConcat(a, b');
      PrintableSnoc(a + b', c);
      PrintableSnoc(b', c);
    }
  }

  /** What one scanning step produces, and the position where scanning resumes. */
  datatype Scanned = Scanned(tokens: seq<Token>, diags: seq<Diagnostic>, line: nat, index: nat)

  /** A step moves forward and resumes at a position inside the program. */
  predicate Advances(lines: seq<string>, ln: nat, idx: nat, s: Scanned) {
    s.line < |lines| && s.index <= |lines[s.line]| &&
    (s.line > ln || (s.line == ln && s.index > idx))
  }

  /** A `*` `/` pair starts at column `k` of line `m`. */
  predicate ClosesAt(lines: seq<string>, m: nat, k: nat) {
    m < |lines| && k + 1 < |lines[m]| && lines[m][k] == '*' && lines[m][k + 1] == '/'
  }

  /**
   * `(l, i)` is the position right after the first `*` `/` that starts at or after
   * column `idx` of line `ln`.
   */
  ghost predicate AfterFirstClose(lines: seq<string>, ln: nat, idx: nat, l: nat, i: nat) {
    i >= 2 && ClosesAt(lines, l, i - 2) && (l > ln || (l == ln && i - 2 >= idx)) &&
    forall m: nat, k: nat :: (m > ln || (m == ln && k >= idx)) && (m < l || (m == l && k < i - 2))
      ==> !ClosesAt(lines, m, k)
  }

  /**
   * Skipping a block comment from `(ln, idx)`: when fewer than two characters are
   * left on the line, move to the start of the next one; then look for `*` `/`.
   */
  function SkipComment(lines: seq<string>, ln: nat, idx: nat): (r: Result<(nat, nat)>)
    requires ln < |lines| && idx <= |lines[ln]|
    ensures r.Ok? ==> var (l, i) := r.value;
      l < |lines| && i <= |lines[l]| && (l > ln || (l == ln && i >= idx + 2))
    ensures r.Ok? ==> AfterFirstClose(lines, ln, idx, r.value.0, r.value.1)
    ensures r.Throws? ==> r.exception == IndexOutOfBounds
    decreases |lines| - ln, |lines[ln]| - idx, 1
  {
    if idx >= |lines[ln]| - 1 then
      if ln + 1 >= |lines| then Throws(IndexOutOfBounds)
      else
        var r := MatchClose(lines, ln + 1, 0);
        assert forall k: nat :: k >= idx ==> !ClosesAt(lines, ln, k);
        r
    else MatchClose(lines, ln, idx)
  }

  /** Tests for `*` `/` at `(ln, idx)`, reading the characters the way `charAt` does. */
  function MatchClose(lines: seq<string>, ln: nat, idx: nat): (r: Result<(nat, nat)>)
    requires ln < |lines| && idx <= |lines[ln]|
    ensures r.Ok? ==> var (l, i) := r.value;
      l < |lines| && i <= |lines[l]| && (l > ln || (l == ln && i >= idx + 2))
    ensures r.Ok? ==> AfterFirstClose(lines, ln, idx, r.value.0, r.value.1)
    ensures r.Throws? ==> r.exception == IndexOutOfBounds
    decreases |lines| - ln, |lines[ln]| - idx, 0
  {
    var line := lines[ln];
    if idx >= |line| then Throws(IndexOutOfBounds)
    else if line[idx] == '*' && idx + 1 >= |line| then Throws(IndexOutOfBounds)
    else if line[idx] == '*' && line[idx + 1] == '/' then Ok((ln, idx + 2))
    else
      var r := SkipComment(lines, ln, idx + 1);
      assert !ClosesAt(lines, ln, idx);
      r
  }

  /**
   * A character literal at `idx`: after the opening quote come one character, or a
   * backslash and one character; a token only when the closing quote is right there.
   */
  function CharLiteral(line: string, ln: nat, idx: nat): (r: Result<Scanned>)
    requires idx < |line| && line[idx] == '\''
    ensures r.Ok? ==> r.value.line == ln && idx < r.value.index <= |line|
    ensures r.Ok? ==> OnLine(r.value, ln)
    ensures r.Throws? <==>
      idx + 1 >= |line| || idx + (if line[idx + 1] == '\\' then 3 else 2) >= |line|
    ensures r.Throws? ==> r.exception == IndexOutOfBounds
    ensures r.Ok? ==> var w := if line[idx + 1] == '\\' then 3 else 2;
      r.value.diags == [] &&
      (line[idx + w] == '\'' ==>
        r.value.index == idx + w + 1 && r.value.tokens == [Token(line[idx..idx + w + 1], CHRCON, ln)]) &&
      (line[idx + w] != '\'' ==> r.value.index == idx + w && r.value.tokens == [])
  {
    if idx + 1 >= |line| then Throws(IndexOutOfBounds)
    else if line[idx + 1] == '\\' then
      if idx + 3 >= |line| then Throws(IndexOutOfBounds)
      else if line[idx + 3] == '\'' then
        assert line[idx..idx + 4] == "'\\" + [line[idx + 2]] + "'";
        Ok(Scanned([Token("'\\" + [line[idx + 2]] + "'", CHRCON, ln)], [], ln, idx + 4))
      else Ok(Scanned([], [], ln, idx + 3))
    else if idx + 2 >= |line| then Throws(IndexOutOfBounds)
    else if line[idx + 2] == '\'' then
      assert line[idx..idx + 3] == "'" + [line[idx + 1]] + "'";
      Ok(Scanned([Token("'" + [line[idx + 1]] + "'", CHRCON, ln)], [], ln, idx + 3))
    else Ok(Scanned([], [], ln, idx + 2))
  }

  /**
   * `!`, `=`, `<`, `>`: the two-character operator with `=` wins over the single
   * character; either way exactly one token, whose text is what was consumed.
   */
  function WithEquals(line: string, ln: nat, idx: nat): (r: Result<Scanned>)
    requires idx < |line| && line[idx] in "!=<>"
    ensures r.Ok? ==> r.value.line == ln && idx < r.value.index <= |line|
    ensures r.Ok? ==> OnLine(r.value, ln)
    ensures r.Throws? <==> idx + 1 >= |line|
    ensures r.Throws? ==> r.exception == IndexOutOfBounds
    ensures r.Ok? ==> var two := line[idx + 1] == '=';
      r.value.diags == [] && r.value.index == idx + (if two then 2 else 1) &&
      |r.value.tokens| == 1 && r.value.tokens[0].text == line[idx..r.value.index] &&
      (two ==> line[idx..idx + 2] in Reserved && r.value.tokens[0].kind == Reserved[line[idx..idx + 2]]) &&
      (!two ==> line[idx] in Punctuation && r.value.tokens[0].kind == Punctuation[line[idx]])
  {
    if idx + 1 >= |line| then Throws(IndexOutOfBounds)
    else if line[idx + 1] == '=' then
      assert line[idx..idx + 2] == [line[idx], '='];
      Ok(Scanned([FromWord([line[idx], '='], ln)], [], ln, idx + 2))
    else
      assert line[idx..idx + 1] == [line[idx]];
      var t :- FromChar(line[idx], ln);
      Ok(Scanned([t], [], ln, idx + 1))
  }

  /**
   * `&` and `|`: doubled it is one AND or OR token; alone it is an AND token with the
   * single character as its text, and an `'a'` diagnostic at line + 1.
   */
  function Doubled(line: string, ln: nat, idx: nat): (r: Result<Scanned>)
    requires idx < |line| && (line[idx] == '&' || line[idx] == '|')
    ensures r.Ok? ==> r.value.line == ln && idx < r.value.index <= |line|
    ensures r.Ok? ==> OnLine(r.value, ln)
    ensures r.Throws? <==> idx + 1 >= |line|
    ensures r.Throws? ==> r.exception == IndexOutOfBounds
    ensures r.Ok? ==> var two := line[idx + 1] == line[idx];
      r.value.index == idx + (if two then 2 else 1) &&
      |r.value.tokens| == 1 && r.value.tokens[0].text == line[idx..r.value.index] &&
      r.value.tokens[0].kind == (if two && line[idx] == '|' then OR else AND) &&
      r.value.diags == (if two then [] else [Diagnostic(ln + 1, 'a')])
  {
    if idx + 1 >= |line| then Throws(IndexOutOfBounds)
    else if line[idx + 1] == line[idx] then
      assert line[idx..idx + 2] == [line[idx], line[idx]] && [line[idx], line[idx]] in Reserved;
      Ok(Scanned([FromWord([line[idx], line[idx]], ln)], [], ln, idx + 2))
    else
      assert line[idx..idx + 1] == [line[idx]];
      Ok(Scanned([Token([line[idx]], AND, ln)], [Diagnostic(ln + 1, 'a')], ln, idx + 1))
  }

  /** `/`: a line comment, a block comment, or the division operator. */
  function Slash(lines: seq<string>, ln: nat, idx: nat): (r: Result<Scanned>)
    requires ln < |lines| && idx < |lines[ln]| && lines[ln][idx] == '/'
    ensures r.Ok? ==> Advances(lines, ln, idx, r.value)
    ensures r.Ok? ==> OnLine(r.value, ln)
  {
    var line := lines[ln];
    if idx + 1 >= |line| then Throws(IndexOutOfBounds)
    else if line[idx + 1] == '/' then Ok(Scanned([], [], ln, |line|))
    else if line[idx + 1] == '*' then
      var (l, i) :- SkipComment(lines, ln, idx + 2);
      Ok(Scanned([], [], l, i))
    else Ok(Scanned([Token("/", DIV, ln)], [], ln, idx + 1))
  }

  /** Everything a step produces belongs to line `ln`: its tokens, and `'a'` diagnostics at `ln + 1`. */
  predicate OnLine(s: Scanned, ln: nat) {
    (forall t :: t in s.tokens ==> t.line == ln && t.kind != EOF) &&
    (forall d :: d in s.diags ==> d == Diagnostic(ln + 1, 'a'))
  }

  /**
   * A string constant from the `"` at `idx`: the printable characters up to the next
   * `"`, between quotes; without one, `charAt` runs past the end of the line.
   */
  function StringLiteral(line: string, ln: nat, idx: nat): (r: Result<Scanned>)
    requires idx < |line| && line[idx] == '"'
    ensures r.Ok? ==> r.value.line == ln && idx < r.value.index <= |line| && OnLine(r.value, ln)
    ensures r.Throws? ==> r.exception == IndexOutOfBounds
  {
    match QuoteAt(line, idx + 1)
    case None => Throws(IndexOutOfBounds)
    case Some(k) => Ok(Scanned([Token("\"" + Printable(line[idx + 1..k]) + "\"", STRCON, ln)], [], ln, k + 1))
  }

  /** One pass of the inner scanning loop, at a character of line `ln`. */
  function Step(lines: seq<string>, ln: nat, idx: nat): (r: Result<Scanned>)
    requires ln < |lines| && idx < |lines[ln]|
    ensures r.Ok? ==> Advances(lines, ln, idx, r.value) && OnLine(r.value, ln)
  {
    var line := lines[ln];
    var c := line[idx];
    if IsBlank(c) then Ok(Scanned([], [], ln, idx + 1))
    else if IsIdentifierNonDigit(c) then
      var e := WordEnd(line, idx + 1);
      Ok(Scanned([FromWord(line[idx..e], ln)], [], ln, e))
    else if IsDigit(c) then
      var e := DigitsEnd(line, idx + 1);
      Ok(Scanned([Token(line[idx..e], INTCON, ln)], [], ln, e))
    else if c == '"' then StringLiteral(line, ln, idx)
    else if c == '\'' then CharLiteral(line, ln, idx)
    else if c in "!=<>" then WithEquals(line, ln, idx)
    else if c == '&' || c == '|' then Doubled(line, ln, idx)
    else if IsSingle(c) then
      var t :- FromChar(c, ln);
      Ok(Scanned([t], [], ln, idx + 1))
    else if c == '/' then Slash(lines, ln, idx)
    else Throws(UnknownError)
  }

  /** Puts the tokens and diagnostics already produced in front of the rest of a scan. */
  function Then(tokens: seq<Token>, diags: seq<Diagnostic>, rest: Result<(seq<Token>, seq<Diagnostic>)>)
    : Result<(seq<Token>, seq<Diagnostic>)>
  {
    match rest
    case Ok((t, d)) => Ok((tokens + t, diags + d))
    case Throws(e) => Throws(e)
  }

  function Remaining(lines: seq<string>, ln: nat, idx: nat): nat {
    if ln < |lines| && idx < |lines[ln]| then |lines[ln]| - idx else 0
  }

  /** The tokens and diagnostics from position `(ln, idx)` to the end, closed by EOF. */
  function Scan(lines: seq<string>, ln: nat, idx: nat): Result<(seq<Token>, seq<Diagnostic>)>
    decreases |lines| - ln, Remaining(lines, ln, idx)
  {
    if ln >= |lines| then Ok(([Token("", EOF, ln)], []))
    else if idx >= |lines[ln]| then Scan(lines, ln + 1, 0)
    else
      match Step(lines, ln, idx)
      case Throws(e) => Throws(e)
      case Ok(s) => Then(s.tokens, s.diags, Scan(lines, s.line, s.index))
  }

  /** What the tokenizing constructor computes: the token list and the `'a'` diagnostics. */
  function Lex(lines: seq<string>): Result<(seq<Token>, seq<Diagnostic>)> {
    Scan(lines, 0, 0)
  }

  /** The block-comment loop: from `(ln0, idx0)` to just after the closing `*` `/`. */
  method SkipBlockComment(lines: seq<string>, ln0: nat, idx0: nat) returns (r: Result<(nat, nat)>)
    requires ln0 < |lines| && idx0 <= |lines[ln0]|
    ensures r == SkipComment(lines, ln0, idx0)
  {
    var ln: nat, idx: nat := ln0, idx0;
    var line := lines[ln];
    while true
      invariant ln < |lines| && line == lines[ln] && idx <= |line|
      invariant SkipComment(lines, ln, idx) == SkipComment(lines, ln0, idx0)
      decreases |lines| - ln, |line| - idx
    {
      if idx >= |line| - 1 {
        if ln + 1 >= |lines| {
          return Throws(IndexOutOfBounds);
        }
        idx, ln := 0, ln + 1;
        line := lines[ln];
      }
      if idx >= |line| {
        return Throws(IndexOutOfBounds);
      }
      if line[idx] == '*' {
        if idx + 1 >= |line| {
          return Throws(IndexOutOfBounds);
        }
        if line[idx + 1] == '/' {
          return Ok((ln, idx + 2));
        }
      }
      idx := idx + 1;
    }
  }

  /** The maximal run of identifier characters from `idx`, collected one character at a time. */
  method ScanWord(line: string, idx: nat) returns (text: string, e: nat)
    requires idx < |line|
    ensures e == WordEnd(line, idx + 1) && text == line[idx..e]
  {
    text, e := [line[idx]], idx + 1;
    while e < |line| && IsWordChar(line[e])
      invariant idx + 1 <= e <= |line|
      invariant text == line[idx..e]
      invariant WordEnd(line, e) == WordEnd(line, idx + 1)
      decreases |line| - e
    {
      text, e := text + [line[e]], e + 1;
    }
  }

  /** The maximal run of digits from `idx`. */
  method ScanDigits(line: string, idx: nat) returns (text: string, e: nat)
    requires idx < |line|
    ensures e == DigitsEnd(line, idx + 1) && text == line[idx..e]
  {
    text, e := [line[idx]], idx + 1;
    while e < |line| && IsDigit(line[e])
      invariant idx + 1 <= e <= |line|
      invariant text == line[idx..e]
      invariant DigitsEnd(line, e) == DigitsEnd(line, idx + 1)
      decreases |line| - e
    {
      text, e := text + [line[e]], e + 1;
    }
  }

  /** One character of a string constant that is not its closing quote. */
  lemma ScanStringStep(line: string, idx: nat, j: nat)
    requires idx + 1 <= j < |line| && line[j] != '"'
    ensures QuoteAt(line, j) == QuoteAt(line, j + 1)
    ensures Printable(line[idx + 1..j + 1]) ==
      Printable(line[idx + 1..j]) + (if IsPrintable(line[j]) then [line[j]] else [])
  {
    assert line[idx + 1..j + 1] == line[idx + 1..j] + [line[j]];
    PrintableSnoc(line[idx + 1..j], line[j]);
  }

  /** A string constant from the `"` at `idx`: printable characters up to the next `"`. */
  method ScanString(line: string, ln: nat, idx: nat) returns (r: Result<Scanned>)
    requires idx < |line| && line[idx] == '"'
    ensures r == StringLiteral(line, ln, idx)
  {
    var text := "\"";
    var j := idx + 1;
    while true
      invariant idx + 1 <= j <= |line|
      invariant QuoteAt(line, j) == QuoteAt(line, idx + 1)
      invariant text == "\"" + Printable(line[idx + 1..j])
      decreases |line| - j
    {
      if j >= |line| {
        assert QuoteAt(line, j) == None;
        return Throws(IndexOutOfBounds);
      }
      if line[j] == '"' {
        assert QuoteAt(line, j) == Some(j);
        return Ok(Scanned([Token(text + "\"", STRCON, ln)], [], ln, j + 1));
      }
      ScanStringStep(line, idx, j);
      if IsPrintable(line[j]) {
        text := text + [line[j]];
      }
      j := j + 1;
    }
  }

  /** The body of the inner scanning loop at `(ln, idx)`. */
  method StepAt(lines: seq<string>, ln: nat, idx: nat) returns (r: Result<Scanned>)
    requires ln < |lines| && idx < |lines[ln]|
    ensures r == Step(lines, ln, idx)
  {
    var line := lines[ln];
    var c := line[idx];
    if IsBlank(c) {
      return Ok(Scanned([], [], ln, idx + 1));
    } else if IsIdentifierNonDigit(c) {
      var text, e := ScanWord(line, idx);
      return Ok(Scanned([FromWord(text, ln)], [], ln, e));
    } else if IsDigit(c) {
      var text, e := ScanDigits(line, idx);
      return Ok(Scanned([Token(text, INTCON, ln)], [], ln, e));
    } else if c == '"' {
      r := ScanString(line, ln, idx);
    } else if c == '\'' {
      r := CharLiteral(line, ln, idx);
    } else if c in "!=<>" {
      r := WithEquals(line, ln, idx);
    } else if c == '&' || c == '|' {
      r := Doubled(line, ln, idx);
    } else if IsSingle(c) {
      var t :- FromChar(c, ln);
      return Ok(Scanned([t], [], ln, idx + 1));
    } else if c == '/' {
      if idx + 1 >= |line| {
        return Throws(IndexOutOfBounds);
      } else if line[idx + 1] == '/' {
        return Ok(Scanned([], [], ln, |line|));
      } else if line[idx + 1] == '*' {
        var pos :- SkipBlockComment(lines, ln, idx + 2);
        return Ok(Scanned([], [], pos.0, pos.1));
      } else {
        return Ok(Scanned([Token("/", DIV, ln)], [], ln, idx + 1));
      }
    } else {
      return Throws(UnknownError);
    }
  }

  /**
   * The tokenizing constructor's loops: every line, every character, then one EOF
   * token whose line is the number of lines.
   */
  method Tokenize(lines: seq<string>) returns (r: Result<(seq<Token>, seq<Diagnostic>)>)
    ensures r == Lex(lines)
  {
    var tokens: seq<Token> := [];
    var diags: seq<Diagnostic> := [];
    var ln: nat := 0;
    ThenNothing(Lex(lines));
    while ln < |lines|
      invariant ln <= |lines|
      invariant Lex(lines) == Then(tokens, diags, Scan(lines, ln, 0))
      decreases |lines| - ln
    {
      var line := lines[ln];
      var idx: nat := 0;
      while idx < |line|
        invariant ln < |lines| && line == lines[ln] && idx <= |line|
        invariant Lex(lines) == Then(tokens, diags, Scan(lines, ln, idx))
        decreases |lines| - ln, |line| - idx
      {
        var step := StepAt(lines, ln, idx);
        if step.Throws? {
          return Throws(step.exception);
        }
        var s := step.value;
        ThenAssociates(tokens, diags, s.tokens, s.diags, Scan(lines, s.line, s.index));
        tokens, diags := tokens + s.tokens, diags + s.diags;
        ln, idx := s.line, s.index;
        line := lines[ln];
      }
      ln := ln + 1;
    }
    assert Scan(lines, ln, 0) == Ok(([Token("", EOF, ln)], []));
    assert diags + [] == diags;
    tokens := tokens + [Token("", EOF, ln)];
    return Ok((tokens, diags));
  }

  lemma ThenNothing(rest: Result<(seq<Token>, seq<Diagnostic>)>)
    ensures Then([], [], rest) == rest
  {
    match rest
    case Ok((t, d)) =>
      assert [] + t == t && [] + d == d;
    case Throws(_) =>
  }

  lemma ThenAssociates(t1: seq<Token>, d1: seq<Diagnostic>, t2: seq<Token>, d2: seq<Diagnostic>,
                       rest: Result<(seq<Token>, seq<Diagnostic>)>)
    ensures Then(t1, d1, Then(t2, d2, rest)) == Then(t1 + t2, d1 + d2, rest)
  {
    match rest
    case Ok((t, d)) =>
      assert t1 + (t2 + t) == (t1 + t2) + t;
      assert d1 + (d2 + d) == (d1 + d2) + d;
    case Throws(_) =>
  }

  /** All the properties of a token list, from `ln` on, that the parser relies on. */
  predicate WellFormedScan(lines: seq<string>, ln: nat, tokens: seq<Token>, diags: seq<Diagnostic>) {
    |tokens| > 0 && tokens[|tokens| - 1] == Token("", EOF, |lines|) &&
    (forall i :: 0 <= i < |tokens| - 1 ==> tokens[i].kind != EOF && ln <= tokens[i].line < |lines|) &&
    (forall i, j :: 0 <= i < j < |tokens| ==> tokens[i].line <= tokens[j].line) &&
    (forall d :: d in diags ==> d.code == 'a' && ln + 1 <= d.line <= |lines|)
  }

  /**
   * A successful scan ends with exactly one EOF token, on line `|lines|`; every other
   * token lies on a 0-based line index of the program, in non-decreasing order.
   */
  lemma {:induction false} ScanWellFormed(lines: seq<string>, ln: nat, idx: nat)
    requires ln <= |lines|
    requires Scan(lines, ln, idx).Ok?
    ensures WellFormedScan(lines, ln, Scan(lines, ln, idx).value.0, Scan(lines, ln, idx).value.1)
    decreases |lines| - ln, Remaining(lines, ln, idx)
  {
    if ln == |lines| {
    } else if idx >= |lines[ln]| {
      ScanWellFormed(lines, ln + 1, 0);
    } else {
      var s := Step(lines, ln, idx).value;
      ScanWellFormed(lines, s.line, s.index);
      var (t, d) := Scan(lines, s.line, s.index).value;
      assert Scan(lines, ln, idx).value == (s.tokens + t, s.diags + d);
      PrefixOnLine(lines, ln, s, t, d);
    }
  }

  lemma PrefixOnLine(lines: seq<string>, ln: nat, s: Scanned, t: seq<Token>, d: seq<Diagnostic>)
    requires ln <= s.line < |lines| && OnLine(s, ln) && WellFormedScan(lines, s.line, t, d)
    ensures WellFormedScan(lines, ln, s.tokens + t, s.diags + d)
  {
    var tokens := s.tokens + t;
    forall i | 0 <= i < |tokens| - 1
      ensures tokens[i].kind != EOF && ln <= tokens[i].line < |lines|
    {
      if i < |s.tokens| {
        assert tokens[i] in s.tokens;
      } else {
        assert tokens[i] == t[i - |s.tokens|];
      }
    }
    forall i, j | 0 <= i < j < |tokens| ensures tokens[i].line <= tokens[j].line {
      if j < |s.tokens| {
        assert tokens[i] in s.tokens && tokens[j] in s.tokens;
      } else if i < |s.tokens| {
        assert tokens[i] in s.tokens;
        assert tokens[j] == t[j - |s.tokens|];
      } else {
        assert tokens[i] == t[i - |s.tokens|] && tokens[j] == t[j - |s.tokens|];
      }
    }
    forall x | x in s.diags + d ensures x.code == 'a' && ln + 1 <= x.line <= |lines| {
      if x in s.diags {
      } else {
        assert x in d;
      }
    }
  }

  /** The whole program: one EOF at the end, on line `|lines|`, and 0-based token lines. */
  lemma LexWellFormed(lines: seq<string>)
    requires Lex(lines).Ok?
    ensures WellFormedScan(lines, 0, Lex(lines).value.0, Lex(lines).value.1)
  {
    ScanWellFormed(lines, 0, 0);
  }

  /** Space, tab, CR and LF produce nothing. */
  lemma BlankIsSkipped(lines: seq<string>, ln: nat, idx: nat)
    requires ln < |lines| && idx < |lines[ln]| && IsBlank(lines[ln][idx])
    ensures Scan(lines, ln, idx) == Scan(lines, ln, idx + 1)
  {
    assert Step(lines, ln, idx) == Ok(Scanned([], [], ln, idx + 1));
    ThenNothing(Scan(lines, ln, idx + 1));
  }

  /** `//` discards the rest of the line. */
  lemma LineCommentEndsLine(lines: seq<string>, ln: nat, idx: nat)
    requires ln < |lines| && idx + 1 < |lines[ln]| && lines[ln][idx] == '/' && lines[ln][idx + 1] == '/'
    ensures Scan(lines, ln, idx) == Scan(lines, ln + 1, 0)
  {
    assert Step(lines, ln, idx) == Ok(Scanned([], [], ln, |lines[ln]|));
    ThenNothing(Scan(lines, ln + 1, 0));
  }

  /**
   * A block comment produces no token and no diagnostic; scanning resumes right after
   * the first `*` `/` that starts after the opening `/` `*`, possibly lines later.
   */
  lemma BlockCommentHasNoTokens(lines: seq<string>, ln: nat, idx: nat)
    requires ln < |lines| && idx + 1 < |lines[ln]| && lines[ln][idx] == '/' && lines[ln][idx + 1] == '*'
    ensures Step(lines, ln, idx) == match SkipComment(lines, ln, idx + 2)
                                    case Ok((l, i)) => Ok(Scanned([], [], l, i))
                                    case Throws(e) => Throws(e)
    ensures Step(lines, ln, idx).Ok? ==> var s := Step(lines, ln, idx).value;
      s.tokens == [] && s.diags == [] && AfterFirstClose(lines, ln, idx + 2, s.line, s.index)
    ensures Step(lines, ln, idx).Throws? ==> Step(lines, ln, idx).exception == IndexOutOfBounds
  {
  }

  /**
   * An identifier or keyword is the maximal run of identifier characters that starts
   * with a letter or `_`, classified by its text.
   */
  lemma WordIsMaximalRun(lines: seq<string>, ln: nat, idx: nat)
    requires ln < |lines| && idx < |lines[ln]| && IsIdentifierNonDigit(lines[ln][idx])
    ensures Step(lines, ln, idx).Ok?
    ensures var s := Step(lines, ln, idx).value; var line := lines[ln];
      s.line == ln && s.diags == [] && |s.tokens| == 1 &&
      s.tokens[0].text == line[idx..s.index] && s.tokens[0].line == ln &&
      s.tokens[0].kind == (if line[idx..s.index] in Reserved then Reserved[line[idx..s.index]] else IDENFR) &&
      (forall k :: idx <= k < s.index ==> IsWordChar(line[k])) &&
      (s.index == |line| || !IsWordChar(line[s.index]))
  {
  }

  /** An integer constant is the maximal run of digits, with exactly that text. */
  lemma NumberIsMaximalRun(lines: seq<string>, ln: nat, idx: nat)
    requires ln < |lines| && idx < |lines[ln]| && IsDigit(lines[ln][idx])
    ensures Step(lines, ln, idx).Ok?
    ensures var s := Step(lines, ln, idx).value; var line := lines[ln];
      s.line == ln && s.diags == [] &&
      s.tokens == [Token(line[idx..s.index], INTCON, ln)] &&
      (forall k :: idx <= k < s.index ==> IsDigit(line[k])) &&
      (s.index == |line| || !IsDigit(line[s.index]))
  {
  }

  /**
   * A string constant runs to the next `"` on the line, keeps both quotes and only the
   * characters 32..126 in between; without a closing quote `charAt` fails.
   */
  lemma StringConstant(lines: seq<string>, ln: nat, idx: nat)
    requires ln < |lines| && idx < |lines[ln]| && lines[ln][idx] == '"'
    ensures var line := lines[ln]; var r := Step(lines, ln, idx);
      (r.Throws? <==> forall k :: idx < k < |line| ==> line[k] != '"') &&
      (r.Ok? ==> (
        r.value.line == ln && r.value.diags == [] && |r.value.tokens| == 1 &&
        var text := r.value.tokens[0].text;
        r.value.tokens[0].kind == STRCON && |text| >= 2 && text[0] == '"' && text[|text| - 1] == '"' &&
        line[r.value.index - 1] == '"' &&
        (forall k :: 0 < k < |text| - 1 ==> IsPrintable(text[k])) &&
        text == "\"" + Printable(line[idx + 1..r.value.index - 1]) + "\"" &&
        (forall k :: idx < k < r.value.index - 1 ==> line[k] != '"')))
  {
    var line := lines[ln];
    match QuoteAt(line, idx + 1)
    case None =>
    case Some(k) =>
      var inner := Printable(line[idx + 1..k]);
      var text := "\"" + inner + "\"";
      forall j | 0 < j < |text| - 1 ensures IsPrintable(text[j]) {
        assert text[j] == inner[j - 1];
      }
  }

  /** `!= == <= >=` win over their one-character prefixes. */
  lemma TwoCharOperatorWins(lines: seq<string>, ln: nat, idx: nat)
    requires ln < |lines| && idx + 1 < |lines[ln]| && lines[ln][idx] in "!=<>" && lines[ln][idx + 1] == '='
    ensures Step(lines, ln, idx) == Ok(Scanned([FromWord(lines[ln][idx..idx + 2], ln)], [], ln, idx + 2))
    ensures FromWord(lines[ln][idx..idx + 2], ln).kind in {NEQ, EQL, LEQ, GEQ}
  {
    var line := lines[ln];
    assert line[idx..idx + 2] == [line[idx], '='];
  }

  /** `&&` and `||` are single tokens; a lone `&` or `|` is an AND token plus an `'a'` at line + 1. */
  lemma LogicalOperators(lines: seq<string>, ln: nat, idx: nat)
    requires ln < |lines| && idx + 1 < |lines[ln]| && (lines[ln][idx] == '&' || lines[ln][idx] == '|')
    ensures var line := lines[ln]; var c := line[idx];
      Step(lines, ln, idx) ==
        if line[idx + 1] == c then Ok(Scanned([Token([c, c], if c == '&' then AND else OR, ln)], [], ln, idx + 2))
        else Ok(Scanned([Token([c], AND, ln)], [Diagnostic(ln + 1, 'a')], ln, idx + 1))
  {
    var c := lines[ln][idx];
    assert [c, c] in Reserved;
  }

  /** A block comment that crosses an empty line makes `charAt(0)` fail on that line. */
  lemma EmptyLineInsideBlockComment()
    ensures Lex(["/*", "", "*/"]) == Throws(IndexOutOfBounds)
  {
    var lines := ["/*", "", "*/"];
    assert SkipComment(lines, 0, 2) == Throws(IndexOutOfBounds);
    assert Step(lines, 0, 0) == Throws(IndexOutOfBounds);
  }

  /**
   * The token cursor the parser reads through. The list is fixed once built; the
   * cursor starts at 0 and never leaves the list.
   */
  class Lexer {
    const tokens: seq<Token>
    var current: nat

    ghost predicate Valid()
      reads this
    {
      0 < |tokens| && current < |tokens|
    }

    constructor (tokens: seq<Token>)
      requires |tokens| > 0
      ensures Valid() && this.tokens == tokens && current == 0
    {
      this.tokens := tokens;
      current := 0;
    }

    /** Advances unless the cursor is on the last token (the EOF). */
    method NextToken() returns (moved: bool)
      requires Valid()
      modifies this
      ensures Valid()
      ensures moved == (old(current) < |tokens| - 1)
      ensures current == if moved then old(current) + 1 else old(current)
    {
      if current < |tokens| - 1 {
        current := current + 1;
        return true;
      }
      return false;
    }

    /** Steps back unless the cursor is on the first token. */
    method PrevToken() returns (moved: bool)
      requires Valid()
      modifies this
      ensures Valid()
      ensures moved == (old(current) > 0)
      ensures current == if moved then old(current) - 1 else old(current)
    {
      if current > 0 {
        current := current - 1;
        return true;
      }
      return false;
    }

    function CurrentToken(): (t: Token)
      reads this
      requires Valid()
      ensures t == tokens[current]
    {
      tokens[current]
    }

    /** `tokenPreRead(bias)`: the token `bias` places away; `List.get` fails outside the list. */
    function PreRead(bias: int): (r: Result<Token>)
      reads this
      ensures r.Ok? <==> 0 <= current + bias < |tokens|
      ensures r.Ok? ==> r.value == tokens[current + bias]
      ensures r.Throws? ==> r.exception == IndexOutOfBounds
    {
      TokenAt(current + bias)
    }

    /** `getTokenAt(pos)`. */
    function TokenAt(pos: int): (r: Result<Token>)
      reads this
      ensures r.Ok? <==> 0 <= pos < |tokens|
      ensures r.Ok? ==> r.value == tokens[pos]
    {
      if 0 <= pos < |tokens| then Ok(tokens[pos]) else Throws(IndexOutOfBounds)
    }
  }
}
