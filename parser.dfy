/**
 * The recursive-descent parser over the lexer's token cursor (syntax/Parser.java).
 * Missing `;`, `)` and `]` are recorded as diagnostics `i`, `j`, `k` and parsing goes
 * on; every other mismatch raises `error(msg)`, here `Throws(Failed(..))`.
 */
module Parser {
  import opened Outcomes
  import opened Tokens
  import opened Nodes
  import opened ProgramExceptions
  import Lex = Lexer

  /** The binary levels, loosest first: `||`, `&&`, equality, relational, additive, multiplicative. */
  datatype Level = LOrLevel | LAndLevel | EqLevel | RelLevel | AddLevel | MulLevel

  function Operators(level: Level): set<TokenType> {
    match level
    case LOrLevel => {OR}
    case LAndLevel => {AND}
    case EqLevel => {EQL, NEQ}
    case RelLevel => {LSS, GRE, LEQ, GEQ}
    case AddLevel => {PLUS, MINU}
    case MulLevel => {MULT, DIV, MOD}
  }

  /** The level each level's operands are parsed at. */
  function Next(level: Level): Level
    requires level != MulLevel
  {
    match level
    case LOrLevel => LAndLevel
    case LAndLevel => EqLevel
    case EqLevel => RelLevel
    case RelLevel => AddLevel
    case AddLevel => MulLevel
  }

  /** How far a level is above the unary expressions (termination measure). */
  function Height(level: Level): nat {
    match level
    case LOrLevel => 5
    case LAndLevel => 4
    case EqLevel => 3
    case RelLevel => 2
    case AddLevel => 1
    case MulLevel => 0
  }

  /**
   * `e` is a chain of level `level`: a left-associative spine whose operators belong to
   * that level and whose operands are nodes of the next level (unary expressions below
   * `*`); the innermost node carries no operator and only wraps the first operand.
   */
  ghost predicate ChainOf(e: BiExp, level: Level)
    decreases e
  {
    if e.op.None? then
      e.right.None? && OperandOf(e.left, level)
    else
      e.op.value.kind in Operators(level) && e.right.Some? && OperandOf(e.right.value, level) &&
      e.left.Sub? && ChainOf(e.left.exp, level)
  }

  ghost predicate OperandOf(o: Operand, level: Level)
    decreases o
  {
    if level == MulLevel then o.Unary? && UnaryShaped(o.unary)
    else o.Sub? && ChainOf(o.exp, Next(level))
  }

  /** Every expression inside a unary expression is an additive chain. */
  ghost predicate UnaryShaped(u: UnaryExp)
    decreases u
  {
    match u
    case Primary(_, p) => PrimaryShaped(p)
    case Call(_, _, args) => forall i | 0 <= i < |args| :: ChainOf(args[i], AddLevel)
    case Prefix(_, op, x) => op.kind in {PLUS, MINU, NOT} && UnaryShaped(x)
  }

  ghost predicate PrimaryShaped(p: PrimaryExp)
    decreases p
  {
    match p
    case Paren(_, e) => ChainOf(e, AddLevel)
    case LvalExp(_, l) => LvalShaped(l)
    case Number(_, t) => t.kind == INTCON
    case Character(_, t) => t.kind == CHRCON
  }

  ghost predicate LvalShaped(l: Lval)
    decreases l
  {
    l.index.Some? ==> ChainOf(l.index.value, AddLevel)
  }

  /**
   * The look-ahead that tells an assignment from an expression statement: from `pos`
   * on, an `=` met before any `;` and before any token on a line after `line` means an
   * assignment; running off the token list fails as `List.get` does.
   */
  function AssignmentAhead(tokens: seq<Token>, pos: nat, line: int): Result<bool>
    decreases |tokens| - pos
  {
    if pos >= |tokens| then Throws(IndexOutOfBounds)
    else if tokens[pos].kind == ASSIGN then Ok(true)
    else if tokens[pos].kind == SEMICN then Ok(false)
    else if tokens[pos].line > line then Ok(false)
    else AssignmentAhead(tokens, pos + 1, line)
  }

  /** No token in `[pos, end)` stops the look-ahead. */
  ghost predicate NoStopBetween(tokens: seq<Token>, pos: nat, end: nat, line: int)
    requires end <= |tokens|
  {
    forall q :: pos <= q < end ==>
      tokens[q].kind != ASSIGN && tokens[q].kind != SEMICN && tokens[q].line <= line
  }

  /**
   * The look-ahead finds an assignment exactly when some `=` comes before every `;`
   * and every later line.
   */
  lemma {:induction false} AssignmentAheadFindsAssign(tokens: seq<Token>, pos: nat, line: int)
    ensures AssignmentAhead(tokens, pos, line) == Ok(true) <==>
      exists p :: pos <= p < |tokens| && tokens[p].kind == ASSIGN && NoStopBetween(tokens, pos, p, line)
    decreases |tokens| - pos
  {
    if pos < |tokens| && tokens[pos].kind != ASSIGN && tokens[pos].kind != SEMICN && tokens[pos].line <= line {
      AssignmentAheadFindsAssign(tokens, pos + 1, line);
      if AssignmentAhead(tokens, pos, line) == Ok(true) {
        var p :| pos + 1 <= p < |tokens| && tokens[p].kind == ASSIGN && NoStopBetween(tokens, pos + 1, p, line);
        assert NoStopBetween(tokens, pos, p, line);
      }
      if exists p :: pos <= p < |tokens| && tokens[p].kind == ASSIGN && NoStopBetween(tokens, pos, p, line) {
        var p :| pos <= p < |tokens| && tokens[p].kind == ASSIGN && NoStopBetween(tokens, pos, p, line);
        assert p != pos;
        assert NoStopBetween(tokens, pos + 1, p, line);
      }
    } else if pos < |tokens| && tokens[pos].kind == ASSIGN {
      assert NoStopBetween(tokens, pos, pos, line);
    } else if pos < |tokens| {
      forall p | pos <= p < |tokens| && tokens[p].kind == ASSIGN
        ensures !NoStopBetween(tokens, pos, p, line)
      {
        assert pos < p;
      }
    }
  }

  /** The look-ahead fails exactly when nothing stops it before the end of the list. */
  lemma {:induction false} AssignmentAheadFails(tokens: seq<Token>, pos: nat, line: int)
    requires pos <= |tokens|
    ensures AssignmentAhead(tokens, pos, line).Throws? <==> NoStopBetween(tokens, pos, |tokens|, line)
    decreases |tokens| - pos
  {
    if pos < |tokens| {
      AssignmentAheadFails(tokens, pos + 1, line);
      if tokens[pos].kind != ASSIGN && tokens[pos].kind != SEMICN && tokens[pos].line <= line {
        if NoStopBetween(tokens, pos + 1, |tokens|, line) {
          assert NoStopBetween(tokens, pos, |tokens|, line);
        }
      }
    }
  }

  /** The statement form a leading token fixes, or `None` for the look-ahead forms. */
  function StmtCaseFor(kind: TokenType): Option<nat> {
    match kind
    case LBRACE => Some(2)
    case IFTK => Some(3)
    case FORTK => Some(4)
    case BREAKTK => Some(5)
    case CONTINUETK => Some(6)
    case RETURNTK => Some(7)
    case PRINTFTK => Some(10)
    case _ => None
  }

  class Parser {
    const lexer: Lex.Lexer
    const errors: ExceptionList

    /** The cursor is on the token list, which ends with EOF, as the lexer leaves it. */
    ghost predicate Valid()
      reads this, lexer
    {
      lexer.Valid() && lexer.tokens[|lexer.tokens| - 1].kind == EOF
    }

    constructor (lexer: Lex.Lexer, errors: ExceptionList)
      requires lexer.Valid() && lexer.tokens[|lexer.tokens| - 1].kind == EOF
      ensures Valid() && this.lexer == lexer && this.errors == errors
    {
      this.lexer := lexer;
      this.errors := errors;
    }

    function Kind(): TokenType
      reads this, lexer
      requires Valid()
    {
      lexer.tokens[lexer.current].kind
    }

    function Line(): int
      reads this, lexer
      requires Valid()
    {
      lexer.tokens[lexer.current].line
    }

    /** `lexer.nextToken()` on a token that is not EOF, which therefore is not the last one. */
    method Advance()
      requires Valid() && Kind() != EOF
      modifies lexer
      ensures Valid() && lexer.current == old(lexer.current) + 1
    {
      var moved := lexer.NextToken();
    }

    /**
     * `skipSign(kind, code)`: a matching token is consumed; otherwise a code records
     * `(previous token's line + 1, code)` without consuming, and no code is an error.
     * The result says whether the token matched.
     */
    method SkipSign(kind: TokenType, code: Option<char>) returns (r: Result<bool>)
      requires Valid() && kind != EOF
      modifies lexer, errors
      ensures Valid()
      ensures old(Kind()) == kind ==>
        r == Ok(true) && lexer.current == old(lexer.current) + 1 && errors.entries == old(errors.entries)
      ensures old(Kind()) != kind ==> lexer.current == old(lexer.current)
      ensures old(Kind()) != kind && code.Some? && old(lexer.current) > 0 ==>
        r == Ok(false) &&
        errors.entries == old(errors.entries) + [Diagnostic(lexer.tokens[old(lexer.current) - 1].line + 1, code.value)]
      ensures old(Kind()) != kind && code.Some? && old(lexer.current) == 0 ==>
        r == Throws(IndexOutOfBounds) && errors.entries == old(errors.entries)
      ensures old(Kind()) != kind && code.None? ==> r.Throws? && r.exception.Failed? && errors.entries == old(errors.entries)
    {
      if Kind() != kind {
        if code.Some? {
          var previous :- lexer.PreRead(-1);
          errors.NewException(previous.line + 1, code.value);
          return Ok(false);
        }
        return Throws(Failed("missing symbol"));
      }
      Advance();
      return Ok(true);
    }

    /**
     * `skipSign` with a recovery code once a token has been consumed, so that the
     * previous token exists: it never throws, and either consumes the expected token or
     * records the code on the line after the previous token's.
     */
    method Expect(kind: TokenType, code: char)
      requires Valid() && kind != EOF && lexer.current > 0
      modifies lexer, errors
      ensures Valid()
      ensures old(Kind()) == kind ==>
        lexer.current == old(lexer.current) + 1 && errors.entries == old(errors.entries)
      ensures old(Kind()) != kind ==>
        lexer.current == old(lexer.current) &&
        errors.entries == old(errors.entries) + [Diagnostic(lexer.tokens[lexer.current - 1].line + 1, code)]
    {
      var matched := SkipSign(kind, Some(code));
      assert matched.Ok?;
    }

    /** `skipSign` without a code: the expected token is consumed, or parsing fails. */
    method Require(kind: TokenType) returns (r: Result<()>)
      requires Valid() && kind != EOF
      modifies lexer, errors
      ensures Valid() && errors.entries == old(errors.entries)
      ensures r.Ok? <==> old(Kind()) == kind
      ensures r.Ok? ==> lexer.current == old(lexer.current) + 1
      ensures r.Throws? ==> lexer.current == old(lexer.current)
    {
      var matched := SkipSign(kind, None);
      if matched.Throws? {
        return Throws(matched.exception);
      }
      return Ok(());
    }

    /** `parseCompUnit`: declarations and functions up to `int main (`, where it stops. */
    method ParseCompUnit() returns (r: Result<CompUnit>)
      requires Valid()
      modifies lexer, errors
      ensures Valid() && old(lexer.current) <= lexer.current
      ensures |old(errors.entries)| <= |errors.entries|
      ensures r.Ok? ==> r.value.main.Some? || Kind() == EOF
      ensures r.Ok? ==> forall d | d in r.value.decls :: DeclShaped(d)
      decreases |lexer.tokens| - lexer.current, 35
    {
      var line := Line();
      var decls: seq<Decl> := [];
      var funcDefs: seq<FuncDef> := [];
      var main: Option<MainFuncDef> := None;
      while Kind() != EOF
        invariant Valid() && old(lexer.current) <= lexer.current
        invariant |old(errors.entries)| <= |errors.entries|
        invariant forall d | d in decls :: DeclShaped(d)
        decreases |lexer.tokens| - lexer.current
      {
        if Kind() == CONSTTK {
          var d :- ParseConstDecl();
          decls := decls + [d];
        } else if Kind() == VOIDTK {
          var f :- ParseFuncDef();
          funcDefs := funcDefs + [f];
        } else if Kind() == INTTK {
          var next :- lexer.PreRead(1);
          var isMain := false;
          if next.kind == MAINTK {
            var second :- lexer.PreRead(2);
            isMain := second.kind == LPARENT;
          }
          var isFunc := false;
          if !isMain && next.kind == IDENFR {
            var second :- lexer.PreRead(2);
            isFunc := second.kind == LPARENT;
          }
          if isMain {
            var m :- ParseMainFuncDef();
            main := Some(m);
            break;
          } else if isFunc {
            var f :- ParseFuncDef();
            funcDefs := funcDefs + [f];
          } else if next.kind == IDENFR {
            var d :- ParseVarDecl();
            decls := decls + [d];
          } else {
            return Throws(Failed("cannot parse CompUnit"));
          }
        } else if Kind() == CHARTK {
          var next :- lexer.PreRead(1);
          var isFunc := false;
          if next.kind == IDENFR {
            var second :- lexer.PreRead(2);
            isFunc := second.kind == LPARENT;
          }
          if isFunc {
            var f :- ParseFuncDef();
            funcDefs := funcDefs + [f];
          } else if next.kind == IDENFR {
            var d :- ParseVarDecl();
            decls := decls + [d];
          } else {
            return Throws(Failed("cannot parse CompUnit"));
          }
        } else {
          return Throws(Failed("cannot parse CompUnit"));
        }
      }
      return Ok(CompUnit(line, decls, funcDefs, main));
    }

    /** `parseMainFuncDef`: `int main ( )` (a missing `)` is `j`) and the body. */
    method ParseMainFuncDef() returns (r: Result<MainFuncDef>)
      requires Valid()
      modifies lexer, errors
      ensures Valid() && old(lexer.current) <= lexer.current
      ensures |old(errors.entries)| <= |errors.entries|
      ensures r.Ok? ==> old(lexer.current) < lexer.current && r.value.line == old(Line()) && old(Kind()) == INTTK
      decreases |lexer.tokens| - lexer.current, 34
    {
      var line := Line();
      var _ :- Require(INTTK);
      var _ :- Require(MAINTK);
      var _ :- Require(LPARENT);
      Expect(RPARENT, 'j');
      var block :- ParseBlock();
      return Ok(MainFuncDef(line, block));
    }

    /** `parseFuncType`: `void`, `int` or `char`. */
    method ParseFuncType() returns (r: Result<Token>)
      requires Valid()
      modifies lexer, errors
      ensures Valid() && old(lexer.current) <= lexer.current && errors.entries == old(errors.entries)
      ensures r.Ok? <==> old(Kind()) in {VOIDTK, INTTK, CHARTK}
      ensures r.Ok? ==> r.value == old(lexer.CurrentToken()) && lexer.current == old(lexer.current) + 1
      ensures r.Throws? ==> lexer.current == old(lexer.current)
      decreases |lexer.tokens| - lexer.current, 1
    {
      if Kind() in {VOIDTK, INTTK, CHARTK} {
        var t := lexer.CurrentToken();
        Advance();
        return Ok(t);
      }
      return Throws(Failed("cannot parse function type"));
    }

    /** `parseFuncDef`: type, name, parameters (a missing `)` is `j`) and body. */
    method ParseFuncDef() returns (r: Result<FuncDef>)
      requires Valid()
      modifies lexer, errors
      ensures Valid() && old(lexer.current) <= lexer.current
      ensures |old(errors.entries)| <= |errors.entries|
      ensures r.Ok? ==> old(lexer.current) < lexer.current && r.value.line == old(Line())
      ensures r.Ok? ==> r.value.funcType.kind in {VOIDTK, INTTK, CHARTK}
      ensures r.Ok? && r.value.params.Some? ==> |r.value.params.value| > 0
      decreases |lexer.tokens| - lexer.current, 34
    {
      var line := Line();
      var funcType :- ParseFuncType();
      if Kind() != IDENFR {
        return Throws(Failed("illegal function definition"));
      }
      var name := lexer.CurrentToken().text;
      Advance();
      var _ :- Require(LPARENT);
      var params: Option<seq<FuncFParam>> := None;
      if Kind() == LBRACE {
        Expect(RPARENT, 'j');
      } else if Kind() != RPARENT {
        var ps :- ParseFuncFParams();
        params := Some(ps);
        Expect(RPARENT, 'j');
      } else {
        Advance();
      }
      var block := ParseBlock();
      if block.Throws? {
        return Throws(block.exception);
      }
      return Ok(FuncDef(line, funcType, name, params, block.value));
    }

    /** `parseFuncFParams`: one or more parameters separated by commas. */
    method ParseFuncFParams() returns (r: Result<seq<FuncFParam>>)
      requires Valid()
      modifies lexer, errors
      ensures Valid() && old(lexer.current) <= lexer.current
      ensures |old(errors.entries)| <= |errors.entries|
      ensures r.Ok? ==> old(lexer.current) < lexer.current && |r.value| > 0
      decreases |lexer.tokens| - lexer.current, 3
    {
      var first :- ParseFuncFParam();
      var params := [first];
      while Kind() == COMMA
        invariant Valid() && old(lexer.current) < lexer.current && |params| > 0
        invariant |old(errors.entries)| <= |errors.entries|
        decreases |lexer.tokens| - lexer.current
      {
        Advance();
        var p :- ParseFuncFParam();
        params := params + [p];
      }
      return Ok(params);
    }

    /** `parseFuncFParam`: `int`/`char`, a name, and `[]` for an array (a missing `]` is `k`). */
    method ParseFuncFParam() returns (r: Result<FuncFParam>)
      requires Valid()
      modifies lexer, errors
      ensures Valid() && old(lexer.current) <= lexer.current
      ensures |old(errors.entries)| <= |errors.entries|
      ensures r.Ok? ==> old(lexer.current) < lexer.current && r.value.line == old(Line())
      ensures r.Ok? ==> (r.value.btype == IntType <==> old(Kind()) == INTTK)
      decreases |lexer.tokens| - lexer.current, 2
    {
      var line := Line();
      var btype: Btype;
      if Kind() == INTTK {
        btype := IntType;
        Advance();
      } else if Kind() == CHARTK {
        btype := CharType;
        Advance();
      } else {
        return Throws(Failed("cannot parse parameter"));
      }
      if Kind() != IDENFR {
        return Throws(Failed("cannot parse parameter"));
      }
      var name := lexer.CurrentToken().text;
      Advance();
      var isArray := false;
      if Kind() == LBRACK {
        isArray := true;
        Advance();
        Expect(RBRACK, 'k');
      }
      return Ok(FuncFParam(line, btype, name, isArray));
    }

    /** `parseBlock`: `{`, items up to the matching `}`, whose line it records. */
    method ParseBlock() returns (r: Result<Block>)
      requires Valid()
      modifies lexer, errors
      ensures Valid() && old(lexer.current) <= lexer.current
      ensures |old(errors.entries)| <= |errors.entries|
      ensures r.Ok? ==> old(lexer.current) < lexer.current && old(Kind()) == LBRACE && r.value.line == old(Line())
      ensures r.Ok? ==> lexer.tokens[lexer.current - 1].kind == RBRACE
      ensures r.Ok? ==> r.value.lastRBraceLine == lexer.tokens[lexer.current - 1].line
      decreases |lexer.tokens| - lexer.current, 30
    {
      var line := Line();
      var _ :- Require(LBRACE);
      var items: seq<BlockItem> := [];
      while Kind() != RBRACE
        invariant Valid() && old(lexer.current) < lexer.current
        invariant |old(errors.entries)| <= |errors.entries|
        decreases |lexer.tokens| - lexer.current
      {
        var item :- ParseBlockItem();
        items := items + [item];
      }
      var last := Line();
      Advance();
      return Ok(Block(line, items, last));
    }

    /** `parseBlockItem`: a declaration when it starts with `int`, `char` or `const`, else a statement. */
    method ParseBlockItem() returns (r: Result<BlockItem>)
      requires Valid()
      modifies lexer, errors
      ensures Valid() && old(lexer.current) <= lexer.current
      ensures |old(errors.entries)| <= |errors.entries|
      ensures r.Ok? ==> old(lexer.current) < lexer.current && r.value.line == old(Line())
      ensures r.Ok? ==> (r.value.DeclItem? <==> old(Kind()) in {INTTK, CHARTK, CONSTTK})
      decreases |lexer.tokens| - lexer.current, 33
    {
      var line := Line();
      if Kind() == INTTK || Kind() == CHARTK {
        var d :- ParseVarDecl();
        return Ok(DeclItem(line, d));
      } else if Kind() == CONSTTK {
        var d :- ParseConstDecl();
        return Ok(DeclItem(line, d));
      }
      var s :- ParseStmt();
      return Ok(StmtItem(line, s));
    }

    /**
     * `parseStmt`: the leading token picks the form (`StmtCaseFor`); otherwise the
     * `=` look-ahead tells an assignment (getint, getchar or expression) from an
     * expression statement.
     */
    method ParseStmt() returns (r: Result<Stmt>)
      requires Valid()
      modifies lexer, errors
      ensures Valid() && old(lexer.current) <= lexer.current
      ensures |old(errors.entries)| <= |errors.entries|
      ensures r.Ok? ==> old(lexer.current) < lexer.current && r.value.line == old(Line())
      ensures r.Ok? && StmtCaseFor(old(Kind())).Some? ==> r.value.CaseNum() == StmtCaseFor(old(Kind())).value
      ensures r.Ok? && StmtCaseFor(old(Kind())).None? ==>
        var ahead := AssignmentAhead(lexer.tokens, old(lexer.current), old(Line()));
        ahead.Ok? && (ahead.value <==> r.value.CaseNum() in {0, 8, 9}) && (!ahead.value ==> r.value.ExpStmt?)
      decreases |lexer.tokens| - lexer.current, 32
    {
      var line := Line();
      if Kind() == LBRACE {
        var b :- ParseBlock();
        return Ok(BlockStmt(line, b));
      } else if Kind() == IFTK {
        r := ParseIfStmt();
      } else if Kind() == FORTK {
        r := ParseForLoop();
      } else if Kind() == BREAKTK || Kind() == CONTINUETK {
        var isBreak := Kind() == BREAKTK;
        Advance();
        Expect(SEMICN, 'i');
        return Ok(if isBreak then Break(line) else Continue(line));
      } else if Kind() == RETURNTK {
        r := ParseReturnStmt();
      } else if Kind() == PRINTFTK {
        r := ParsePrintfStmt();
      } else {
        r := ParseSimpleStmt();
      }
    }

    /** Case 3: `if ( cond )` (a missing `)` is `j`), a statement, and an optional `else` branch. */
    method ParseIfStmt() returns (r: Result<Stmt>)
      requires Valid() && Kind() == IFTK
      modifies lexer, errors
      ensures Valid() && old(lexer.current) <= lexer.current
      ensures |old(errors.entries)| <= |errors.entries|
      ensures r.Ok? ==> old(lexer.current) < lexer.current && r.value.If? && r.value.line == old(Line())
      ensures r.Ok? ==> ChainOf(r.value.cond, LOrLevel)
      decreases |lexer.tokens| - lexer.current, 31
    {
      var line := Line();
      Advance();
      var _ :- Require(LPARENT);
      var cond :- ParseCond();
      Expect(RPARENT, 'j');
      var thenStmt :- ParseStmt();
      var elseStmt: Option<Stmt> := None;
      if Kind() == ELSETK {
        Advance();
        var s :- ParseStmt();
        elseStmt := Some(s);
      }
      return Ok(If(line, cond, thenStmt, elseStmt));
    }

    /**
     * Case 4: `for ( [init] ; [cond] ; [update] )` and the body; a part that is absent
     * stays `None`.
     */
    method ParseForLoop() returns (r: Result<Stmt>)
      requires Valid() && Kind() == FORTK
      modifies lexer, errors
      ensures Valid() && old(lexer.current) <= lexer.current
      ensures |old(errors.entries)| <= |errors.entries|
      ensures r.Ok? ==> old(lexer.current) < lexer.current && r.value.For? && r.value.line == old(Line())
      ensures r.Ok? ==> lexer.tokens[old(lexer.current) + 1].kind == LPARENT
      ensures r.Ok? ==> (r.value.init.None? <==> lexer.tokens[old(lexer.current) + 2].kind == SEMICN)
      ensures r.Ok? && r.value.init.Some? ==> r.value.init.value.Assign?
      ensures r.Ok? && r.value.forCond.Some? ==> ChainOf(r.value.forCond.value, LOrLevel)
      ensures r.Ok? && r.value.update.Some? ==> r.value.update.value.Assign?
      decreases |lexer.tokens| - lexer.current, 31
    {
      var line := Line();
      Advance();
      var _ :- Require(LPARENT);
      var init :- ParseForInit();
      var cond :- ParseForCond();
      var update :- ParseForUpdate();
      var body :- ParseStmt();
      return Ok(For(line, init, cond, update, body));
    }

    /** The `[init] ;` part of a `for` header (a missing `;` is `i`). */
    method ParseForInit() returns (r: Result<Option<Stmt>>)
      requires Valid() && lexer.current > 0
      modifies lexer, errors
      ensures Valid() && old(lexer.current) <= lexer.current
      ensures |old(errors.entries)| <= |errors.entries|
      ensures r.Ok? ==> (r.value.None? <==> old(Kind()) == SEMICN)
      ensures r.Ok? && r.value.Some? ==> r.value.value.Assign?
      decreases |lexer.tokens| - lexer.current, 16
    {
      if Kind() == SEMICN {
        Advance();
        return Ok(None);
      }
      var s :- ParseForStmt();
      Expect(SEMICN, 'i');
      return Ok(Some(s));
    }

    /** The `[cond] ;` part: absent when it starts with `;` or `)` (a missing `;` is `i`). */
    method ParseForCond() returns (r: Result<Option<BiExp>>)
      requires Valid() && lexer.current > 0
      modifies lexer, errors
      ensures Valid() && old(lexer.current) <= lexer.current
      ensures |old(errors.entries)| <= |errors.entries|
      ensures r.Ok? ==> (r.value.None? <==> old(Kind()) in {SEMICN, RPARENT})
      ensures r.Ok? && r.value.Some? ==> ChainOf(r.value.value, LOrLevel)
      decreases |lexer.tokens| - lexer.current, 23
    {
      if Kind() == SEMICN {
        Advance();
        return Ok(None);
      } else if Kind() == RPARENT {
        Expect(SEMICN, 'i');
        return Ok(None);
      }
      var c :- ParseCond();
      Expect(SEMICN, 'i');
      return Ok(Some(c));
    }

    /** The `[update] )` part: absent when it starts with `)` or `{` (a missing `)` is `j`). */
    method ParseForUpdate() returns (r: Result<Option<Stmt>>)
      requires Valid() && lexer.current > 0
      modifies lexer, errors
      ensures Valid() && old(lexer.current) <= lexer.current
      ensures |old(errors.entries)| <= |errors.entries|
      ensures r.Ok? ==> (r.value.None? <==> old(Kind()) in {RPARENT, LBRACE})
      ensures r.Ok? && r.value.Some? ==> r.value.value.Assign?
      decreases |lexer.tokens| - lexer.current, 16
    {
      if Kind() == RPARENT {
        Advance();
        return Ok(None);
      } else if Kind() == LBRACE {
        Expect(RPARENT, 'j');
        return Ok(None);
      }
      var s :- ParseForStmt();
      Expect(RPARENT, 'j');
      return Ok(Some(s));
    }

    /**
     * Case 7: `return [exp] ;`. An exception while parsing the expression is caught:
     * the statement then has no expression and parsing resumes where it stopped.
     */
    method ParseReturnStmt() returns (r: Result<Stmt>)
      requires Valid() && Kind() == RETURNTK
      modifies lexer, errors
      ensures Valid() && old(lexer.current) <= lexer.current
      ensures |old(errors.entries)| <= |errors.entries|
      ensures r.Ok? ==> old(lexer.current) < lexer.current && r.value.Return? && r.value.line == old(Line())
      ensures r.Ok? && r.value.returned.Some? ==> ChainOf(r.value.returned.value, AddLevel)
      ensures r.Ok? ==> (r.value.returned.None? <== lexer.tokens[old(lexer.current) + 1].kind == SEMICN)
      decreases |lexer.tokens| - lexer.current, 31
    {
      var line := Line();
      Advance();
      if Kind() == SEMICN {
        Advance();
        return Ok(Return(line, None));
      }
      var e := ParseExp();
      var returned := if e.Ok? then Some(e.value) else None;
      Expect(SEMICN, 'i');
      return Ok(Return(line, returned));
    }

    /** Case 10: `printf ( format {, exp} )`; a missing `)` is `j` and a missing `;` is `i`. */
    method ParsePrintfStmt() returns (r: Result<Stmt>)
      requires Valid() && Kind() == PRINTFTK
      modifies lexer, errors
      ensures Valid() && old(lexer.current) <= lexer.current
      ensures |old(errors.entries)| <= |errors.entries|
      ensures r.Ok? ==> old(lexer.current) < lexer.current && r.value.Printf? && r.value.line == old(Line())
      ensures r.Ok? ==> r.value.format.kind == STRCON && forall a | a in r.value.args :: ChainOf(a, AddLevel)
      decreases |lexer.tokens| - lexer.current, 31
    {
      var line := Line();
      Advance();
      var _ :- Require(LPARENT);
      if Kind() != STRCON {
        return Throws(Failed("cannot parse printf"));
      }
      var format := lexer.CurrentToken();
      Advance();
      var args: seq<BiExp> := [];
      while Kind() == COMMA
        invariant Valid() && old(lexer.current) < lexer.current
        invariant |old(errors.entries)| <= |errors.entries|
        invariant forall a | a in args :: ChainOf(a, AddLevel)
        decreases |lexer.tokens| - lexer.current
      {
        Advance();
        var e :- ParseExp();
        args := args + [e];
      }
      Expect(RPARENT, 'j');
      Expect(SEMICN, 'i');
      return Ok(Printf(line, format, args));
    }

    /**
     * Cases 0, 1, 8 and 9: the `=` look-ahead picks an assignment or an expression
     * statement.
     */
    method ParseSimpleStmt() returns (r: Result<Stmt>)
      requires Valid()
      modifies lexer, errors
      ensures Valid() && old(lexer.current) <= lexer.current
      ensures |old(errors.entries)| <= |errors.entries|
      ensures r.Ok? ==> old(lexer.current) < lexer.current && r.value.line == old(Line())
      ensures r.Ok? ==>
        var ahead := AssignmentAhead(lexer.tokens, old(lexer.current), old(Line()));
        ahead.Ok? && (ahead.value <==> r.value.CaseNum() in {0, 8, 9}) && (!ahead.value ==> r.value.ExpStmt?)
      decreases |lexer.tokens| - lexer.current, 31
    {
      var isAssignment :- AssignmentLookahead();
      if isAssignment {
        r := ParseAssignStmt();
      } else {
        r := ParseExpStmt();
      }
    }

    /** The look-ahead loop over `tokenPreRead(i)`, i = 0, 1, …; it moves nothing. */
    method AssignmentLookahead() returns (r: Result<bool>)
      requires Valid()
      ensures r == AssignmentAhead(lexer.tokens, lexer.current, Line())
    {
      var line := Line();
      var i: nat := 0;
      while true
        invariant AssignmentAhead(lexer.tokens, lexer.current + i, line) == AssignmentAhead(lexer.tokens, lexer.current, line)
        decreases |lexer.tokens| - (lexer.current + i)
      {
        var t :- lexer.PreRead(i);
        if t.kind == ASSIGN {
          return Ok(true);
        }
        if t.kind == SEMICN || t.line > line {
          return Ok(false);
        }
        i := i + 1;
      }
    }

    /**
     * The `=` of an assignment statement that started at `start` is at `p`, and the
     * token after it decides between `getint`, `getchar` and an expression.
     */
    ghost predicate AssignAt(p: int, start: int, s: Stmt)
      reads this, lexer
      requires Valid()
    {
      0 <= start < p < lexer.current - 1 && lexer.tokens[p].kind == ASSIGN &&
      (s.GetInt? <==> lexer.tokens[p + 1].kind == GETINTTK) &&
      (s.GetChar? <==> lexer.tokens[p + 1].kind == GETCHARTK)
    }

    /**
     * Cases 0, 8 and 9: `lval =` followed by `getint ( )`, `getchar ( )` or an
     * expression, then `;` (a missing `)` is `j`, a missing `;` is `i`).
     */
    method ParseAssignStmt() returns (r: Result<Stmt>)
      requires Valid()
      modifies lexer, errors
      ensures Valid() && old(lexer.current) <= lexer.current
      ensures |old(errors.entries)| <= |errors.entries|
      ensures r.Ok? ==> old(lexer.current) < lexer.current && r.value.line == old(Line()) && r.value.CaseNum() in {0, 8, 9}
      ensures r.Ok? ==> exists p :: AssignAt(p, old(lexer.current), r.value)
      decreases |lexer.tokens| - lexer.current, 30
    {
      var line := Line();
      var lval :- ParseLval();
      ghost var p := lexer.current;
      var _ :- Require(ASSIGN);
      var s :- ParseAssignedValue(line, lval);
      assert AssignAt(p, old(lexer.current), s);
      return Ok(s);
    }

    /** What follows the `=`: `getint ( )`, `getchar ( )` or an expression, then `;`. */
    method ParseAssignedValue(line: int, lval: Lval) returns (r: Result<Stmt>)
      requires Valid() && lexer.current > 0
      modifies lexer, errors
      ensures Valid() && old(lexer.current) <= lexer.current
      ensures |old(errors.entries)| <= |errors.entries|
      ensures r.Ok? ==> old(lexer.current) < lexer.current && r.value.line == line && r.value.CaseNum() in {0, 8, 9}
      ensures r.Ok? ==> r.value.lval == lval
      ensures r.Ok? ==> (r.value.GetInt? <==> old(Kind()) == GETINTTK) && (r.value.GetChar? <==> old(Kind()) == GETCHARTK)
      decreases |lexer.tokens| - lexer.current, 29
    {
      if Kind() == GETINTTK || Kind() == GETCHARTK {
        var isInt := Kind() == GETINTTK;
        Advance();
        var _ :- Require(LPARENT);
        Expect(RPARENT, 'j');
        Expect(SEMICN, 'i');
        return Ok(if isInt then GetInt(line, lval) else GetChar(line, lval));
      }
      var e :- ParseExp();
      Expect(SEMICN, 'i');
      return Ok(Assign(line, lval, e));
    }

    /** Case 1: `;` alone, or an expression and `;` (missing: `i`). */
    method ParseExpStmt() returns (r: Result<Stmt>)
      requires Valid()
      modifies lexer, errors
      ensures Valid() && old(lexer.current) <= lexer.current
      ensures |old(errors.entries)| <= |errors.entries|
      ensures r.Ok? ==> old(lexer.current) < lexer.current && r.value.line == old(Line()) && r.value.ExpStmt?
      ensures r.Ok? ==> (r.value.exp.None? <==> old(Kind()) == SEMICN)
      ensures r.Ok? && r.value.exp.Some? ==> ChainOf(r.value.exp.value, AddLevel)
      decreases |lexer.tokens| - lexer.current, 30
    {
      var line := Line();
      if Kind() == SEMICN {
        Advance();
        return Ok(ExpStmt(line, None));
      }
      var e :- ParseExp();
      Expect(SEMICN, 'i');
      return Ok(ExpStmt(line, Some(e)));
    }

    /** `parseForStmt`: `lval = exp` inside a `for` header. */
    method ParseForStmt() returns (r: Result<Stmt>)
      requires Valid()
      modifies lexer, errors
      ensures Valid() && old(lexer.current) <= lexer.current
      ensures |old(errors.entries)| <= |errors.entries|
      ensures r.Ok? ==> old(lexer.current) < lexer.current && r.value.Assign? && r.value.line == old(Line())
      ensures r.Ok? ==> LvalShaped(r.value.lval) && ChainOf(r.value.value, AddLevel)
      decreases |lexer.tokens| - lexer.current, 15
    {
      var line := Line();
      var lval :- ParseLval();
      var _ :- Require(ASSIGN);
      var e :- ParseExp();
      return Ok(Assign(line, lval, e));
    }

    /** `parseCond`: a `||` chain. */
    method ParseCond() returns (r: Result<BiExp>)
      requires Valid()
      modifies lexer, errors
      ensures Valid() && old(lexer.current) <= lexer.current
      ensures |old(errors.entries)| <= |errors.entries|
      ensures r.Ok? ==> old(lexer.current) < lexer.current && ChainOf(r.value, LOrLevel)
      decreases |lexer.tokens| - lexer.current, 22
    {
      r := ParseLevel(LOrLevel);
    }

    /**
     * `parseLOrExp` … `parseMulExp`: an operand, then while the current token is one of
     * the level's operators, a new node whose left element is the chain so far.
     */
    method ParseLevel(level: Level) returns (r: Result<BiExp>)
      requires Valid()
      modifies lexer, errors
      ensures Valid() && old(lexer.current) <= lexer.current
      ensures |old(errors.entries)| <= |errors.entries|
      ensures r.Ok? ==> old(lexer.current) < lexer.current && ChainOf(r.value, level)
      ensures r.Ok? ==> Kind() !in Operators(level)
      decreases |lexer.tokens| - lexer.current, 11 + 2 * Height(level)
    {
      var line := Line();
      var first :- ParseOperand(level);
      var e := BiExp(line, first, None, None);
      while Kind() in Operators(level)
        invariant Valid() && old(lexer.current) < lexer.current
        invariant |old(errors.entries)| <= |errors.entries|
        invariant ChainOf(e, level)
        decreases |lexer.tokens| - lexer.current
      {
        var op := lexer.CurrentToken();
        Advance();
        var right :- ParseOperand(level);
        e := BiExp(op.line, Sub(e), Some(op), Some(right));
      }
      return Ok(e);
    }

    /** The operand of a level: the next level's chain, or a unary expression below `*`. */
    method ParseOperand(level: Level) returns (r: Result<Operand>)
      requires Valid()
      modifies lexer, errors
      ensures Valid() && old(lexer.current) <= lexer.current
      ensures |old(errors.entries)| <= |errors.entries|
      ensures r.Ok? ==> old(lexer.current) < lexer.current && OperandOf(r.value, level)
      decreases |lexer.tokens| - lexer.current, 10 + 2 * Height(level)
    {
      if level == MulLevel {
        var u :- ParseUnaryExp();
        return Ok(Unary(u));
      }
      var e :- ParseLevel(Next(level));
      return Ok(Sub(e));
    }

    /** `parseExp` (and `parseConstExp`, which differs only in its debug output): an additive chain. */
    method ParseExp() returns (r: Result<BiExp>)
      requires Valid()
      modifies lexer, errors
      ensures Valid() && old(lexer.current) <= lexer.current
      ensures |old(errors.entries)| <= |errors.entries|
      ensures r.Ok? ==> old(lexer.current) < lexer.current && ChainOf(r.value, AddLevel)
      decreases |lexer.tokens| - lexer.current, 14
    {
      r := ParseLevel(AddLevel);
    }

    /**
     * `parseUnaryExp`: a call when a name is followed by `(`, a `+ - !` prefix applied to
     * a unary expression, or else a primary expression.
     */
    method ParseUnaryExp() returns (r: Result<UnaryExp>)
      requires Valid()
      modifies lexer, errors
      ensures Valid() && old(lexer.current) <= lexer.current
      ensures |old(errors.entries)| <= |errors.entries|
      ensures r.Ok? ==> old(lexer.current) < lexer.current && UnaryShaped(r.value) && r.value.line == old(Line())
      ensures r.Ok? ==> (r.value.Prefix? <==> old(Kind()) in {PLUS, MINU, NOT})
      ensures r.Ok? ==> (r.value.Call? <==> old(Kind()) == IDENFR && lexer.tokens[old(lexer.current) + 1].kind == LPARENT)
      decreases |lexer.tokens| - lexer.current, 9
    {
      var line := Line();
      var isCall := false;
      if Kind() == IDENFR {
        var next :- lexer.PreRead(1);
        isCall := next.kind == LPARENT;
      }
      if isCall {
        r := ParseCallExp();
        return;
      } else if Kind() in {PLUS, MINU, NOT} {
        var op := lexer.CurrentToken();
        Advance();
        var operand :- ParseUnaryExp();
        return Ok(Prefix(line, op, operand));
      }
      var p :- ParsePrimaryExp();
      return Ok(Primary(line, p));
    }

    /**
     * The call branch of `parseUnaryExp`, at a name followed by `(`: the arguments
     * unless `)` or `;` comes next, then `)` (a missing one is `j`).
     */
    method ParseCallExp() returns (r: Result<UnaryExp>)
      requires Valid() && Kind() == IDENFR && lexer.current + 1 < |lexer.tokens| && lexer.tokens[lexer.current + 1].kind == LPARENT
      modifies lexer, errors
      ensures Valid() && old(lexer.current) <= lexer.current
      ensures |old(errors.entries)| <= |errors.entries|
      ensures r.Ok? ==> old(lexer.current) < lexer.current && r.value.line == old(Line())
      ensures r.Ok? ==> r.value.Call? && r.value.name == old(lexer.CurrentToken().text)
      ensures r.Ok? ==> forall i | 0 <= i < |r.value.args| :: ChainOf(r.value.args[i], AddLevel)
      decreases |lexer.tokens| - lexer.current, 8
    {
      var line := Line();
      var name := lexer.CurrentToken().text;
      Advance();
      Advance();
      var args: seq<BiExp> := [];
      if Kind() == RPARENT {
        Advance();
      } else if Kind() == SEMICN {
        Expect(RPARENT, 'j');
      } else {
        var ps :- ParseFuncRParams();
        args := ps;
        Expect(RPARENT, 'j');
      }
      return Ok(Call(line, name, args));
    }

    /** `parsePrimaryExp` with `parseNumber` and `parseCharacter`: `( exp )` (a missing `)` is `j`), an lvalue, a number or a character. */
    method ParsePrimaryExp() returns (r: Result<PrimaryExp>)
      requires Valid()
      modifies lexer, errors
      ensures Valid() && old(lexer.current) <= lexer.current
      ensures |old(errors.entries)| <= |errors.entries|
      ensures r.Ok? ==> old(lexer.current) < lexer.current && PrimaryShaped(r.value) && r.value.line == old(Line())
      ensures r.Ok? <== old(Kind()) in {INTCON, CHRCON}
      ensures r.Ok? ==> match old(Kind())
        case LPARENT => r.value.Paren?
        case IDENFR => r.value.LvalExp?
        case INTCON => r.value == Number(old(Line()), old(lexer.CurrentToken()))
        case CHRCON => r.value == Character(old(Line()), old(lexer.CurrentToken()))
        case _ => false
      decreases |lexer.tokens| - lexer.current, 8
    {
      var line := Line();
      if Kind() == LPARENT {
        Advance();
        var e :- ParseExp();
        Expect(RPARENT, 'j');
        return Ok(Paren(line, e));
      } else if Kind() == IDENFR {
        var l :- ParseLval();
        return Ok(LvalExp(line, l));
      } else if Kind() == INTCON {
        var t := lexer.CurrentToken();
        Advance();
        return Ok(Number(line, t));
      } else if Kind() == CHRCON {
        var t := lexer.CurrentToken();
        Advance();
        return Ok(Character(line, t));
      }
      return Throws(Failed("cannot parse primary expression"));
    }

    /** `parseLval`: a name and an optional `[ exp ]` (a missing `]` is `k`). */
    method ParseLval() returns (r: Result<Lval>)
      requires Valid()
      modifies lexer, errors
      ensures Valid() && old(lexer.current) <= lexer.current
      ensures |old(errors.entries)| <= |errors.entries|
      ensures r.Ok? ==> old(lexer.current) < lexer.current && LvalShaped(r.value) && r.value.line == old(Line())
      ensures r.Ok? ==> old(Kind()) == IDENFR
      ensures old(Kind()) != IDENFR ==> r.Throws?
      ensures r.Ok? ==> r.value.name == old(lexer.CurrentToken().text)
      ensures r.Ok? ==> (r.value.index.Some? <==> lexer.tokens[old(lexer.current) + 1].kind == LBRACK)
      decreases |lexer.tokens| - lexer.current, 7
    {
      var line := Line();
      if Kind() != IDENFR {
        return Throws(Failed("cannot parse lvalue"));
      }
      var name := lexer.CurrentToken().text;
      Advance();
      if Kind() == LBRACK {
        Advance();
        var e :- ParseExp();
        Expect(RBRACK, 'k');
        return Ok(Lval(line, name, Some(e)));
      }
      return Ok(Lval(line, name, None));
    }

    /** `parseFuncRParams`: one or more comma-separated expressions. */
    method ParseFuncRParams() returns (r: Result<seq<BiExp>>)
      requires Valid()
      modifies lexer, errors
      ensures Valid() && old(lexer.current) <= lexer.current
      ensures |old(errors.entries)| <= |errors.entries|
      ensures r.Ok? ==> old(lexer.current) < lexer.current && |r.value| > 0
      ensures r.Ok? ==> forall a | a in r.value :: ChainOf(a, AddLevel)
      decreases |lexer.tokens| - lexer.current, 15
    {
      var first :- ParseExp();
      var exps := [first];
      while Kind() == COMMA
        invariant Valid() && old(lexer.current) < lexer.current && |exps| > 0
        invariant |old(errors.entries)| <= |errors.entries|
        invariant forall a | a in exps :: ChainOf(a, AddLevel)
        decreases |lexer.tokens| - lexer.current
      {
        Advance();
        var e :- ParseExp();
        exps := exps + [e];
      }
      return Ok(exps);
    }

    /** `parseConstDecl`: `const`, a type, one or more constant definitions and `;` (missing: `i`). */
    method ParseConstDecl() returns (r: Result<Decl>)
      requires Valid()
      modifies lexer, errors
      ensures Valid() && old(lexer.current) <= lexer.current
      ensures |old(errors.entries)| <= |errors.entries|
      ensures r.Ok? ==> old(lexer.current) < lexer.current && old(Kind()) == CONSTTK && r.value.line == old(Line())
      ensures r.Ok? ==> r.value.isConst && DeclShaped(r.value)
      decreases |lexer.tokens| - lexer.current, 17
    {
      var line := Line();
      var _ :- Require(CONSTTK);
      var btype: Btype;
      if Kind() == INTTK {
        btype := IntType;
      } else if Kind() == CHARTK {
        btype := CharType;
      } else {
        return Throws(Failed("missing constant type"));
      }
      Advance();
      var first :- ParseVarConstDef(true);
      var defs := [first];
      while Kind() == COMMA
        invariant Valid() && old(lexer.current) < lexer.current && |defs| > 0
        invariant |old(errors.entries)| <= |errors.entries|
        invariant forall d | d in defs :: d.isConst && d.init.Some?
        decreases |lexer.tokens| - lexer.current
      {
        Advance();
        var d :- ParseVarConstDef(true);
        defs := defs + [d];
      }
      Expect(SEMICN, 'i');
      return Ok(Decl(line, true, btype, defs));
    }

    /** `parseVarDecl`: a type, one or more variable definitions and `;` (missing: `i`). */
    method ParseVarDecl() returns (r: Result<Decl>)
      requires Valid()
      modifies lexer, errors
      ensures Valid() && old(lexer.current) <= lexer.current
      ensures |old(errors.entries)| <= |errors.entries|
      ensures r.Ok? ==> old(lexer.current) < lexer.current && r.value.line == old(Line())
      ensures r.Ok? ==> !r.value.isConst && DeclShaped(r.value)
      ensures r.Ok? ==> (r.value.btype == IntType <==> old(Kind()) == INTTK)
      decreases |lexer.tokens| - lexer.current, 17
    {
      var line := Line();
      var btype: Btype;
      if Kind() == INTTK {
        btype := IntType;
      } else if Kind() == CHARTK {
        btype := CharType;
      } else {
        return Throws(Failed("missing variable type"));
      }
      Advance();
      var first :- ParseVarConstDef(false);
      var defs := [first];
      while Kind() == COMMA
        invariant Valid() && old(lexer.current) < lexer.current && |defs| > 0
        invariant |old(errors.entries)| <= |errors.entries|
        invariant forall d | d in defs :: !d.isConst
        decreases |lexer.tokens| - lexer.current
      {
        Advance();
        var d :- ParseVarConstDef(false);
        defs := defs + [d];
      }
      Expect(SEMICN, 'i');
      return Ok(Decl(line, false, btype, defs));
    }

    /**
     * `parseConstDef` (`isConst`) and `parseVarDef`: a name, an optional `[ exp ]`
     * (missing `]`: `k`) and the initialiser, which a constant must have.
     */
    method ParseVarConstDef(isConst: bool) returns (r: Result<VarConstDef>)
      requires Valid()
      modifies lexer, errors
      ensures Valid() && old(lexer.current) <= lexer.current
      ensures |old(errors.entries)| <= |errors.entries|
      ensures r.Ok? ==> old(lexer.current) < lexer.current && r.value.line == old(Line())
      ensures r.Ok? ==> old(Kind()) == IDENFR && r.value.name == old(lexer.CurrentToken().text)
      ensures r.Ok? ==> r.value.isConst == isConst && (isConst ==> r.value.init.Some?)
      ensures r.Ok? && r.value.init.Some? ==> r.value.init.value.isConst == isConst
      decreases |lexer.tokens| - lexer.current, 16
    {
      var line := Line();
      if Kind() != IDENFR {
        return Throws(Failed("cannot parse definition"));
      }
      var name := lexer.CurrentToken().text;
      Advance();
      var dim: Option<BiExp> := None;
      if Kind() == LBRACK {
        Advance();
        var e :- ParseExp();
        dim := Some(e);
        Expect(RBRACK, 'k');
      }
      var init: Option<InitVal> := None;
      if isConst {
        var _ :- Require(ASSIGN);
        var iv :- ParseInitVal(true);
        init := Some(iv);
      } else if Kind() == ASSIGN {
        Advance();
        var iv :- ParseInitVal(false);
        init := Some(iv);
      }
      return Ok(VarConstDef(line, isConst, name, dim, init));
    }

    /**
     * `parseInitVal` and `parseConstInitVal` (`isConst`): a string constant, a braced
     * list of expressions, or a single expression.
     */
    method ParseInitVal(isConst: bool) returns (r: Result<InitVal>)
      requires Valid()
      modifies lexer, errors
      ensures Valid() && old(lexer.current) <= lexer.current
      ensures |old(errors.entries)| <= |errors.entries|
      ensures r.Ok? ==> old(lexer.current) < lexer.current && r.value.line == old(Line()) && r.value.isConst == isConst
      ensures r.Ok? ==> (r.value.stringConst.Some? <==> old(Kind()) == STRCON)
      ensures r.Ok? && r.value.stringConst.Some? ==> r.value.stringConst.value == old(lexer.CurrentToken().text) && r.value.exps == []
      ensures r.Ok? && old(Kind()) !in {STRCON, LBRACE} ==> |r.value.exps| == 1
      ensures r.Ok? ==> forall e | e in r.value.exps :: ChainOf(e, AddLevel)
      decreases |lexer.tokens| - lexer.current, 15
    {
      var line := Line();
      if Kind() == STRCON {
        var s := lexer.CurrentToken().text;
        Advance();
        return Ok(InitVal(line, isConst, Some(s), []));
      }
      var exps: seq<BiExp> := [];
      if Kind() == LBRACE {
        Advance();
        if Kind() != RBRACE {
          var first :- ParseExp();
          exps := [first];
          while Kind() == COMMA
            invariant Valid() && old(lexer.current) < lexer.current
            invariant |old(errors.entries)| <= |errors.entries|
            invariant forall e | e in exps :: ChainOf(e, AddLevel)
            decreases |lexer.tokens| - lexer.current
          {
            Advance();
            var e :- ParseExp();
            exps := exps + [e];
          }
        }
        var _ :- Require(RBRACE);
      } else {
        var e :- ParseExp();
        exps := [e];
      }
      return Ok(InitVal(line, isConst, None, exps));
    }
  }

  /** A parsed declaration: its definitions agree with it on constness and constants are initialised. */
  ghost predicate DeclShaped(d: Decl) {
    |d.defs| > 0 &&
    forall v | v in d.defs :: v.isConst == d.isConst && (d.isConst ==> v.init.Some?)
  }
}
