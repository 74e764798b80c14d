/**
 * The syntax tree the parser builds and both tree walks read (syntax/nodes). A Java
 * field that may be `null` is an `Option`; a node's `line` is the 0-based line of the
 * token it starts at.
 */
module Nodes {
  import opened Outcomes
  import opened Tokens

  datatype Btype = IntType | CharType

  /**
   * One level of a binary chain. With no operator the node only wraps its single
   * child (`right` is `None`); otherwise `left` is the chain so far and `right` the
   * next operand.
   */
  datatype BiExp = BiExp(line: int, left: Operand, op: Option<Token>, right: Option<Operand>)

  /** A chain element: a node of another binary level, or (below `*`) a unary expression. */
  datatype Operand = Sub(exp: BiExp) | Unary(unary: UnaryExp)

  datatype UnaryExp =
    | Primary(line: int, primary: PrimaryExp)
    | Call(line: int, name: string, args: seq<BiExp>)  // empty when there is no FuncRParams node
    | Prefix(line: int, op: Token, operand: UnaryExp)

  datatype PrimaryExp =
    | Paren(line: int, exp: BiExp)
    | LvalExp(line: int, lval: Lval)
    | Number(line: int, number: Token)
    | Character(line: int, character: Token)

  /** A name, optionally indexed. */
  datatype Lval = Lval(line: int, name: string, index: Option<BiExp>)

  /** The eleven statement forms, numbered by `CaseNum` as the analyser numbers them. */
  datatype Stmt =
    | Assign(line: int, lval: Lval, value: BiExp)
    | ExpStmt(line: int, exp: Option<BiExp>)
    | BlockStmt(line: int, block: Block)
    | If(line: int, cond: BiExp, thenStmt: Stmt, elseStmt: Option<Stmt>)
    | For(line: int, init: Option<Stmt>, forCond: Option<BiExp>, update: Option<Stmt>, body: Stmt)
    | Break(line: int)
    | Continue(line: int)
    | Return(line: int, returned: Option<BiExp>)
    | GetInt(line: int, lval: Lval)
    | GetChar(line: int, lval: Lval)
    | Printf(line: int, format: Token, args: seq<BiExp>)
  {
    function CaseNum(): nat {
      match this
      case Assign(_, _, _) => 0
      case ExpStmt(_, _) => 1
      case BlockStmt(_, _) => 2
      case If(_, _, _, _) => 3
      case For(_, _, _, _, _) => 4
      case Break(_) => 5
      case Continue(_) => 6
      case Return(_, _) => 7
      case GetInt(_, _) => 8
      case GetChar(_, _) => 9
      case Printf(_, _, _) => 10
    }
  }

  /** `lastRBraceLine` is the line of the closing brace. */
  datatype Block = Block(line: int, items: seq<BlockItem>, lastRBraceLine: int)

  datatype BlockItem = DeclItem(line: int, decl: Decl) | StmtItem(line: int, stmt: Stmt)

  datatype Decl = Decl(line: int, isConst: bool, btype: Btype, defs: seq<VarConstDef>)

  datatype VarConstDef = VarConstDef(line: int, isConst: bool, name: string, dim: Option<BiExp>, init: Option<InitVal>)

  /** A string initialiser keeps its quoted token text; otherwise `exps` lists the expressions. */
  datatype InitVal = InitVal(line: int, isConst: bool, stringConst: Option<string>, exps: seq<BiExp>)

  datatype FuncFParam = FuncFParam(line: int, btype: Btype, name: string, isArray: bool)

  /** A function; `params` is `None` when the parentheses are empty. */
  datatype FuncDef = FuncDef(line: int, funcType: Token, name: string, params: Option<seq<FuncFParam>>, block: Block)

  datatype MainFuncDef = MainFuncDef(line: int, block: Block)

  datatype CompUnit = CompUnit(line: int, decls: seq<Decl>, funcDefs: seq<FuncDef>, main: Option<MainFuncDef>)
}
