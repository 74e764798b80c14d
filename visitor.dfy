/**
 * The semantic analyser (semantics/Visitor.java): one walk over the syntax tree that
 * enters symbols into the scope table, folds constant expressions with Java `int`
 * arithmetic, expands initialisers into per-element value lists and records the
 * diagnostics `b c d e f g h l m`.
 *
 * Expressions are analysed by pure functions (`EvalExp` and its companions): they
 * only read the table, and what they record is returned as a list of diagnostics
 * that the calling method appends. Declarations, statements and functions are
 * methods of the class `Visitor`, which change the table and the diagnostics list.
 */
module Semantics {
  import opened Outcomes
  import opened JavaInt
  import opened Text
  import opened Utilities
  import opened Tokens
  import opened Nodes
  import opened ValueTypes
  import opened FunctionTypes
  import opened SymbolTables
  import opened ProgramExceptions

  /** `ExpInfo`: the type of an expression and, for a constant, its value (`None` when unknown). */
  datatype ExpInfo = ExpInfo(vtype: ValueType, value: Option<int32>)

  /**
   * What analysing an expression does: the diagnostics it records, in order, and the
   * info it returns (`None` for `null`) or the exception it throws.
   */
  datatype Eval = Eval(diags: seq<Diagnostic>, result: Result<Option<ExpInfo>>)

  /** The diagnostics `d` recorded before `e`. */
  function After(d: seq<Diagnostic>, e: Eval): (r: Eval)
    ensures r.diags == d + e.diags && r.result == e.result
  {
    Eval(d + e.diags, e.result)
  }

  /** A table position from which lookups can be made. */
  ghost predicate At(scopes: seq<Scope>, cur: nat) {
    ParentsOlder(scopes) && 1 <= cur <= |scopes|
  }

  const IntValue: ValueType := ValueType(INT, false, None)

  /**
   * The value of a constant binary operation on two boxed `Integer`s (`None` for
   * `null`). Unboxing `null` throws, `&&` and `||` do not look at the right operand
   * once the left one decides, and `==`/`!=` use `equals`, which tolerates a `null`
   * argument. An operator outside the switch leaves the value `null`.
   */
  function Fold(op: TokenType, a: Option<int32>, b: Option<int32>): (r: Result<Option<int32>>)
    ensures op in {PLUS, MINU, MULT, LSS, LEQ, GRE, GEQ} ==> (r.Ok? <==> a.Some? && b.Some?)
    ensures op in {DIV, MOD} ==> (r.Ok? <==> a.Some? && b.Some? && b.value != 0)
    ensures op in {DIV, MOD} && a.Some? && b == Some(0) ==> r == Throws(Arithmetic)
    ensures op in {AND, OR, EQL, NEQ} && a.None? ==> r == Throws(NullPointer)
    ensures op == AND && a == Some(0) ==> r == Ok(Some(0))
    ensures op == OR && a.Some? && a.value != 0 ==> r == Ok(Some(1))
    ensures op in {EQL, NEQ} && a.Some? ==> r.Ok?
    ensures op == EQL && a.Some? ==> (r == Ok(Some(1)) <==> b == a)
    ensures op == NEQ && a.Some? ==> (r == Ok(Some(1)) <==> b != a)
    ensures r.Ok? && op in {AND, OR, EQL, NEQ, LSS, LEQ, GRE, GEQ} ==> r.value.Some? && 0 <= r.value.value <= 1
    ensures r.Ok? && op in {PLUS, MINU, MULT, DIV, MOD} ==> r.value.Some?
    ensures op !in {PLUS, MINU, MULT, DIV, MOD, AND, OR, EQL, NEQ, LSS, LEQ, GRE, GEQ} ==> r == Ok(None)
  {
    match op
    case PLUS => if a.None? || b.None? then Throws(NullPointer) else Ok(Some(Add(a.value, b.value)))
    case MINU => if a.None? || b.None? then Throws(NullPointer) else Ok(Some(JavaInt.Sub(a.value, b.value)))
    case MULT => if a.None? || b.None? then Throws(NullPointer) else Ok(Some(Mul(a.value, b.value)))
    case DIV =>
      if a.None? || b.None? then Throws(NullPointer)
      else if b.value == 0 then Throws(Arithmetic)
      else Ok(Some(Div(a.value, b.value)))
    case MOD =>
      if a.None? || b.None? then Throws(NullPointer)
      else if b.value == 0 then Throws(Arithmetic)
      else Ok(Some(Rem(a.value, b.value)))
    case AND =>
      if a.None? then Throws(NullPointer)
      else if a.value == 0 then Ok(Some(0))
      else if b.None? then Throws(NullPointer)
      else Ok(Some(if b.value != 0 then 1 else 0))
    case OR =>
      if a.None? then Throws(NullPointer)
      else if a.value != 0 then Ok(Some(1))
      else if b.None? then Throws(NullPointer)
      else Ok(Some(if b.value != 0 then 1 else 0))
    case EQL => if a.None? then Throws(NullPointer) else Ok(Some(if b == a then 1 else 0))
    case NEQ => if a.None? then Throws(NullPointer) else Ok(Some(if b == a then 0 else 1))
    case LSS => if a.None? || b.None? then Throws(NullPointer) else Ok(Some(if a.value < b.value then 1 else 0))
    case LEQ => if a.None? || b.None? then Throws(NullPointer) else Ok(Some(if a.value <= b.value then 1 else 0))
    case GRE => if a.None? || b.None? then Throws(NullPointer) else Ok(Some(if a.value > b.value then 1 else 0))
    case GEQ => if a.None? || b.None? then Throws(NullPointer) else Ok(Some(if a.value >= b.value then 1 else 0))
    case _ => Ok(None)
  }

  /**
   * Folded `+`, `-` and `*` give the mathematical result wrapped to a Java int, so
   * they agree with it modulo 2^32 (see `Wrap`) and equal it when it fits.
   */
  lemma FoldWraps(op: TokenType, a: int32, b: int32)
    requires op in {PLUS, MINU, MULT}
    ensures var exact := if op == PLUS then a + b else if op == MINU then a - b else a * b;
      Fold(op, Some(a), Some(b)) == Ok(Some(Wrap(exact)))
  {
    if op == PLUS {
      assert Fold(op, Some(a), Some(b)) == Ok(Some(Add(a, b)));
    } else if op == MINU {
      assert Fold(op, Some(a), Some(b)) == Ok(Some(JavaInt.Sub(a, b)));
    } else {
      assert Fold(op, Some(a), Some(b)) == Ok(Some(Mul(a, b)));
    }
  }

  /** Folded `/` and `%` form a truncating division (rounding toward zero). */
  lemma {:induction false} FoldDivision(a: int32, b: int32)
    requires b != 0 && !(a == MIN && b == -1)
    ensures var q := Fold(DIV, Some(a), Some(b)); var r := Fold(MOD, Some(a), Some(b));
      q.Ok? && q.value.Some? && r.Ok? && r.value.Some? && IsTruncDivision(a, b, q.value.value, r.value.value)
  {
    TruncDivisionHolds(a, b);
    assert Fold(DIV, Some(a), Some(b)) == Ok(Some(TruncQuot(a, b)));
    assert Fold(MOD, Some(a), Some(b)) == Ok(Some(TruncRem(a, b)));
  }

  /** `constValues.get(idx)` on a boxed index, with the element's value put into `info`. */
  function Element(values: seq<Option<int32>>, idx: Option<int32>, info: ExpInfo): (r: Result<Option<ExpInfo>>)
    ensures r.Ok? <==> idx.Some? && 0 <= idx.value < |values|
    ensures r.Ok? ==> r.value == Some(info.(value := values[idx.value]))
    ensures idx.None? ==> r == Throws(NullPointer)
  {
    if idx.None? then Throws(NullPointer)
    else if idx.value < 0 || idx.value >= |values| then Throws(IndexOutOfBounds)
    else Ok(Some(info.(value := values[idx.value])))
  }

  /** What a call of a function with this return type yields before its arguments are checked. */
  function CallInfo(rt: ReturnType): (r: Option<ExpInfo>)
    ensures rt == VoidReturn <==> r.None?
    ensures r.Some? ==> !r.value.vtype.isConst && !r.value.vtype.IsArray() && r.value.value.None?
    ensures r.Some? ==> (r.value.vtype.basic == CHR <==> rt == CharReturn)
  {
    match rt
    case VoidReturn => None
    case IntReturn => Some(ExpInfo(ValueType(INT, false, None), None))
    case CharReturn => Some(ExpInfo(ValueType(CHR, false, None), None))
  }

  /** An argument that does not fit its parameter: array-ness differs, or both are arrays of different base types. */
  predicate Mismatch(actual: ValueType, formal: ValueType) {
    actual.IsArray() != formal.IsArray() || (actual.IsArray() && formal.IsArray() && actual.basic != formal.basic)
  }

  /** `visitExp`: a node without operator is its child; otherwise both operands, then the combination. */
  function EvalExp(scopes: seq<Scope>, cur: nat, e: BiExp): Eval
    requires At(scopes, cur)
    decreases e
  {
    if e.op.None? then EvalOperand(scopes, cur, e.left)
    else
      var l := EvalOperand(scopes, cur, e.left);
      if l.result.Throws? then l
      else if e.right.None? then Eval(l.diags, Throws(NullPointer))
      else After(l.diags, Combine(e.op.value.kind, l.result.value, EvalOperand(scopes, cur, e.right.value)))
  }

  /**
   * The combination of a binary node once its left operand gave `left` and its right
   * operand was analysed to `r`: `null` when either info is `null`, otherwise a
   * scalar `int` that is constant when both operands are, with the folded value.
   */
  function Combine(op: TokenType, left: Option<ExpInfo>, r: Eval): (c: Eval)
    ensures c.diags == r.diags
    ensures r.result.Throws? ==> c.result == r.result
    ensures r.result.Ok? ==> (c.result == Ok(None) <==> left.None? || r.result.value.None?)
    ensures c.result.Ok? && c.result.value.Some? ==>
      left.Some? && r.result.Ok? && r.result.value.Some? &&
      c.result.value.value.vtype == ValueType(INT, left.value.vtype.isConst && r.result.value.value.vtype.isConst, None)
    ensures c.result.Ok? && c.result.value.Some? && c.result.value.value.vtype.isConst ==>
      Fold(op, left.value.value, r.result.value.value.value) == Ok(c.result.value.value.value)
  {
    if r.result.Throws? then r
    else if left.None? || r.result.value.None? then Eval(r.diags, Ok(None))
    else
      var li, ri := left.value, r.result.value.value;
      if !(li.vtype.isConst && ri.vtype.isConst) then Eval(r.diags, Ok(Some(ExpInfo(IntValue, None))))
      else match Fold(op, li.value, ri.value)
        case Throws(x) => Eval(r.diags, Throws(x))
        case Ok(v) => Eval(r.diags, Ok(Some(ExpInfo(ValueType(INT, true, None), v))))
  }

  function EvalOperand(scopes: seq<Scope>, cur: nat, o: Operand): Eval
    requires At(scopes, cur)
    decreases o
  {
    match o
    case Sub(e) => EvalExp(scopes, cur, e)
    case Unary(u) => EvalUnary(scopes, cur, u)
  }

  /**
   * `visitUnaryExp`: a primary, a call, or a prefix operator: `+` passes its operand's
   * info through, `-` negates and `!` maps 0 to 1 and the rest to 0, both only for a
   * constant (unboxing a `null` value throws).
   */
  function EvalUnary(scopes: seq<Scope>, cur: nat, u: UnaryExp): Eval
    requires At(scopes, cur)
    decreases u
  {
    match u
    case Primary(_, p) => EvalPrimary(scopes, cur, p)
    case Call(line, name, args) =>
      var found := LookupIn(scopes, cur, name);
      if found.None? then Eval([Diagnostic(line + 1, 'c')], Ok(None))
      else if found.value.symType.ValueSym? then Eval([], Throws(ClassCast))
      else
        var ft := found.value.symType.ftype;
        if |args| != |ft.paramNames| then Eval([Diagnostic(line + 1, 'd')], Ok(CallInfo(ft.returnType)))
        else EvalArgs(scopes, cur, u, ft.paramTypes, 0, CallInfo(ft.returnType))
    case Prefix(_, op, x) =>
      var ev := EvalUnary(scopes, cur, x);
      Apply(op.kind, ev)
  }

  /** A prefix operator applied to the analysed operand `ev`. */
  function Apply(op: TokenType, ev: Eval): (r: Eval)
    ensures r.diags == ev.diags
    ensures ev.result.Throws? || ev.result == Ok(None) || op == PLUS ==> r == ev
    ensures ev.result.Ok? && ev.result.value.Some? && op in {MINU, NOT} && !ev.result.value.value.vtype.isConst ==> r == ev
    ensures ev.result.Ok? && ev.result.value.Some? && op in {MINU, NOT} && ev.result.value.value.vtype.isConst ==>
      var v := ev.result.value.value;
      if v.value.None? then r.result == Throws(NullPointer)
      else r.result == Ok(Some(v.(value := Some(if op == MINU then Neg(v.value.value) else if v.value.value == 0 then 1 else 0))))
    ensures op !in {PLUS, MINU, NOT} && ev.result.Ok? && ev.result.value.Some? ==> r.result.Throws?
  {
    if ev.result.Throws? || ev.result.value.None? then ev
    else
      var info := ev.result.value.value;
      if op == PLUS then ev
      else if op == MINU || op == NOT then
        if !info.vtype.isConst then ev
        else if info.value.None? then Eval(ev.diags, Throws(NullPointer))
        else if op == MINU then Eval(ev.diags, Ok(Some(info.(value := Some(Neg(info.value.value))))))
        else Eval(ev.diags, Ok(Some(info.(value := Some(if info.value.value == 0 then 1 else 0)))))
      else Eval(ev.diags, Throws(Failed("unsupported unary operator")))
  }

  /**
   * The argument loop of `visitFuncCall` from argument `i` on: a `null` argument info
   * ends the call with `null`, the first mismatching argument records `'e'` and ends
   * the checks, and otherwise the call's own info `info` is the result.
   */
  function EvalArgs(scopes: seq<Scope>, cur: nat, u: UnaryExp, params: seq<ValueType>, i: nat, info: Option<ExpInfo>): Eval
    requires At(scopes, cur) && u.Call? && i <= |u.args|
    decreases u, |u.args| - i
  {
    if i == |u.args| then Eval([], Ok(info))
    else
      var a := EvalExp(scopes, cur, u.args[i]);
      if a.result.Throws? || a.result.value.None? then a
      else if i >= |params| then Eval(a.diags, Throws(IndexOutOfBounds))
      else if Mismatch(a.result.value.value.vtype, params[i]) then Eval(a.diags + [Diagnostic(u.line + 1, 'e')], Ok(info))
      else After(a.diags, EvalArgs(scopes, cur, u, params, i + 1, info))
  }

  /** `visitPrimaryExp`: a parenthesised expression, an lvalue, or a literal constant. */
  function EvalPrimary(scopes: seq<Scope>, cur: nat, p: PrimaryExp): Eval
    requires At(scopes, cur)
    decreases p
  {
    match p
    case Paren(_, e) => EvalExp(scopes, cur, e)
    case LvalExp(_, l) => EvalLval(scopes, cur, l)
    case Number(_, t) =>
      var n := ParseInt(t.text);
      if n.Throws? then Eval([], Throws(n.exception))
      else Eval([], Ok(Some(ExpInfo(ValueType(INT, true, None), Some(n.value)))))
    case Character(_, t) =>
      var c := GetASCII(t.text);
      if c.Throws? then Eval([], Throws(c.exception))
      else Eval([], Ok(Some(ExpInfo(ValueType(CHR, true, None), CharCode(c.value)))))
  }

  /** A character code as a boxed Java `int`. */
  function CharCode(c: Option<int>): (r: Option<int32>)
    ensures r.Some? <==> c.Some? && MIN <= c.value <= MAX
    ensures r.Some? ==> r.value == c.value
  {
    if c.Some? && MIN <= c.value <= MAX then Some(c.value) else None
  }

  /**
   * `visitLval`: an undefined name records `'c'` and gives `null`; a function name
   * throws. An unindexed array keeps its length; an indexed one or a scalar is a
   * scalar of the symbol's base type and const-ness, whose value is read from the
   * recorded values when the symbol (and, for an array, the index) is constant.
   */
  function EvalLval(scopes: seq<Scope>, cur: nat, l: Lval): Eval
    requires At(scopes, cur)
    decreases l
  {
    match LookupIn(scopes, cur, l.name)
    case None => Eval([Diagnostic(l.line + 1, 'c')], Ok(None))
    case Some(sym) =>
      if sym.symType.FunctionSym? then Eval([], Throws(Failed("an lvalue cannot be a function")))
      else
        var vt := sym.symType.vtype;
        var element := ExpInfo(ValueType(vt.basic, vt.isConst, None), None);
        if vt.arrayLength.None? then
          if vt.isConst then Eval([], Element(sym.constValues, Some(0), element))
          else Eval([], Ok(Some(element)))
        else if l.index.None? then Eval([], Ok(Some(ExpInfo(vt, None))))
        else
          var sub := EvalExp(scopes, cur, l.index.value);
          if sub.result.Throws? then sub
          else if !vt.isConst then Eval(sub.diags, Ok(Some(element)))
          else if sub.result.value.None? then Eval(sub.diags, Ok(None))
          else if !sub.result.value.value.vtype.isConst then Eval(sub.diags, Ok(Some(element)))
          else Eval(sub.diags, Element(sym.constValues, sub.result.value.value.value, element))
  }

  /** What analysing an expression promises: only `c d e` are recorded, and a known value belongs to a constant. */
  ghost predicate Sound(ev: Eval) {
    (forall i :: 0 <= i < |ev.diags| ==> ev.diags[i].code in "cde") &&
    (ev.result.Ok? && ev.result.value.Some? && ev.result.value.value.value.Some? ==> ev.result.value.value.vtype.isConst)
  }

  lemma {:induction false} ExpSound(scopes: seq<Scope>, cur: nat, e: BiExp)
    requires At(scopes, cur)
    ensures Sound(EvalExp(scopes, cur, e))
    decreases e
  {
    OperandSound(scopes, cur, e.left);
    if e.op.Some? && e.right.Some? {
      OperandSound(scopes, cur, e.right.value);
    }
  }

  lemma {:induction false} OperandSound(scopes: seq<Scope>, cur: nat, o: Operand)
    requires At(scopes, cur)
    ensures Sound(EvalOperand(scopes, cur, o))
    decreases o
  {
    match o
    case Sub(e) => ExpSound(scopes, cur, e);
    case Unary(u) => UnarySound(scopes, cur, u);
  }

  lemma {:induction false} UnarySound(scopes: seq<Scope>, cur: nat, u: UnaryExp)
    requires At(scopes, cur)
    ensures Sound(EvalUnary(scopes, cur, u))
    decreases u
  {
    match u
    case Primary(_, p) => PrimarySound(scopes, cur, p);
    case Call(_, name, args) =>
      var found := LookupIn(scopes, cur, name);
      if found.Some? && found.value.symType.FunctionSym? && |args| == |found.value.symType.ftype.paramNames| {
        var ft := found.value.symType.ftype;
        ArgsSound(scopes, cur, u, ft.paramTypes, 0, CallInfo(ft.returnType));
      }
    case Prefix(_, op, x) => UnarySound(scopes, cur, x);
  }

  lemma {:induction false} ArgsSound(scopes: seq<Scope>, cur: nat, u: UnaryExp, params: seq<ValueType>, i: nat, info: Option<ExpInfo>)
    requires At(scopes, cur) && u.Call? && i <= |u.args|
    requires info.Some? ==> info.value.value.None?
    ensures Sound(EvalArgs(scopes, cur, u, params, i, info))
    decreases u, |u.args| - i
  {
    if i < |u.args| {
      ExpSound(scopes, cur, u.args[i]);
      ArgsSound(scopes, cur, u, params, i + 1, info);
    }
  }

  lemma {:induction false} PrimarySound(scopes: seq<Scope>, cur: nat, p: PrimaryExp)
    requires At(scopes, cur)
    ensures Sound(EvalPrimary(scopes, cur, p))
    decreases p
  {
    match p
    case Paren(_, e) => ExpSound(scopes, cur, e);
    case LvalExp(_, l) => LvalSound(scopes, cur, l);
    case Number(_, _) =>
    case Character(_, _) =>
  }

  lemma {:induction false} LvalSound(scopes: seq<Scope>, cur: nat, l: Lval)
    requires At(scopes, cur)
    ensures Sound(EvalLval(scopes, cur, l))
    decreases l
  {
    if l.index.Some? {
      ExpSound(scopes, cur, l.index.value);
    }
  }

  /**
   * A binary node: its info is `null` exactly when an operand's is; otherwise it is
   * a scalar `int`, constant exactly when both operands are, and then its value is
   * the folded one (or the fold's exception).
   */
  lemma BinaryInfo(scopes: seq<Scope>, cur: nat, e: BiExp)
    requires At(scopes, cur) && e.op.Some? && e.right.Some?
    ensures var l := EvalOperand(scopes, cur, e.left); var r := EvalOperand(scopes, cur, e.right.value);
      var ev := EvalExp(scopes, cur, e);
      l.result.Ok? && r.result.Ok? ==>
        ev.diags == l.diags + r.diags &&
        (ev.result == Ok(None) <==> l.result.value.None? || r.result.value.None?) &&
        (l.result.value.Some? && r.result.value.Some? ==>
          var a, b := l.result.value.value, r.result.value.value;
          (!(a.vtype.isConst && b.vtype.isConst) ==> ev.result == Ok(Some(ExpInfo(ValueType(INT, false, None), None)))) &&
          (a.vtype.isConst && b.vtype.isConst ==>
            match Fold(e.op.value.kind, a.value, b.value)
            case Ok(v) => ev.result == Ok(Some(ExpInfo(ValueType(INT, true, None), v)))
            case Throws(x) => ev.result == Throws(x)))
  {
  }

  /**
   * A call: an undefined name records one `'c'` and gives `null` without looking at
   * the arguments; a value symbol fails the cast; a wrong argument count records one
   * `'d'` and gives the return type's info without analysing any argument; otherwise
   * the arguments are checked in order.
   */
  lemma CallChecks(scopes: seq<Scope>, cur: nat, u: UnaryExp)
    requires At(scopes, cur) && u.Call?
    ensures var found := LookupIn(scopes, cur, u.name); var ev := EvalUnary(scopes, cur, u);
      (found.None? ==> ev == Eval([Diagnostic(u.line + 1, 'c')], Ok(None))) &&
      (found.Some? && found.value.symType.ValueSym? ==> ev == Eval([], Throws(ClassCast))) &&
      (found.Some? && found.value.symType.FunctionSym? ==>
        var ft := found.value.symType.ftype;
        (|u.args| != |ft.paramNames| ==> ev == Eval([Diagnostic(u.line + 1, 'd')], Ok(CallInfo(ft.returnType)))) &&
        (|u.args| == |ft.paramNames| ==> ev == EvalArgs(scopes, cur, u, ft.paramTypes, 0, CallInfo(ft.returnType))))
  {
  }

  /** The diagnostics that arguments `i` up to `k` of a call record themselves, in order. */
  function ArgDiags(scopes: seq<Scope>, cur: nat, args: seq<BiExp>, i: nat, k: nat): seq<Diagnostic>
    requires At(scopes, cur) && i <= k <= |args|
    decreases k - i
  {
    if i == k then [] else EvalExp(scopes, cur, args[i]).diags + ArgDiags(scopes, cur, args, i + 1, k)
  }

  /** Argument `j` is analysed without failure to an info that fits parameter `j`. */
  predicate Fits(scopes: seq<Scope>, cur: nat, args: seq<BiExp>, params: seq<ValueType>, j: nat)
    requires At(scopes, cur) && j < |args|
  {
    var a := EvalExp(scopes, cur, args[j]);
    j < |params| && a.result.Ok? && a.result.value.Some? && !Mismatch(a.result.value.value.vtype, params[j])
  }

  /**
   * When arguments `i` up to `k` fit and argument `k` is a value that does not fit
   * its parameter, the checks record exactly one `'e'` after those arguments' own
   * diagnostics and stop there: later arguments are not analysed.
   */
  lemma {:induction false} ArgsStopAtFirstMismatch(scopes: seq<Scope>, cur: nat, u: UnaryExp, params: seq<ValueType>,
                                                   i: nat, k: nat, info: Option<ExpInfo>)
    requires At(scopes, cur) && u.Call? && i <= k < |u.args| && k < |params|
    requires forall j :: i <= j < k ==> Fits(scopes, cur, u.args, params, j)
    requires var a := EvalExp(scopes, cur, u.args[k]);
      a.result.Ok? && a.result.value.Some? && Mismatch(a.result.value.value.vtype, params[k])
    ensures EvalArgs(scopes, cur, u, params, i, info) ==
      Eval(ArgDiags(scopes, cur, u.args, i, k + 1) + [Diagnostic(u.line + 1, 'e')], Ok(info))
    decreases k - i
  {
    var a := EvalExp(scopes, cur, u.args[i]);
    if i == k {
      assert ArgDiags(scopes, cur, u.args, i, k + 1) == a.diags + [];
    } else {
      assert Fits(scopes, cur, u.args, params, i);
      ArgsStopAtFirstMismatch(scopes, cur, u, params, i + 1, k, info);
      AppendAssoc(a.diags, ArgDiags(scopes, cur, u.args, i + 1, k + 1), [Diagnostic(u.line + 1, 'e')]);
    }
  }

  /** When every argument from `i` on fits, no `'e'` is recorded and the call's info is the result. */
  lemma {:induction false} ArgsAllFit(scopes: seq<Scope>, cur: nat, u: UnaryExp, params: seq<ValueType>,
                                      i: nat, info: Option<ExpInfo>)
    requires At(scopes, cur) && u.Call? && i <= |u.args|
    requires forall j :: i <= j < |u.args| ==> Fits(scopes, cur, u.args, params, j)
    ensures EvalArgs(scopes, cur, u, params, i, info) == Eval(ArgDiags(scopes, cur, u.args, i, |u.args|), Ok(info))
    decreases |u.args| - i
  {
    if i < |u.args| {
      assert Fits(scopes, cur, u.args, params, i);
      ArgsAllFit(scopes, cur, u, params, i + 1, info);
    }
  }

  /** An argument that analyses to `null` ends the call with `null`, after its own diagnostics. */
  lemma {:induction false} ArgsNullArgument(scopes: seq<Scope>, cur: nat, u: UnaryExp, params: seq<ValueType>,
                                            i: nat, k: nat, info: Option<ExpInfo>)
    requires At(scopes, cur) && u.Call? && i <= k < |u.args|
    requires forall j :: i <= j < k ==> Fits(scopes, cur, u.args, params, j)
    requires EvalExp(scopes, cur, u.args[k]).result == Ok(None)
    ensures EvalArgs(scopes, cur, u, params, i, info) == Eval(ArgDiags(scopes, cur, u.args, i, k + 1), Ok(None))
    decreases k - i
  {
    var a := EvalExp(scopes, cur, u.args[i]);
    if i == k {
      assert ArgDiags(scopes, cur, u.args, i, k + 1) == a.diags + [];
    } else {
      assert Fits(scopes, cur, u.args, params, i);
      ArgsNullArgument(scopes, cur, u, params, i + 1, k, info);
    }
  }

  /**
   * An lvalue whose name is not bound records one `'c'` and gives `null`; a name bound
   * to a function throws.
   */
  lemma LvalChecks(scopes: seq<Scope>, cur: nat, l: Lval)
    requires At(scopes, cur)
    ensures var found := LookupIn(scopes, cur, l.name); var ev := EvalLval(scopes, cur, l);
      (found.None? ==> ev == Eval([Diagnostic(l.line + 1, 'c')], Ok(None))) &&
      (found.Some? && found.value.symType.FunctionSym? ==> ev.diags == [] && ev.result.Throws?)
  {
  }

  /** `n` zeros; none when `n` is not positive. */
  function Zeros(n: int): (r: seq<Option<int32>>)
    ensures |r| == if n > 0 then n else 0
    ensures forall i :: 0 <= i < |r| ==> r[i] == Some(0)
    decreases n
  {
    if n <= 0 then [] else Zeros(n - 1) + [Some(0)]
  }

  /** The codes of the characters of `s`. */
  function Codes(s: string): (r: seq<Option<int32>>)
    ensures |r| == |s| && forall i :: 0 <= i < |s| ==> r[i] == Some(s[i] as int)
  {
    seq(|s|, i requires 0 <= i < |s| => Some((s[i] as int) as int32))
  }

  /**
   * `initConst` with a string: the codes of the characters between the quotes of the
   * token text, then zeros from index `|text| - 2` up to `length`.
   */
  function StringValues(text: string, length: int): (r: seq<Option<int32>>)
    requires |text| >= 2
    ensures |r| == if length > |text| - 2 then length else |text| - 2
    ensures forall i :: 0 <= i < |text| - 2 ==> r[i] == Some(text[i + 1] as int)
    ensures forall i :: |text| - 2 <= i < |r| ==> r[i] == Some(0)
  {
    Codes(text[1..|text| - 1]) + Zeros(length - (|text| - 2))
  }

  /** The same for a text shorter than a pair of quotes: only the zeros. */
  function ShortStringValues(text: string, length: int): (r: seq<Option<int32>>)
    requires |text| < 2
    ensures |r| == if length + 2 - |text| > 0 then length + 2 - |text| else 0
  {
    Zeros(length - (|text| - 2))
  }

  /** `char a[5] = "hi";` records the codes of `h` and `i`, then three zeros. */
  lemma StringInitExample()
    ensures StringValues("\"hi\"", 5) == [Some(104), Some(105), Some(0), Some(0), Some(0)]
  {
    var r := StringValues("\"hi\"", 5);
    assert |r| == 5;
    assert r[0] == Some('h' as int) && r[1] == Some('i' as int);
  }

  /** One list entry: a `char` constant narrowed to its low 8 bits, sign-extended; `null` stays `null`. */
  function Entry(basic: BasicType, v: Option<int32>): (r: Option<int32>)
    ensures r.None? <==> v.None?
    ensures basic == INT ==> r == v
    ensures basic == CHR && v.Some? ==> -128 <= r.value <= 127 && (r.value - v.value) % 256 == 0
  {
    if basic == CHR && v.Some? then Some(NarrowToChar(v.value)) else v
  }

  /** What expanding an initialiser does: diagnostics, and the value list or the exception. */
  datatype Init = Init(diags: seq<Diagnostic>, result: Result<seq<Option<int32>>>)

  /**
   * The expression-list loop of `initConst` from expression `i` on, with `acc` the
   * entries so far: an exception ends it, a `null` info ends it keeping the entries
   * so far (without padding), and after the last expression zeros pad the list from
   * index `|exps|` up to `length`.
   */
  function ListValues(scopes: seq<Scope>, cur: nat, exps: seq<BiExp>, basic: BasicType, length: int,
                      i: nat, acc: seq<Option<int32>>): Init
    requires At(scopes, cur) && i <= |exps|
    decreases |exps| - i
  {
    if i == |exps| then Init([], Ok(acc + Zeros(length - |exps|)))
    else
      var ev := EvalExp(scopes, cur, exps[i]);
      if ev.result.Throws? then Init(ev.diags, Throws(ev.result.exception))
      else if ev.result.value.None? then Init(ev.diags, Ok(acc))
      else
        var rest := ListValues(scopes, cur, exps, basic, length, i + 1, acc + [Entry(basic, ev.result.value.value.value)]);
        Init(ev.diags + rest.diags, rest.result)
  }

  /** Every expression of `exps` from `i` on analyses to a non-null info without throwing. */
  ghost predicate AllKnown(scopes: seq<Scope>, cur: nat, exps: seq<BiExp>, i: nat)
    requires At(scopes, cur)
  {
    forall j :: i <= j < |exps| ==> EvalExp(scopes, cur, exps[j]).result.Ok? && EvalExp(scopes, cur, exps[j]).result.value.Some?
  }

  /**
   * When no expression fails, the list has one entry per expression (the entry of its
   * value, so `null` for a non-constant) followed by the zero padding.
   */
  lemma {:induction false} ListValuesEntries(scopes: seq<Scope>, cur: nat, exps: seq<BiExp>, basic: BasicType, length: int,
                                            i: nat, acc: seq<Option<int32>>)
    requires At(scopes, cur) && i <= |exps| && AllKnown(scopes, cur, exps, i)
    ensures var r := ListValues(scopes, cur, exps, basic, length, i, acc).result;
      r.Ok? && |r.value| == |exps| - i + |acc| + |Zeros(length - |exps|)| &&
      r.value[..|acc|] == acc &&
      (forall j :: i <= j < |exps| ==>
         r.value[|acc| + j - i] == Entry(basic, EvalExp(scopes, cur, exps[j]).result.value.value.value)) &&
      r.value[|acc| + |exps| - i..] == Zeros(length - |exps|)
    decreases |exps| - i
  {
    if i < |exps| {
      var ev := EvalExp(scopes, cur, exps[i]);
      var acc' := acc + [Entry(basic, ev.result.value.value.value)];
      ListValuesEntries(scopes, cur, exps, basic, length, i + 1, acc');
      var r := ListValues(scopes, cur, exps, basic, length, i + 1, acc').result;
      assert ListValues(scopes, cur, exps, basic, length, i, acc).result == r;
      assert r.value[..|acc|] == r.value[..|acc'|][..|acc|];
    }
  }

  /** `initConst(initVal, symbol)` for a symbol of type `vt` (the length of a scalar counts as 1). */
  function ConstInit(scopes: seq<Scope>, cur: nat, init: Option<InitVal>, vt: ValueType): Init
    requires At(scopes, cur)
  {
    var length := vt.arrayLength.GetOr(1);
    if init.None? then Init([], Throws(NullPointer))
    else if init.value.stringConst.Some? then
      var text := init.value.stringConst.value;
      Init([], Ok(if |text| >= 2 then StringValues(text, length) else ShortStringValues(text, length)))
    else ListValues(scopes, cur, init.value.exps, vt.basic, length, 0, [])
  }

  /**
   * The values a definition records: a constant, or any definition with an
   * initialiser, expands it; an uninitialised variable gets one zero per element, or
   * a single zero for a scalar.
   */
  function DefValues(scopes: seq<Scope>, cur: nat, def: VarConstDef, vt: ValueType): (r: Init)
    requires At(scopes, cur)
    ensures !vt.isConst && def.init.None? ==>
      r == Init([], Ok(if vt.arrayLength.Some? then Zeros(vt.arrayLength.value) else [Some(0)]))
  {
    if vt.isConst || def.init.Some? then ConstInit(scopes, cur, def.init, vt)
    else Init([], Ok(if vt.arrayLength.Some? then Zeros(vt.arrayLength.value) else [Some(0)]))
  }

  function BasicOf(b: Btype): BasicType {
    if b == IntType then INT else CHR
  }

  /** What preparing one definition does: diagnostics, and the symbol to insert or the exception. */
  datatype Declared = Declared(diags: seq<Diagnostic>, result: Result<Symbol>)

  /**
   * The symbol `visitDecl` builds for `def` in the scope `cur`: the array length is
   * the dimension's value (none when there is no dimension or its info is `null`),
   * then the values; the dimension is analysed before the initialiser.
   */
  function DefSymbol(scopes: seq<Scope>, cur: nat, btype: Btype, def: VarConstDef): (d: Declared)
    requires At(scopes, cur)
    ensures d.result.Ok? ==>
      var s := d.result.value;
      s.name == def.name && s.scopeNum == cur && s.defLine == def.line && s.irName.None? &&
      s.symType.ValueSym? && s.symType.vtype.basic == BasicOf(btype) && s.symType.vtype.isConst == def.isConst
  {
    var dim := if def.dim.None? then Eval([], Ok(None)) else EvalExp(scopes, cur, def.dim.value);
    if dim.result.Throws? then Declared(dim.diags, Throws(dim.result.exception))
    else
      var len: Option<int> := if dim.result.value.Some? then dim.result.value.value.value else None;
      var vt := ValueType(BasicOf(btype), def.isConst, len);
      var init := DefValues(scopes, cur, def, vt);
      if init.result.Throws? then Declared(dim.diags + init.diags, Throws(init.result.exception))
      else Declared(dim.diags + init.diags, Ok(Symbol(def.name, ValueSym(vt), cur, def.line, init.result.value, None)))
  }

  /** The scope list after `insertSymbol(s)` in scope `cur`: unchanged when the name is taken there. */
  function Inserted(scopes: seq<Scope>, cur: nat, s: Symbol): (r: seq<Scope>)
    requires At(scopes, cur)
    ensures At(r, cur) && |r| == |scopes|
  {
    var sc := scopes[cur - 1];
    if s.name in sc.symbols then scopes
    else scopes[cur - 1 := sc.(symbols := sc.symbols[s.name := s], order := sc.order + [s.name])]
  }

  /** What a declaration leaves: the diagnostics it records, its outcome, and the scope list. */
  datatype Declaration = Declaration(diags: seq<Diagnostic>, result: Result<()>, scopes: seq<Scope>)

  /**
   * `visitDecl` from definition `i` on: each symbol is built in the scopes as the
   * earlier definitions left them and then inserted, with `'b'` at the definition's
   * line + 1 when its name is already bound in scope `cur`; the first exception ends
   * the declaration.
   */
  function DeclEffect(scopes: seq<Scope>, cur: nat, d: Decl, i: nat): (e: Declaration)
    requires At(scopes, cur) && i <= |d.defs|
    ensures At(e.scopes, cur) && |e.scopes| == |scopes|
    decreases |d.defs| - i
  {
    if i == |d.defs| then Declaration([], Ok(()), scopes)
    else
      var built := DefSymbol(scopes, cur, d.btype, d.defs[i]);
      if built.result.Throws? then Declaration(built.diags, Throws(built.result.exception), scopes)
      else
        var s := built.result.value;
        var clash := if s.name in scopes[cur - 1].symbols then [Diagnostic(d.defs[i].line + 1, 'b')] else [];
        var rest := DeclEffect(Inserted(scopes, cur, s), cur, d, i + 1);
        Declaration(built.diags + clash + rest.diags, rest.result, rest.scopes)
  }

  /** Every name that definitions `i` and later of `d` define is bound in `sc`. */
  ghost predicate DefinesFrom(d: Decl, i: nat, sc: Scope) {
    forall k :: i <= k < |d.defs| ==> d.defs[k].name in sc.symbols
  }

  /** Every name `d` defines is bound in `sc`. */
  ghost predicate DefinesAll(d: Decl, sc: Scope) {
    DefinesFrom(d, 0, sc)
  }

  /** Inserting extends the scope list, and afterwards the symbol's name is bound in scope `cur`. */
  lemma InsertedExtends(scopes: seq<Scope>, cur: nat, s: Symbol)
    requires At(scopes, cur)
    ensures Extends(scopes, Inserted(scopes, cur, s), cur)
    ensures s.name in Inserted(scopes, cur, s)[cur - 1].symbols
  {
    BindExtends(scopes, Inserted(scopes, cur, s), cur, s.name, s);
  }

  /**
   * A declaration only extends the scope list, and when it succeeds every name it
   * defines is bound in scope `cur`.
   */
  lemma {:induction false} DeclEffectExtends(scopes: seq<Scope>, cur: nat, d: Decl, i: nat)
    requires At(scopes, cur) && i <= |d.defs|
    ensures var e := DeclEffect(scopes, cur, d, i);
      Extends(scopes, e.scopes, cur) && (e.result.Ok? ==> DefinesFrom(d, i, e.scopes[cur - 1]))
    decreases |d.defs| - i
  {
    if i < |d.defs| {
      var built := DefSymbol(scopes, cur, d.btype, d.defs[i]);
      if built.result.Ok? {
        var s := built.result.value;
        var mid := Inserted(scopes, cur, s);
        var e := DeclEffect(mid, cur, d, i + 1);
        InsertedExtends(scopes, cur, s);
        DeclEffectExtends(mid, cur, d, i + 1);
        ExtendsTrans(scopes, mid, e.scopes, cur);
      }
    }
  }

  /** Names bound in a scope stay bound when the scope keeps its bindings. */
  lemma DefinesKept(d: Decl, a: Scope, b: Scope)
    requires DefinesAll(d, a) && KeepsBindings(a, b)
    ensures DefinesAll(d, b)
  {
    forall k | 0 <= k < |d.defs| ensures d.defs[k].name in b.symbols {
      assert d.defs[k].name in a.symbols;
    }
  }

  /**
   * A declaration of one definition: the built symbol is bound when its name is free
   * in scope `cur`, and otherwise the scopes stay as they were and one `'b'` at the
   * definition's line + 1 follows the definition's own diagnostics.
   */
  lemma SingleDeclaration(scopes: seq<Scope>, cur: nat, d: Decl)
    requires At(scopes, cur) && |d.defs| == 1
    ensures var built := DefSymbol(scopes, cur, d.btype, d.defs[0]); var e := DeclEffect(scopes, cur, d, 0);
      built.result.Ok? ==>
        var s := built.result.value;
        e.result == Ok(()) &&
        (s.name in scopes[cur - 1].symbols ==> e.scopes == scopes && e.diags == built.diags + [Diagnostic(d.defs[0].line + 1, 'b')]) &&
        (s.name !in scopes[cur - 1].symbols ==>
          e.diags == built.diags &&
          e.scopes[cur - 1].symbols == scopes[cur - 1].symbols[d.defs[0].name := s] &&
          e.scopes[cur - 1].order == scopes[cur - 1].order + [d.defs[0].name])
  {
    var built := DefSymbol(scopes, cur, d.btype, d.defs[0]);
    if built.result.Ok? {
      var s := built.result.value;
      var clash := if s.name in scopes[cur - 1].symbols then [Diagnostic(d.defs[0].line + 1, 'b')] else [];
      assert DeclEffect(scopes, cur, d, 0).diags == built.diags + clash + [];
    }
  }

  /** The multiplicative-level node the parser builds around a lone integer literal. */
  function Literal(text: string, line: int): BiExp {
    BiExp(line, Unary(Primary(line, Number(line, Token(text, INTCON, line)))), None, None)
  }

  /** The additive chain the parser builds for `3+4` on line 0. */
  function ThreePlusFour(): BiExp {
    BiExp(0, Sub(BiExp(0, Sub(Literal("3", 0)), None, None)), Some(Token("+", PLUS, 0)), Some(Sub(Literal("4", 0))))
  }

  /** `const int N = 3+4;` gives `N` the recorded values `[7]`, whatever the table holds. */
  lemma ConstDefExample(scopes: seq<Scope>, cur: nat)
    requires At(scopes, cur)
    ensures DefSymbol(scopes, cur, IntType, VarConstDef(0, true, "N", None, Some(InitVal(0, true, None, [ThreePlusFour()]))))
      == Declared([], Ok(Symbol("N", ValueSym(ValueType(INT, true, None)), cur, 0, [Some(7)], None)))
  {
    var vt := ValueType(INT, true, None);
    var def := VarConstDef(0, true, "N", None, Some(InitVal(0, true, None, [ThreePlusFour()])));
    ThreePlusFourIsSeven(scopes, cur);
    SingletonList(scopes, cur, ThreePlusFour(), 7);
    assert ConstInit(scopes, cur, def.init, vt) == Init([], Ok([Some(7)]));
    assert DefValues(scopes, cur, def, vt) == Init([], Ok([Some(7)]));
  }

  /** A list initialiser of an `int` scalar whose one expression folds to `v` gives `[v]`. */
  lemma SingletonList(scopes: seq<Scope>, cur: nat, e: BiExp, v: int32)
    requires At(scopes, cur)
    requires EvalExp(scopes, cur, e) == Eval([], Ok(Some(ExpInfo(ValueType(INT, true, None), Some(v)))))
    ensures var r := ListValues(scopes, cur, [e], INT, 1, 0, []); r.diags == [] && r.result.Ok? && r.result.value == [Some(v)]
  {
  }

  /** A literal analyses to a constant `int` with the literal's value. */
  lemma LiteralValue(scopes: seq<Scope>, cur: nat, text: string, v: int32)
    requires At(scopes, cur) && ParseInt(text) == Ok(v)
    ensures EvalExp(scopes, cur, Literal(text, 0)) == Eval([], Ok(Some(ExpInfo(ValueType(INT, true, None), Some(v)))))
  {
    var p := Number(0, Token(text, INTCON, 0));
    assert EvalPrimary(scopes, cur, p) == Eval([], Ok(Some(ExpInfo(ValueType(INT, true, None), Some(v)))));
    assert EvalUnary(scopes, cur, Primary(0, p)) == EvalPrimary(scopes, cur, p);
    assert EvalOperand(scopes, cur, Unary(Primary(0, p))) == EvalUnary(scopes, cur, Primary(0, p));
  }

  /** `3+4` folds to the constant 7. */
  lemma ThreePlusFourIsSeven(scopes: seq<Scope>, cur: nat)
    requires At(scopes, cur)
    ensures EvalExp(scopes, cur, ThreePlusFour()) == Eval([], Ok(Some(ExpInfo(ValueType(INT, true, None), Some(7)))))
  {
    assert ParseInt("3") == Ok(3) by { assert AllDigits("3") && DigitsValue("3") == 3; }
    assert ParseInt("4") == Ok(4) by { assert AllDigits("4") && DigitsValue("4") == 4; }
    LiteralValue(scopes, cur, "3", 3);
    LiteralValue(scopes, cur, "4", 4);
    assert Fold(PLUS, Some(3), Some(4)) == Ok(Some(7));
  }

  /** `char a[5] = "hi";` gives `a` the type of a `char` array of length 5 and the values `[104, 105, 0, 0, 0]`. */
  lemma StringDefExample(scopes: seq<Scope>, cur: nat)
    requires At(scopes, cur)
    ensures DefSymbol(scopes, cur, CharType, VarConstDef(0, false, "a", Some(BiExp(0, Sub(Literal("5", 0)), None, None)),
                                                          Some(InitVal(0, false, Some("\"hi\""), []))))
      == Declared([], Ok(Symbol("a", ValueSym(ValueType(CHR, false, Some(5))), cur, 0,
                                [Some(104), Some(105), Some(0), Some(0), Some(0)], None)))
  {
    assert ParseInt("5") == Ok(5) by { assert AllDigits("5") && DigitsValue("5") == 5; }
    StringInitExample();
  }

  /** `visitDecl`'s zero fill of an uninitialised array: `n` zeros. */
  method ZeroFill(n: int) returns (values: seq<Option<int32>>)
    ensures values == Zeros(n)
  {
    values := [];
    var i := 0;
    while i < n
      invariant 0 <= i && (i <= n || i == 0)
      invariant values == Zeros(i)
    {
      values := values + [Some(0)];
      i := i + 1;
    }
    assert n <= 0 ==> Zeros(n) == [];
  }

  /** The two loops of `initConst` for a string initialiser. */
  method StringInit(text: string, length: int) returns (values: seq<Option<int32>>)
    ensures |text| >= 2 ==> values == StringValues(text, length)
    ensures |text| < 2 ==> values == ShortStringValues(text, length)
  {
    values := [];
    var i := 1;
    while i < |text| - 1
      invariant 1 <= i && (|text| >= 2 ==> i <= |text| - 1)
      invariant |text| >= 2 ==> values == Codes(text[1..i])
      invariant |text| < 2 ==> values == []
    {
      assert Codes(text[1..i + 1]) == Codes(text[1..i]) + [Some(text[i] as int)];
      values := values + [Some((text[i] as int) as int32)];
      i := i + 1;
    }
    ghost var codes := values;
    var j := |text| - 2;
    while j < length
      invariant |text| - 2 <= j && (j <= length || j == |text| - 2)
      invariant values == codes + Zeros(j - (|text| - 2))
    {
      values := values + [Some(0)];
      j := j + 1;
    }
    assert length < |text| - 2 ==> Zeros(length - (|text| - 2)) == [];
    assert |text| >= 2 ==> text[1..|text| - 1] == text[1..i];
  }

  /** The number of `%c` and `%d` pairs in a format token's text (`printf`'s placeholder count). */
  function Placeholders(s: string): nat
    decreases |s|
  {
    if |s| < 2 then 0
    else (if s[0] == '%' && (s[1] == 'c' || s[1] == 'd') then 1 else 0) + Placeholders(s[1..])
  }

  /** Placeholders never overlap: each takes two characters of its own. */
  lemma {:induction false} PlaceholdersFit(s: string)
    ensures 2 * Placeholders(s) <= |s|
    decreases |s|
  {
    if |s| >= 2 {
      PlaceholdersFit(s[1..]);
      if s[0] == '%' && (s[1] == 'c' || s[1] == 'd') {
        PlaceholdersFit(s[2..]);
        assert s[1..][1..] == s[2..];
        assert Placeholders(s[1..]) == Placeholders(s[2..]);
      }
    }
  }

  /** The counting loop of the `printf` case. */
  method CountPlaceholders(s: string) returns (n: nat)
    ensures n == Placeholders(s)
  {
    n := 0;
    var i := 0;
    while i < |s| - 1
      invariant 0 <= i && (i <= |s| - 1 || i == 0)
      invariant n + Placeholders(s[i..]) == Placeholders(s)
    {
      assert s[i..][1..] == s[i + 1..];
      if s[i] == '%' {
        if s[i + 1] == 'c' || s[i + 1] == 'd' {
          n := n + 1;
        }
      }
      i := i + 1;
    }
  }

  /** What analysing a list of expressions in turn does (the `printf` arguments). */
  datatype Done = Done(diags: seq<Diagnostic>, result: Result<()>)

  function EvalAll(scopes: seq<Scope>, cur: nat, exps: seq<BiExp>, i: nat): Done
    requires At(scopes, cur) && i <= |exps|
    decreases |exps| - i
  {
    if i == |exps| then Done([], Ok(()))
    else
      var ev := EvalExp(scopes, cur, exps[i]);
      if ev.result.Throws? then Done(ev.diags, Throws(ev.result.exception))
      else
        var rest := EvalAll(scopes, cur, exps, i + 1);
        Done(ev.diags + rest.diags, rest.result)
  }

  /** `'h'` at the lvalue's line + 1 when the lvalue analysed to a constant. */
  function ConstTarget(lv: Eval, line: int): seq<Diagnostic> {
    if lv.result.Ok? && lv.result.value.Some? && lv.result.value.value.vtype.isConst then [Diagnostic(line + 1, 'h')] else []
  }

  /** The return type a function's type token stands for. */
  function ReturnOf(t: Token): (r: ReturnType)
    ensures r == VoidReturn <==> t.kind == VOIDTK
    ensures r == IntReturn <==> t.kind == INTTK
  {
    if t.kind == VOIDTK then VoidReturn else if t.kind == INTTK then IntReturn else CharReturn
  }

  /** A parameter's type: not const, length 0 for an array parameter, a scalar otherwise. */
  function ParamType(p: FuncFParam): (v: ValueType)
    ensures v.basic == BasicOf(p.btype) && !v.isConst && (v.IsArray() <==> p.isArray)
  {
    ValueType(BasicOf(p.btype), false, if p.isArray then Some(0) else None)
  }

  function ParamNames(ps: seq<FuncFParam>): (r: seq<string>)
    ensures |r| == |ps| && forall k :: 0 <= k < |ps| ==> r[k] == ps[k].name
  {
    seq(|ps|, k requires 0 <= k < |ps| => ps[k].name)
  }

  function ParamTypes(ps: seq<FuncFParam>): (r: seq<ValueType>)
    ensures |r| == |ps| && forall k :: 0 <= k < |ps| ==> r[k] == ParamType(ps[k])
  {
    seq(|ps|, k requires 0 <= k < |ps| => ParamType(ps[k]))
  }

  /** The type `visitFuncDef` gives a function: its return type and every parameter, in order. */
  function FuncTypeOf(f: FuncDef): FunctionType {
    var ps := f.params.GetOr([]);
    FunctionType(ReturnOf(f.funcType), ParamNames(ps), ParamTypes(ps))
  }

  function FunctionSymbol(f: FuncDef, scope: nat): Symbol {
    Symbol(f.name, FunctionSym(FuncTypeOf(f)), scope, f.line, [], None)
  }

  function ParamSymbol(p: FuncFParam, scope: nat): Symbol {
    Symbol(p.name, ValueSym(ParamType(p)), scope, p.line, [], None)
  }

  /** The names of a parameter list. */
  function NameSet(ps: seq<FuncFParam>): set<string>
    decreases |ps|
  {
    if ps == [] then {} else NameSet(ps[..|ps| - 1]) + {ps[|ps| - 1].name}
  }

  /**
   * The `'b'` diagnostics of `visitFuncFParams` when the names in `bound` are already
   * bound: one for each parameter whose name is bound or used by an earlier parameter.
   */
  function ParamDiags(bound: set<string>, ps: seq<FuncFParam>): seq<Diagnostic>
    decreases |ps|
  {
    if ps == [] then []
    else
      ParamDiags(bound, ps[..|ps| - 1]) + ClashDiag(bound + NameSet(ps[..|ps| - 1]), ps[|ps| - 1])
  }

  /** The `'b'` a parameter records when its name is among `taken`. */
  function ClashDiag(taken: set<string>, p: FuncFParam): seq<Diagnostic> {
    if p.name in taken then [Diagnostic(p.line + 1, 'b')] else []
  }

  /** A scope's bindings after one parameter: its symbol is added unless the name is taken. */
  function BindOne(m: map<string, Symbol>, p: FuncFParam, scope: nat): map<string, Symbol> {
    if p.name in m then m else m[p.name := ParamSymbol(p, scope)]
  }

  /**
   * The bindings of scope `scope` after `visitFuncFParams` starting from `m`: each
   * parameter whose name is still free is bound to its parameter symbol.
   */
  function BindParams(m: map<string, Symbol>, ps: seq<FuncFParam>, scope: nat): map<string, Symbol>
    decreases |ps|
  {
    if ps == [] then m
    else
      BindOne(BindParams(m, ps[..|ps| - 1], scope), ps[|ps| - 1], scope)
  }

  /** Binding the parameters adds exactly their names to the scope. */
  lemma {:induction false} BindParamsKeys(m: map<string, Symbol>, ps: seq<FuncFParam>, scope: nat)
    ensures BindParams(m, ps, scope).Keys == m.Keys + NameSet(ps)
    decreases |ps|
  {
    if ps != [] {
      BindParamsKeys(m, ps[..|ps| - 1], scope);
    }
  }

  /** Earlier bindings survive, and every added binding is a parameter symbol of that scope. */
  lemma {:induction false} BindParamsKeeps(m: map<string, Symbol>, ps: seq<FuncFParam>, scope: nat)
    ensures forall n :: n in m ==> n in BindParams(m, ps, scope) && BindParams(m, ps, scope)[n] == m[n]
    ensures forall n :: n in BindParams(m, ps, scope) && n !in m ==> ParamBinding(BindParams(m, ps, scope)[n], scope)
    decreases |ps|
  {
    if ps != [] {
      BindParamsKeeps(m, ps[..|ps| - 1], scope);
    }
  }

  /** A parameter whose name is neither bound before nor used by an earlier parameter gets its own symbol. */
  lemma {:induction false} BindParamsFirst(m: map<string, Symbol>, ps: seq<FuncFParam>, scope: nat, k: nat)
    requires k < |ps| && ps[k].name !in m && ps[k].name !in NameSet(ps[..k])
    ensures ps[k].name in BindParams(m, ps, scope)
    ensures BindParams(m, ps, scope)[ps[k].name] == ParamSymbol(ps[k], scope)
    decreases |ps|
  {
    var init := ps[..|ps| - 1];
    if k == |ps| - 1 {
      assert init == ps[..k];
      BindParamsKeys(m, init, scope);
    } else {
      assert init[..k] == ps[..k];
      BindParamsFirst(m, init, scope, k);
    }
  }

  /** One more parameter: the names grow by its name, and the diagnostics and bindings by its own. */
  lemma ParamStep(m: map<string, Symbol>, ps: seq<FuncFParam>, i: nat, scope: nat)
    requires i < |ps|
    ensures NameSet(ps[..i + 1]) == NameSet(ps[..i]) + {ps[i].name}
    ensures ParamDiags(m.Keys, ps[..i + 1]) == ParamDiags(m.Keys, ps[..i]) + ClashDiag(BindParams(m, ps[..i], scope).Keys, ps[i])
    ensures BindParams(m, ps[..i + 1], scope) == BindOne(BindParams(m, ps[..i], scope), ps[i], scope)
  {
    assert ps[..i + 1][..i] == ps[..i];
    BindParamsKeys(m, ps[..i], scope);
  }

  /** Every parameter either binds a new name or records one `'b'`. */
  lemma {:induction false} ParamDiagsCount(bound: set<string>, ps: seq<FuncFParam>)
    ensures |ParamDiags(bound, ps)| + |NameSet(ps) - bound| == |ps|
    decreases |ps|
  {
    if ps != [] {
      var init := ps[..|ps| - 1];
      var p := ps[|ps| - 1];
      ParamDiagsCount(bound, init);
      if p.name in bound + NameSet(init) {
        assert |ClashDiag(bound + NameSet(init), p)| == 1;
        assert NameSet(ps) - bound == NameSet(init) - bound;
      } else {
        assert |ClashDiag(bound + NameSet(init), p)| == 0;
        assert NameSet(ps) - bound == (NameSet(init) - bound) + {p.name};
      }
    }
  }

  /** The diagnostics of `visitFuncFParams` are all redefinitions (`'b'`). */
  lemma {:induction false} ParamDiagsCodes(bound: set<string>, ps: seq<FuncFParam>)
    ensures forall k :: 0 <= k < |ParamDiags(bound, ps)| ==> ParamDiags(bound, ps)[k].code == 'b'
    decreases |ps|
  {
    if ps != [] {
      var init := ps[..|ps| - 1];
      ParamDiagsCodes(bound, init);
      var d := ClashDiag(bound + NameSet(init), ps[|ps| - 1]);
      assert forall k :: 0 <= k < |d| ==> d[k].code == 'b';
      assert ParamDiags(bound, ps) == ParamDiags(bound, init) + d;
    }
  }

  /** The last item of a block is not a `return` statement (or the block is empty). */
  predicate LacksFinalReturn(b: Block)
  {
    |b.items| == 0 || b.items[|b.items| - 1].DeclItem? || b.items[|b.items| - 1].stmt.CaseNum() != 7
  }

  lemma FinalReturnMeansReturn(b: Block)
    ensures !LacksFinalReturn(b) <==> |b.items| > 0 && b.items[|b.items| - 1].StmtItem? && b.items[|b.items| - 1].stmt.Return?
  {
  }

  /** One scope keeps every binding it had. */
  ghost predicate KeepsBindings(a: Scope, b: Scope) {
    forall n :: n in a.symbols ==> n in b.symbols && b.symbols[n] == a.symbols[n]
  }

  /**
   * The scope list after a step of the walk that started in scope `cur`: no scope is
   * removed and no parent link changes; among the old scopes only `cur` gains
   * bindings, and it keeps the ones it had.
   */
  ghost predicate Extends(a: seq<Scope>, b: seq<Scope>, cur: nat) {
    |a| <= |b| &&
    (forall i :: 0 <= i < |a| ==> b[i].parent == a[i].parent && (i != cur - 1 ==> b[i].symbols == a[i].symbols)) &&
    (1 <= cur <= |a| ==> KeepsBindings(a[cur - 1], b[cur - 1]))
  }

  /** The names the walk has declared in a scope stay declared once one more is. */
  lemma NamesStayBound(fs: seq<FuncDef>, i: nat, a: Scope, b: Scope)
    requires i < |fs| && (forall k :: 0 <= k < i ==> fs[k].name in a.symbols)
    requires KeepsBindings(a, b) && fs[i].name in b.symbols
    ensures forall k :: 0 <= k < i + 1 ==> fs[k].name in b.symbols
  {
  }

  lemma ExtendsTrans(a: seq<Scope>, b: seq<Scope>, c: seq<Scope>, cur: nat)
    requires Extends(a, b, cur) && Extends(b, c, cur)
    ensures Extends(a, c, cur)
  {
  }

  /** Binding a new name in scope `cur` (or leaving it as it is) extends the scope list. */
  lemma BindExtends(a: seq<Scope>, b: seq<Scope>, cur: nat, name: string, sym: Symbol)
    requires 1 <= cur <= |a| == |b|
    requires forall i :: 0 <= i < |a| && i != cur - 1 ==> b[i] == a[i]
    requires b[cur - 1] == a[cur - 1] ||
      (name !in a[cur - 1].symbols &&
       b[cur - 1] == a[cur - 1].(symbols := a[cur - 1].symbols[name := sym], order := a[cur - 1].order + [name]))
    ensures Extends(a, b, cur)
  {
  }

  /** A step taken in a scope created after `a` leaves `a`'s scopes as `cur`'s step left them. */
  lemma ExtendsNested(a: seq<Scope>, b: seq<Scope>, c: seq<Scope>, cur: nat, inner: nat)
    requires Extends(a, b, cur) && Extends(b, c, inner) && inner > |a|
    ensures Extends(a, c, cur)
  {
  }

  lemma AppendAssoc<T>(a: seq<T>, b: seq<T>, c: seq<T>)
    ensures a + (b + c) == (a + b) + c
  {
  }

  /** An analysis result with its info dropped. */
  function Discard(x: Result<Option<ExpInfo>>): (r: Result<()>)
    ensures r.Ok? <==> x.Ok?
    ensures x.Throws? ==> r.exception == x.exception
  {
    if x.Throws? then Throws(x.exception) else Ok(())
  }

  /** A new binding `visitFuncFParams` makes: a non-constant value owned by `scope`, without recorded values. */
  ghost predicate ParamBinding(sym: Symbol, scope: nat) {
    sym.symType.ValueSym? && !sym.symType.vtype.isConst && sym.scopeNum == scope && sym.constValues == []
  }

  /**
   * The analyser: a walk over the tree that records diagnostics in `errors` and
   * bindings in `table`, with the return type of the function being analysed.
   * An exception from any step ends the walk.
   */
  class Visitor {
    const table: SymbolTable
    const errors: ExceptionList
    var currentReturnType: Option<ReturnType>

    ghost predicate Valid()
      reads table
    {
      table.Valid() && table.current != 0
    }

    constructor (t: SymbolTable, e: ExceptionList)
      ensures table == t && errors == e && currentReturnType.None?
    {
      table := t;
      errors := e;
      currentReturnType := None;
    }

    /** `visitExp`: records the diagnostics of `EvalExp` and returns its info. */
    method VisitExp(e: BiExp) returns (r: Result<Option<ExpInfo>>)
      requires Valid()
      modifies errors
      ensures var ev := EvalExp(table.scopes, table.current, e);
        r == ev.result && errors.entries == old(errors.entries) + ev.diags
    {
      var ev := EvalExp(table.scopes, table.current, e);
      errors.AppendAll(ev.diags);
      r := ev.result;
    }

    /** `visitLval`. */
    method VisitLval(l: Lval) returns (r: Result<Option<ExpInfo>>)
      requires Valid()
      modifies errors
      ensures var ev := EvalLval(table.scopes, table.current, l);
        r == ev.result && errors.entries == old(errors.entries) + ev.diags
    {
      var ev := EvalLval(table.scopes, table.current, l);
      errors.AppendAll(ev.diags);
      r := ev.result;
    }

    /** The expression-list loops of `initConst`. */
    method ListInit(exps: seq<BiExp>, basic: BasicType, length: int) returns (r: Result<seq<Option<int32>>>)
      requires Valid()
      modifies errors
      ensures var whole := ListValues(table.scopes, table.current, exps, basic, length, 0, []);
        r == whole.result && errors.entries == old(errors.entries) + whole.diags
    {
      ghost var scopes, cur := table.scopes, table.current;
      var values: seq<Option<int32>> := [];
      var i := 0;
      while i < |exps|
        invariant 0 <= i <= |exps|
        invariant var whole := ListValues(scopes, cur, exps, basic, length, 0, []);
          var rest := ListValues(scopes, cur, exps, basic, length, i, values);
          old(errors.entries) + whole.diags == errors.entries + rest.diags && whole.result == rest.result
      {
        ghost var rest := ListValues(scopes, cur, exps, basic, length, i, values);
        ghost var before := errors.entries;
        var info := VisitExp(exps[i]);
        ghost var ev := EvalExp(scopes, cur, exps[i]);
        if info.Throws? {
          assert rest == Init(ev.diags, Throws(info.exception));
          return Throws(info.exception);
        }
        if info.value.None? {
          assert rest == Init(ev.diags, Ok(values));
          return Ok(values);
        }
        var entry := Entry(basic, info.value.value.value);
        ghost var next := ListValues(scopes, cur, exps, basic, length, i + 1, values + [entry]);
        assert rest == Init(ev.diags + next.diags, next.result);
        AppendAssoc(before, ev.diags, next.diags);
        values := values + [entry];
        i := i + 1;
      }
      assert errors.entries + [] == errors.entries;
      var zeros := ZeroFill(length - |exps|);
      return Ok(values + zeros);
    }

    /** `initConst(initVal, symbol)` for a symbol of type `vt`. */
    method InitConst(init: Option<InitVal>, vt: ValueType) returns (r: Result<seq<Option<int32>>>)
      requires Valid()
      modifies errors
      ensures var whole := ConstInit(table.scopes, table.current, init, vt);
        r == whole.result && errors.entries == old(errors.entries) + whole.diags
    {
      var length := vt.arrayLength.GetOr(1);
      if init.None? {
        return Throws(NullPointer);
      }
      if init.value.stringConst.Some? {
        var values := StringInit(init.value.stringConst.value, length);
        return Ok(values);
      }
      r := ListInit(init.value.exps, vt.basic, length);
    }

    /** The values `visitDecl` records for `def` once its type `vt` is known. */
    method DefInit(def: VarConstDef, vt: ValueType) returns (r: Result<seq<Option<int32>>>)
      requires Valid()
      modifies errors
      ensures var whole := DefValues(table.scopes, table.current, def, vt);
        r == whole.result && errors.entries == old(errors.entries) + whole.diags
    {
      if vt.isConst || def.init.Some? {
        r := InitConst(def.init, vt);
      } else if vt.arrayLength.Some? {
        var zeros := ZeroFill(vt.arrayLength.value);
        r := Ok(zeros);
      } else {
        r := Ok([Some(0)]);
      }
    }

    /** The symbol `visitDecl` builds for `def`: the dimension is analysed first, then the initialiser. */
    method BuildSymbol(btype: Btype, def: VarConstDef) returns (r: Result<Symbol>)
      requires Valid()
      modifies errors
      ensures var d := DefSymbol(table.scopes, table.current, btype, def);
        r == d.result && errors.entries == old(errors.entries) + d.diags
    {
      ghost var scopes, cur := table.scopes, table.current;
      var dimInfo: Result<Option<ExpInfo>> := Ok(None);
      if def.dim.Some? {
        dimInfo := VisitExp(def.dim.value);
      }
      ghost var dim := if def.dim.None? then Eval([], Ok(None)) else EvalExp(scopes, cur, def.dim.value);
      assert errors.entries == old(errors.entries) + dim.diags;
      if dimInfo.Throws? {
        return Throws(dimInfo.exception);
      }
      var len: Option<int> := if dimInfo.value.Some? then dimInfo.value.value.value else None;
      var vt := ValueType(BasicOf(btype), def.isConst, len);
      var values := DefInit(def, vt);
      ghost var init := DefValues(scopes, cur, def, vt);
      AppendAssoc(old(errors.entries), dim.diags, init.diags);
      if values.Throws? {
        return Throws(values.exception);
      }
      r := Ok(Symbol(def.name, ValueSym(vt), table.current, def.line, values.value, None));
    }

    /**
     * `insertSymbol(s)` in the current scope, recording `'b'` at `line + 1` when the
     * name is already bound there (the shared tail of `visitDecl` and `visitFuncDef`).
     */
    method Declare(s: Symbol, line: int)
      requires Valid()
      modifies table, errors
      ensures Valid() && table.current == old(table.current) && table.count == old(table.count)
      ensures |table.scopes| == |old(table.scopes)|
      ensures forall i :: 0 <= i < |table.scopes| && i != table.current - 1 ==> table.scopes[i] == old(table.scopes[i])
      ensures var sc := old(table.Current());
        (s.name in sc.symbols ==> errors.entries == old(errors.entries) + [Diagnostic(line + 1, 'b')] && table.Current() == sc) &&
        (s.name !in sc.symbols ==>
           errors.entries == old(errors.entries) &&
           table.Current() == sc.(symbols := sc.symbols[s.name := s], order := sc.order + [s.name]))
      ensures table.scopes == Inserted(old(table.scopes), table.current, s)
      ensures Extends(old(table.scopes), table.scopes, table.current)
      ensures s.name in table.Current().symbols
    {
      var inserted := table.InsertSymbol(s);
      BindExtends(old(table.scopes), table.scopes, table.current, s.name, s);
      assert table.scopes == Inserted(old(table.scopes), table.current, s);
      if inserted.None? {
        errors.NewException(line + 1, 'b');
      }
    }

    /**
     * One pass of the `visitDecl` loop: build definition `i`'s symbol (`BuildSymbol`)
     * and insert it (`Declare`).
     */
    method DeclareDef(d: Decl, i: nat) returns (r: Result<()>)
      requires Valid() && i < |d.defs|
      modifies table, errors
      ensures Valid() && table.current == old(table.current)
      ensures Extends(old(table.scopes), table.scopes, table.current)
      ensures r.Ok? ==> d.defs[i].name in table.Current().symbols
      ensures old(errors.entries) <= errors.entries
    {
      var s := BuildSymbol(d.btype, d.defs[i]);
      if s.Throws? {
        return Throws(s.exception);
      }
      Declare(s.value, d.defs[i].line);
      r := Ok(());
    }

    /**
     * `visitDecl`: each definition in turn, as `DeclareDef` states, until one throws;
     * afterwards every defined name is bound in the current scope.
     */
    method VisitDecl(d: Decl) returns (r: Result<()>)
      requires Valid()
      modifies table, errors
      ensures Valid() && table.current == old(table.current)
      ensures Extends(old(table.scopes), table.scopes, table.current)
      ensures r.Ok? ==> DefinesAll(d, table.Current())
      ensures old(errors.entries) <= errors.entries
    {
      ghost var cur := table.current;
      var i := 0;
      while i < |d.defs|
        invariant 0 <= i <= |d.defs|
        invariant Valid() && table.current == cur
        invariant Extends(old(table.scopes), table.scopes, cur)
        invariant forall k :: 0 <= k < i ==> d.defs[k].name in table.Current().symbols
        invariant old(errors.entries) <= errors.entries
      {
        ghost var before := table.scopes;
        var step := DeclareDef(d, i);
        ExtendsTrans(old(table.scopes), before, table.scopes, cur);
        if step.Throws? {
          return step;
        }
        forall k | 0 <= k < i ensures d.defs[k].name in table.Current().symbols {
          assert d.defs[k].name in before[cur - 1].symbols;
        }
        i := i + 1;
      }
      return Ok(());
    }

    /** Assignment (case 0): the lvalue, `'h'` when it is a constant, then the value. */
    method VisitAssign(lval: Lval, value: BiExp) returns (r: Result<()>)
      requires Valid()
      modifies errors
      ensures var lv := EvalLval(table.scopes, table.current, lval);
        var v := EvalExp(table.scopes, table.current, value);
        if lv.result.Throws? then r == Throws(lv.result.exception) && errors.entries == old(errors.entries) + lv.diags
        else r == Discard(v.result) && errors.entries == old(errors.entries) + lv.diags + ConstTarget(lv, lval.line) + v.diags
    {
      var info := VisitLval(lval);
      if info.Throws? {
        return Throws(info.exception);
      }
      if info.value.Some? && info.value.value.vtype.isConst {
        errors.NewException(lval.line + 1, 'h');
      }
      var v := VisitExp(value);
      r := Discard(v);
    }

    /** `getint` and `getchar` (cases 8 and 9): the lvalue, and `'h'` when it is a constant. */
    method VisitInput(lval: Lval) returns (r: Result<()>)
      requires Valid()
      modifies errors
      ensures var lv := EvalLval(table.scopes, table.current, lval);
        r == Discard(lv.result) &&
        errors.entries == old(errors.entries) + lv.diags + (if lv.result.Ok? then ConstTarget(lv, lval.line) else [])
    {
      var info := VisitLval(lval);
      if info.Throws? {
        return Throws(info.exception);
      }
      if info.value.Some? && info.value.value.vtype.isConst {
        errors.NewException(lval.line + 1, 'h');
      }
      r := Ok(());
    }

    /** `break` and `continue` (cases 5 and 6): `'m'` outside a loop body. */
    method VisitJump(line: int, inFor: bool)
      modifies errors
      ensures errors.entries == old(errors.entries) + (if inFor then [] else [Diagnostic(line + 1, 'm')])
    {
      if !inFor {
        errors.NewException(line + 1, 'm');
      }
    }

    /**
     * `return` (case 7): a returned expression records `'f'` in a `void` function and
     * is analysed otherwise; a bare `return;` records nothing.
     */
    method VisitReturn(line: int, returned: Option<BiExp>) returns (r: Result<()>)
      requires Valid()
      modifies errors
      ensures returned.None? ==> r.Ok? && errors.entries == old(errors.entries)
      ensures returned.Some? && currentReturnType == Some(VoidReturn) ==>
        r.Ok? && errors.entries == old(errors.entries) + [Diagnostic(line + 1, 'f')]
      ensures returned.Some? && currentReturnType != Some(VoidReturn) ==>
        var v := EvalExp(table.scopes, table.current, returned.value);
        r == Discard(v.result) && errors.entries == old(errors.entries) + v.diags
    {
      if returned.None? {
        return Ok(());
      }
      if currentReturnType == Some(VoidReturn) {
        errors.NewException(line + 1, 'f');
        return Ok(());
      }
      var v := VisitExp(returned.value);
      r := Discard(v);
    }

    /** The argument loop of `printf`. */
    method VisitAll(exps: seq<BiExp>) returns (r: Result<()>)
      requires Valid()
      modifies errors
      ensures var whole := EvalAll(table.scopes, table.current, exps, 0);
        r == whole.result && errors.entries == old(errors.entries) + whole.diags
    {
      ghost var scopes, cur := table.scopes, table.current;
      var i := 0;
      while i < |exps|
        invariant 0 <= i <= |exps|
        invariant var whole := EvalAll(scopes, cur, exps, 0);
          var rest := EvalAll(scopes, cur, exps, i);
          old(errors.entries) + whole.diags == errors.entries + rest.diags && whole.result == rest.result
      {
        ghost var rest := EvalAll(scopes, cur, exps, i);
        ghost var before := errors.entries;
        var v := VisitExp(exps[i]);
        ghost var ev := EvalExp(scopes, cur, exps[i]);
        if v.Throws? {
          assert rest == Done(ev.diags, Throws(v.exception));
          return Throws(v.exception);
        }
        ghost var next := EvalAll(scopes, cur, exps, i + 1);
        assert rest == Done(ev.diags + next.diags, next.result);
        AppendAssoc(before, ev.diags, next.diags);
        i := i + 1;
      }
      assert errors.entries + [] == errors.entries;
      return Ok(());
    }

    /**
     * `printf` (case 10): a placeholder count different from the number of arguments
     * records `'l'` and skips the arguments; otherwise each argument is analysed.
     */
    method VisitPrintf(line: int, format: Token, args: seq<BiExp>) returns (r: Result<()>)
      requires Valid()
      modifies errors
      ensures Placeholders(format.text) != |args| ==> r.Ok? && errors.entries == old(errors.entries) + [Diagnostic(line + 1, 'l')]
      ensures Placeholders(format.text) == |args| ==>
        var all := EvalAll(table.scopes, table.current, args, 0);
        r == all.result && errors.entries == old(errors.entries) + all.diags
    {
      var count := CountPlaceholders(format.text);
      if count != |args| {
        errors.NewException(line + 1, 'l');
        return Ok(());
      }
      r := VisitAll(args);
    }

    /** An expression statement (case 1): the expression, when there is one. */
    method VisitExpStmt(e: Option<BiExp>) returns (r: Result<()>)
      requires Valid()
      modifies errors
      ensures e.None? ==> r.Ok? && errors.entries == old(errors.entries)
      ensures e.Some? ==>
        var v := EvalExp(table.scopes, table.current, e.value);
        r == Discard(v.result) && errors.entries == old(errors.entries) + v.diags
    {
      if e.None? {
        return Ok(());
      }
      var v := VisitExp(e.value);
      r := Discard(v);
    }

    /**
     * `visitStmt`, with `inFor` telling whether the statement is (inside) a loop body.
     * The walk never removes a scope or re-links one, adds bindings only to the
     * current scope and to new scopes, and on success comes back to the scope it
     * started in.
     */
    method VisitStmt(s: Stmt, inFor: bool) returns (r: Result<()>)
      requires Valid()
      modifies table, errors
      ensures Valid() && Extends(old(table.scopes), table.scopes, old(table.current))
      ensures r.Ok? ==> table.current == old(table.current)
      ensures old(errors.entries) <= errors.entries
      decreases s, 1
    {
      match s
      case Assign(_, lval, value) =>
        r := VisitAssign(lval, value);
      case ExpStmt(_, e) =>
        r := VisitExpStmt(e);
      case BlockStmt(_, _) =>
        r := VisitBlockStmt(s, inFor);
      case If(_, _, _, _) =>
        r := VisitIf(s, inFor);
      case For(_, _, _, _, _) =>
        r := VisitFor(s);
      case Break(line) =>
        VisitJump(line, inFor);
        r := Ok(());
      case Continue(line) =>
        VisitJump(line, inFor);
        r := Ok(());
      case Return(line, returned) =>
        r := VisitReturn(line, returned);
      case GetInt(_, lval) =>
        r := VisitInput(lval);
      case GetChar(_, lval) =>
        r := VisitInput(lval);
      case Printf(line, format, args) =>
        r := VisitPrintf(line, format, args);
    }

    /** A nested block (case 2): a new scope for the block, left again afterwards. */
    method VisitBlockStmt(s: Stmt, inFor: bool) returns (r: Result<()>)
      requires Valid() && s.BlockStmt?
      modifies table, errors
      ensures Valid() && Extends(old(table.scopes), table.scopes, old(table.current))
      ensures r.Ok? ==> table.current == old(table.current)
      ensures old(errors.entries) <= errors.entries
      decreases s, 0
    {
      table.NewBlockScope();
      ghost var inner, n := table.scopes, table.current;
      assert Extends(old(table.scopes), inner, old(table.current));
      r := VisitBlock(s.block, inFor);
      ExtendsNested(old(table.scopes), inner, table.scopes, old(table.current), n);
      if r.Throws? {
        return;
      }
      assert table.Current().parent == inner[n - 1].parent == Some(old(table.current));
      table.BackToUpperScope();
    }

    /** `if` (case 3): the condition, the branch taken when true, then the other branch if present. */
    method VisitIf(s: Stmt, inFor: bool) returns (r: Result<()>)
      requires Valid() && s.If?
      modifies table, errors
      ensures Valid() && Extends(old(table.scopes), table.scopes, old(table.current))
      ensures r.Ok? ==> table.current == old(table.current)
      ensures old(errors.entries) <= errors.entries
      decreases s, 0
    {
      var c := VisitExp(s.cond);
      if c.Throws? {
        return Throws(c.exception);
      }
      r := VisitStmt(s.thenStmt, inFor);
      if r.Throws? || s.elseStmt.None? {
        return;
      }
      ghost var mid := table.scopes;
      r := VisitStmt(s.elseStmt.value, inFor);
      ExtendsTrans(old(table.scopes), mid, table.scopes, old(table.current));
    }

    /** `for` (case 4): initialiser, condition, update (outside the loop body), then the body. */
    method VisitFor(s: Stmt) returns (r: Result<()>)
      requires Valid() && s.For?
      modifies table, errors
      ensures Valid() && Extends(old(table.scopes), table.scopes, old(table.current))
      ensures r.Ok? ==> table.current == old(table.current)
      ensures old(errors.entries) <= errors.entries
      decreases s, 0
    {
      if s.init.Some? {
        r := VisitStmt(s.init.value, false);
        if r.Throws? {
          return;
        }
      }
      ghost var s1 := table.scopes;
      if s.forCond.Some? {
        var c := VisitExp(s.forCond.value);
        if c.Throws? {
          return Throws(c.exception);
        }
      }
      if s.update.Some? {
        r := VisitStmt(s.update.value, false);
        ExtendsTrans(old(table.scopes), s1, table.scopes, old(table.current));
        if r.Throws? {
          return;
        }
      }
      ghost var s2 := table.scopes;
      r := VisitStmt(s.body, true);
      ExtendsTrans(old(table.scopes), s2, table.scopes, old(table.current));
    }

    /** `visitBlock`: the items in order, in the current scope. */
    method VisitBlock(b: Block, inFor: bool) returns (r: Result<()>)
      requires Valid()
      modifies table, errors
      ensures Valid() && Extends(old(table.scopes), table.scopes, old(table.current))
      ensures r.Ok? ==> table.current == old(table.current)
      ensures old(errors.entries) <= errors.entries
      decreases b, 1
    {
      var i := 0;
      while i < |b.items|
        invariant 0 <= i <= |b.items|
        invariant Valid() && Extends(old(table.scopes), table.scopes, old(table.current))
        invariant table.current == old(table.current)
        invariant old(errors.entries) <= errors.entries
      {
        ghost var before := table.scopes;
        r := VisitBlockItem(b.items[i], inFor);
        ExtendsTrans(old(table.scopes), before, table.scopes, old(table.current));
        if r.Throws? {
          return;
        }
        i := i + 1;
      }
      r := Ok(());
    }

    /** `visitBlockItem`: a declaration or a statement. */
    method VisitBlockItem(item: BlockItem, inFor: bool) returns (r: Result<()>)
      requires Valid()
      modifies table, errors
      ensures Valid() && Extends(old(table.scopes), table.scopes, old(table.current))
      ensures r.Ok? ==> table.current == old(table.current)
      ensures old(errors.entries) <= errors.entries
      decreases item, 0
    {
      if item.DeclItem? {
        r := VisitDecl(item.decl);
      } else {
        r := VisitStmt(item.stmt, inFor);
      }
    }
  
    /** One parameter of `visitFuncFParams`: `insertSymbol(name, type, line)`, or `'b'` when the name is taken. */
    method BindParam(p: FuncFParam)
      requires Valid()
      modifies table, errors
      ensures Valid() && table.current == old(table.current)
      ensures Extends(old(table.scopes), table.scopes, table.current)
      ensures table.Current().symbols == BindOne(old(table.Current().symbols), p, table.current)
      ensures errors.entries == old(errors.entries) + ClashDiag(old(table.Current().symbols).Keys, p)
    {
      var inserted := table.InsertNew(p.name, ValueSym(ParamType(p)), p.line);
      BindExtends(old(table.scopes), table.scopes, table.current, p.name, ParamSymbol(p, table.current));
      if inserted.None? {
        errors.NewException(p.line + 1, 'b');
      }
    }

    /** `visitFuncFParams`: each parameter is bound in the current (the function's) scope, or records `'b'`. */
    method VisitFuncFParams(ps: seq<FuncFParam>)
      requires Valid()
      modifies table, errors
      ensures Valid() && table.current == old(table.current)
      ensures Extends(old(table.scopes), table.scopes, table.current)
      ensures errors.entries == old(errors.entries) + ParamDiags(old(table.Current().symbols).Keys, ps)
      ensures table.Current().symbols == BindParams(old(table.Current().symbols), ps, table.current)
    {
      ghost var m := table.Current().symbols;
      var i := 0;
      while i < |ps|
        invariant 0 <= i <= |ps|
        invariant Valid() && table.current == old(table.current)
        invariant Extends(old(table.scopes), table.scopes, table.current)
        invariant errors.entries == old(errors.entries) + ParamDiags(m.Keys, ps[..i])
        invariant table.Current().symbols == BindParams(m, ps[..i], table.current)
      {
        ParamStep(m, ps, i, table.current);
        ghost var before := table.scopes;
        AppendAssoc(old(errors.entries), ParamDiags(m.Keys, ps[..i]), ClashDiag(BindParams(m, ps[..i], table.current).Keys, ps[i]));
        BindParam(ps[i]);
        ExtendsTrans(old(table.scopes), before, table.scopes, table.current);
        i := i + 1;
      }
      assert ps[..|ps|] == ps;
    }

    /** The final-return check of `visitFuncDef` and `visitMainFuncDef`: `'g'` at the closing brace's line + 1. */
    method CheckFinalReturn(b: Block)
      modifies errors
      ensures errors.entries == old(errors.entries) + (if LacksFinalReturn(b) then [Diagnostic(b.lastRBraceLine + 1, 'g')] else [])
    {
      if |b.items| == 0 {
        errors.NewException(b.lastRBraceLine + 1, 'g');
      } else if b.items[|b.items| - 1].DeclItem? {
        errors.NewException(b.lastRBraceLine + 1, 'g');
      } else if b.items[|b.items| - 1].stmt.CaseNum() != 7 {
        errors.NewException(b.lastRBraceLine + 1, 'g');
      }
    }

    /** Inside a function's scope: the parameters are bound, the return type set, and the body analysed. */
    method VisitParamsAndBlock(rt: ReturnType, params: Option<seq<FuncFParam>>, body: Block) returns (r: Result<()>)
      requires Valid()
      modifies this, table, errors
      ensures Valid() && Extends(old(table.scopes), table.scopes, old(table.current))
      ensures r.Ok? ==> table.current == old(table.current)
      ensures currentReturnType == Some(rt)
      ensures old(errors.entries) <= errors.entries
    {
      if params.Some? {
        VisitFuncFParams(params.value);
      }
      ghost var s1 := table.scopes;
      currentReturnType := Some(rt);
      r := VisitBlock(body, false);
      ExtendsTrans(old(table.scopes), s1, table.scopes, old(table.current));
    }

    /**
     * What `visitFuncDef` and `visitMainFuncDef` share: a new scope under return type
     * `rt`, the parameters bound there, the body analysed, and (unless the body threw)
     * back to the enclosing scope, whose bindings are untouched.
     */
    method VisitFunctionBody(rt: ReturnType, params: Option<seq<FuncFParam>>, body: Block) returns (r: Result<()>)
      requires Valid()
      modifies this, table, errors
      ensures Valid() && Extends(old(table.scopes), table.scopes, old(table.current))
      ensures r.Ok? ==> table.current == old(table.current)
      ensures currentReturnType == Some(rt)
      ensures table.scopes[old(table.current) - 1].symbols == old(table.Current().symbols)
      ensures old(errors.entries) <= errors.entries
    {
      ghost var cur := table.current;
      table.NewScope(Some(rt));
      ghost var s1, n := table.scopes, table.current;
      assert Extends(old(table.scopes), s1, cur);
      r := VisitParamsAndBlock(rt, params, body);
      ExtendsNested(old(table.scopes), s1, table.scopes, cur, n);
      if r.Throws? {
        return;
      }
      assert table.Current().parent == s1[n - 1].parent == Some(cur);
      table.BackToUpperScope();
    }

    /**
     * `visitFuncDef`: binds the function in the current scope (or records `'b'`),
     * analyses parameters and body in a new scope under the function's return type,
     * checks the final `return` of a non-`void` function and comes back. The
     * enclosing scope gains the function's binding and nothing else. (The check is
     * made before leaving the scope in the source; it only touches `errors`, so the
     * order does not matter.)
     */
    method VisitFuncDef(f: FuncDef) returns (r: Result<()>, ghost body: seq<Diagnostic>)
      requires Valid()
      modifies this, table, errors
      ensures Valid() && Extends(old(table.scopes), table.scopes, old(table.current))
      ensures r.Ok? ==> table.current == old(table.current) && currentReturnType == Some(ReturnOf(f.funcType))
      ensures table.scopes[old(table.current) - 1].symbols ==
        if f.name in old(table.Current().symbols) then old(table.Current().symbols)
        else old(table.Current().symbols)[f.name := FunctionSymbol(f, old(table.current))]
      ensures errors.entries == old(errors.entries)
        + (if f.name in old(table.Current().symbols) then [Diagnostic(f.line + 1, 'b')] else [])
        + body
        + (if r.Ok? && ReturnOf(f.funcType) != VoidReturn && LacksFinalReturn(f.block)
           then [Diagnostic(f.block.lastRBraceLine + 1, 'g')] else [])
    {
      ghost var cur, sc := table.current, table.Current().symbols;
      ghost var clash := if f.name in sc then [Diagnostic(f.line + 1, 'b')] else [];
      Declare(FunctionSymbol(f, table.current), f.line);
      ghost var s1, mid := table.scopes, errors.entries;
      assert mid == old(errors.entries) + clash;
      assert s1[cur - 1].symbols == if f.name in sc then sc else sc[f.name := FunctionSymbol(f, cur)];
      var rt := ReturnOf(f.funcType);
      r := VisitFunctionBody(rt, f.params, f.block);
      body := errors.entries[|mid|..];
      assert errors.entries == mid + body;
      ExtendsTrans(old(table.scopes), s1, table.scopes, cur);
      if r.Ok? && rt != VoidReturn {
        CheckFinalReturn(f.block);
      }
    }

    /**
     * `visitMainFuncDef`: the return type becomes `int`, the body is analysed in a
     * new scope (a missing `main` throws there), then, back in the enclosing scope,
     * its final `return` is checked. The enclosing scope gains no binding.
     */
    method VisitMainFuncDef(m: Option<MainFuncDef>) returns (r: Result<()>, ghost body: seq<Diagnostic>)
      requires Valid()
      modifies this, table, errors
      ensures Valid() && Extends(old(table.scopes), table.scopes, old(table.current))
      ensures currentReturnType == Some(IntReturn)
      ensures m.None? ==> r == Throws(NullPointer) && errors.entries == old(errors.entries)
      ensures r.Ok? ==> table.current == old(table.current)
      ensures table.scopes[old(table.current) - 1].symbols == old(table.Current().symbols)
      ensures m.Some? ==>
        errors.entries == old(errors.entries) + body +
          (if r.Ok? && LacksFinalReturn(m.value.block) then [Diagnostic(m.value.block.lastRBraceLine + 1, 'g')] else [])
      ensures old(errors.entries) <= errors.entries
    {
      currentReturnType := Some(IntReturn);
      if m.None? {
        table.NewScope(Some(IntReturn));
        return Throws(NullPointer), [];
      }
      r := VisitFunctionBody(IntReturn, None, m.value.block);
      body := errors.entries[|old(errors.entries)|..];
      assert errors.entries == old(errors.entries) + body;
      if r.Ok? {
        CheckFinalReturn(m.value.block);
      }
    }

    /**
     * The global declarations of `visitCompUnit`, in order, each as `VisitDecl` states;
     * on success all their names are bound.
     */
    method VisitGlobals(decls: seq<Decl>) returns (r: Result<()>)
      requires Valid()
      modifies table, errors
      ensures Valid() && table.current == old(table.current)
      ensures Extends(old(table.scopes), table.scopes, table.current)
      ensures r.Ok? ==> forall k :: 0 <= k < |decls| ==> DefinesAll(decls[k], table.Current())
      ensures old(errors.entries) <= errors.entries
    {
      r := Ok(());
      var i := 0;
      while i < |decls|
        invariant 0 <= i <= |decls|
        invariant Valid() && table.current == old(table.current)
        invariant Extends(old(table.scopes), table.scopes, table.current)
        invariant forall k :: 0 <= k < i ==> DefinesAll(decls[k], table.Current())
        invariant old(errors.entries) <= errors.entries
      {
        ghost var before := table.scopes;
        r := VisitDecl(decls[i]);
        ExtendsTrans(old(table.scopes), before, table.scopes, table.current);
        if r.Throws? {
          return;
        }
        forall k | 0 <= k < i ensures DefinesAll(decls[k], table.Current()) {
          DefinesKept(decls[k], before[table.current - 1], table.Current());
        }
        i := i + 1;
      }
    }

    /** The function definitions of `visitCompUnit`, in order; on success all their names are bound. */
    method VisitFuncDefs(fs: seq<FuncDef>) returns (r: Result<()>)
      requires Valid()
      modifies this, table, errors
      ensures Valid() && Extends(old(table.scopes), table.scopes, old(table.current))
      ensures r.Ok? ==> table.current == old(table.current)
      ensures r.Ok? ==> forall k :: 0 <= k < |fs| ==> fs[k].name in table.Current().symbols
      ensures old(errors.entries) <= errors.entries
    {
      r := Ok(());
      ghost var cur := table.current;
      var i := 0;
      while i < |fs|
        invariant 0 <= i <= |fs|
        invariant Valid() && table.current == cur
        invariant Extends(old(table.scopes), table.scopes, cur)
        invariant forall k :: 0 <= k < i ==> fs[k].name in table.scopes[cur - 1].symbols
        invariant old(errors.entries) <= errors.entries
      {
        ghost var before := table.scopes;
        ghost var body;
        r, body := VisitFuncDef(fs[i]);
        ExtendsTrans(old(table.scopes), before, table.scopes, cur);
        if r.Throws? {
          return;
        }
        NamesStayBound(fs, i, before[cur - 1], table.scopes[cur - 1]);
        i := i + 1;
      }
    }

    /** The function definitions and then `main`, the second half of `visitCompUnit`. */
    method VisitFunctions(fs: seq<FuncDef>, main: Option<MainFuncDef>) returns (r: Result<()>)
      requires Valid()
      modifies this, table, errors
      ensures Valid() && Extends(old(table.scopes), table.scopes, old(table.current))
      ensures r.Ok? ==> table.current == old(table.current)
      ensures main.None? ==> r.Throws?
      ensures r.Ok? ==> forall k :: 0 <= k < |fs| ==> fs[k].name in table.Current().symbols
      ensures old(errors.entries) <= errors.entries
    {
      ghost var cur := table.current;
      r := VisitFuncDefs(fs);
      if r.Throws? {
        return;
      }
      ghost var s1 := table.scopes;
      ghost var body;
      r, body := VisitMainFuncDef(main);
      ExtendsTrans(old(table.scopes), s1, table.scopes, cur);
    }

    /**
     * `visitCompUnit`: global declarations, then function definitions, then `main`.
     * On success every global and function name is bound in the starting scope; a
     * missing `main` always ends in an exception.
     */
    method VisitCompUnit(c: CompUnit) returns (r: Result<()>)
      requires Valid()
      modifies this, table, errors
      ensures Valid() && Extends(old(table.scopes), table.scopes, old(table.current))
      ensures r.Ok? ==> table.current == old(table.current)
      ensures c.main.None? ==> r.Throws?
      ensures r.Ok? ==> forall k :: 0 <= k < |c.decls| ==> DefinesAll(c.decls[k], table.Current())
      ensures r.Ok? ==> forall k :: 0 <= k < |c.funcDefs| ==> c.funcDefs[k].name in table.Current().symbols
      ensures old(errors.entries) <= errors.entries
    {
      r := VisitGlobals(c.decls);
      if r.Throws? {
        return;
      }
      ghost var s1 := table.scopes;
      r := VisitFunctions(c.funcDefs, c.main);
      ExtendsTrans(old(table.scopes), s1, table.scopes, old(table.current));
    }
  }
}
