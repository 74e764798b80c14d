/**
 * The LLVM IR generator (llvm/IRGenerator.java with llvm/Value.java): a second walk
 * over the syntax tree that replays the analyser's scopes and prints one line of IR
 * per instruction.
 *
 * The printed lines are modelled as `Instr` records with `Render` giving their text.
 * Expression and leaf-statement code is specified by functions over the scope list
 * and the next free register; the `IRGenerator` class does what the Java class does,
 * step by step, and is proved to emit exactly what those functions describe.
 */
module IrGeneration {
  import opened Outcomes
  import opened JavaInt
  import opened Text
  import opened Utilities
  import opened Tokens
  import opened Nodes
  import opened ValueTypes
  import opened FunctionTypes
  import opened SymbolTables
  import opened LlvmTypes
  import Semantics

  /** An IR value: its printed name (a register, a global, a constant) and its type. */
  datatype Value = Value(name: string, ty: LType)

  /** A parameter in a `define` line: its type, its register and whether a comma follows. */
  datatype Param = Param(ty: string, reg: nat, comma: bool)

  /** One printed line (the five `declare` lines and a function header count as one). */
  datatype Instr =
    | Declarations
    | GlobalDef(global: string, isConst: bool, ty: string, init: string)
    | Define(ret: string, callee: string, params: seq<Param>)
    | Close
    | Alloca(dest: nat, ty: string)
    | Store(ty: string, value: string, ptrTy: string, ptr: string)
    | Load(dest: nat, ty: string, ptr: string)
    | ElementPtr(dest: nat, ty: string, base: string, indices: seq<string>)
    | Arith(dest: nat, op: string, lhs: string, rhs: string)
    | Sext(dest: nat, operand: string)
    | Trunc(dest: nat, operand: string)
    | Invoke(result: Option<nat>, ret: string, callee: string, args: seq<Value>)
    | Ret(returned: Option<Value>)

  /** The virtual register `%r`. */
  function Reg(r: nat): string {
    "%" + NatToString(r)
  }

  /** The register an instruction defines, if any. */
  function Dest(i: Instr): Option<nat> {
    match i
    case Alloca(d, _) => Some(d)
    case Load(d, _, _) => Some(d)
    case ElementPtr(d, _, _, _) => Some(d)
    case Arith(d, _, _, _) => Some(d)
    case Sext(d, _) => Some(d)
    case Trunc(d, _) => Some(d)
    case Invoke(d, _, _, _) => d
    case _ => None
  }

  function Commas(parts: seq<string>): string
    decreases |parts|
  {
    if |parts| == 0 then ""
    else if |parts| == 1 then parts[0]
    else parts[0] + ", " + Commas(parts[1..])
  }

  function ParamsText(ps: seq<Param>): string
    decreases |ps|
  {
    if |ps| == 0 then ""
    else ps[0].ty + " " + Reg(ps[0].reg) + (if ps[0].comma then ", " else "") + ParamsText(ps[1..])
  }

  function IndicesText(ix: seq<string>): string
    decreases |ix|
  {
    if |ix| == 0 then "" else ", i32 " + ix[0] + IndicesText(ix[1..])
  }

  function ArgText(v: Value): string {
    TypeText(v.ty) + " " + v.name
  }

  function ArgsText(vs: seq<Value>): string {
    Commas(seq(|vs|, k requires 0 <= k < |vs| => ArgText(vs[k])))
  }

  /** The text the generator prints for an instruction (without indentation). */
  function Render(i: Instr): string {
    match i
    case Declarations =>
      "declare i32 @getint()\ndeclare i32 @getchar()\ndeclare void @putint(i32)\n"
      + "declare void @putch(i32)\ndeclare void @putstr(i8*)\n"
    case GlobalDef(g, c, ty, init) => "@" + g + " = " + (if c then "constant " else "global ") + ty + " " + init + "\n"
    case Define(ret, f, ps) => "define " + ret + " @" + f + "(" + ParamsText(ps) + ") {\nentry:\n"
    case Close => "}\n"
    case Alloca(d, ty) => Reg(d) + " = alloca " + ty + "\n"
    case Store(ty, v, pty, p) => "store " + ty + " " + v + ", " + pty + " " + p + "\n"
    case Load(d, ty, p) => Reg(d) + " = load " + ty + ", " + ty + "* " + p + "\n"
    case ElementPtr(d, ty, b, ix) => Reg(d) + " = getelementptr inbounds " + ty + ", " + ty + "* " + b + IndicesText(ix) + "\n"
    case Arith(d, op, l, r) => Reg(d) + " = " + op + " i32 " + l + ", " + r + "\n"
    case Sext(d, v) => Reg(d) + " = sext i8 " + v + " to i32\n"
    case Trunc(d, v) => Reg(d) + " = trunc i32 " + v + " to i8\n"
    case Invoke(d, ret, f, args) =>
      (match d case Some(r) => Reg(r) + " = " case None => "") + "call " + ret + " @" + f + "(" + ArgsText(args) + ")\n"
    case Ret(v) => match v case None => "ret void\n" case Some(x) => "ret " + TypeText(x.ty) + " " + x.name + "\n"
  }

  /** The whole output: the instructions' texts, one after another. */
  function Listing(code: seq<Instr>): string
    decreases |code|
  {
    if |code| == 0 then "" else Listing(code[..|code| - 1]) + Render(code[|code| - 1])
  }

  /** `printBasicType`. */
  function BasicText(vt: ValueType): string {
    if vt.basic == INT then "i32" else "i8"
  }

  /** `printVariableType`: `[n x T]` for an array, `T` otherwise. */
  function VarTypeText(vt: ValueType): string {
    match vt.arrayLength
    case Some(n) => "[" + IntToString(n) + " x " + BasicText(vt) + "]"
    case None => BasicText(vt)
  }

  /** `printParamType`: an array parameter is passed as a pointer to its element type. */
  function ParamTypeText(vt: ValueType): string {
    if vt.arrayLength.Some? then BasicText(vt) + "*" else BasicText(vt)
  }

  /** The IR type of the address of an element. */
  function PointerTo(vt: ValueType): LType {
    if vt.basic == INT then i32ptr else i8ptr
  }

  /** A symbol's `llvmIRSymbol` as string concatenation prints it. */
  function IrText(s: Symbol): string {
    match s.irName
    case Some(t) => t
    case None => "null"
  }

  /** An `Integer` that may be `null`, as string concatenation prints it. */
  function OptIntText(v: Option<int>): string {
    match v
    case Some(n) => IntToString(n)
    case None => "null"
  }

  /** The scopes the generator reads, and the current one (`0` is `null`). */
  ghost predicate Env(sc: seq<Scope>, cur: nat) {
    ParentsOlder(sc) && cur <= |sc|
  }

  /** `getSymbol(name)` dereferenced: `null` (no current scope or no binding) throws. */
  function FindSymbol(sc: seq<Scope>, cur: nat, name: string): Result<Symbol>
    requires Env(sc, cur)
  {
    if cur == 0 then Throws(NullPointer)
    else match LookupIn(sc, cur, name)
      case None => Throws(NullPointer)
      case Some(s) => Ok(s)
  }

  /** `(ValueType) symbol.symbolType`. */
  function FindValue(sc: seq<Scope>, cur: nat, name: string): Result<Symbol>
    requires Env(sc, cur)
  {
    var s :- FindSymbol(sc, cur, name);
    if s.symType.FunctionSym? then Throws(ClassCast) else Ok(s)
  }

  /** `(FunctionType) symbol.symbolType`. */
  function FindFunction(sc: seq<Scope>, cur: nat, name: string): Result<FunctionType>
    requires Env(sc, cur)
  {
    var s :- FindSymbol(sc, cur, name);
    if s.symType.ValueSym? then Throws(ClassCast) else Ok(s.symType.ftype)
  }

  /** What a piece of generated code is: its instructions, its value and the next free register. */
  datatype Emitted<T> = Emitted(code: seq<Instr>, result: T, next: nat)

  /** `convertToI8`: only an `i32` value may be truncated. */
  function ToI8(v: Value, reg: nat): (r: Result<Emitted<Value>>)
    ensures r.Ok? <==> v.ty.basic == I32
    ensures r.Ok? ==> r.value.result == Value(Reg(reg), i8) && r.value.next == reg + 1
                      && r.value.code == [Trunc(reg, v.name)]
  {
    if v.ty.basic != I32 then Throws(Failed("convertToI8")) else Ok(Emitted([Trunc(reg, v.name)], Value(Reg(reg), i8), reg + 1))
  }

  /** `convertToI32`: only an `i8` value may be sign-extended. */
  function ToI32(v: Value, reg: nat): (r: Result<Emitted<Value>>)
    ensures r.Ok? <==> v.ty.basic == I8
    ensures r.Ok? ==> r.value.result == Value(Reg(reg), i32) && r.value.next == reg + 1
                      && r.value.code == [Sext(reg, v.name)]
  {
    if v.ty.basic != I8 then Throws(Failed("convertToI32")) else Ok(Emitted([Sext(reg, v.name)], Value(Reg(reg), i32), reg + 1))
  }

  /**
   * `getElementPtr(symbol, index)`: a parameter array (length 0, stored as a pointer
   * to its first element) is loaded first; a declared array is indexed from its base.
   * A symbol without a length unboxes `null`.
   */
  function ElementAddress(s: Symbol, vt: ValueType, index: Value, reg: nat): (r: Result<Emitted<Value>>)
    ensures r.Ok? <==> vt.arrayLength.Some?
    ensures r.Ok? ==> r.value.next == reg + (if vt.arrayLength == Some(0) then 2 else 1)
    ensures r.Ok? ==> r.value.result == Value(Reg(r.value.next - 1), PointerTo(vt))
  {
    match vt.arrayLength
    case None => Throws(NullPointer)
    case Some(n) =>
      if n == 0 then
        Ok(Emitted([Load(reg, BasicText(vt) + "*", IrText(s)),
                    ElementPtr(reg + 1, BasicText(vt), Reg(reg), [index.name])],
                   Value(Reg(reg + 1), PointerTo(vt)), reg + 2))
      else
        Ok(Emitted([ElementPtr(reg, VarTypeText(vt), IrText(s), ["0", index.name])], Value(Reg(reg), PointerTo(vt)), reg + 1))
  }

  /** Loading a scalar through `ptr`: an `i8` is sign-extended, so the result is always `i32`. */
  function LoadScalar(vt: ValueType, ptr: string, reg: nat): (r: Emitted<Value>)
    ensures r.next == reg + (if vt.basic == INT then 1 else 2)
    ensures r.result == Value(Reg(r.next - 1), i32)
  {
    if vt.basic == INT then Emitted([Load(reg, "i32", ptr)], Value(Reg(reg), i32), reg + 1)
    else Emitted([Load(reg, "i8", ptr), Sext(reg + 1, Reg(reg))], Value(Reg(reg + 1), i32), reg + 2)
  }

  /** The instruction a binary operator is lowered to; comparisons and logic are not lowered. */
  function ArithOp(kind: TokenType): Option<string> {
    match kind
    case PLUS => Some("add")
    case MINU => Some("sub")
    case MULT => Some("mul")
    case DIV => Some("sdiv")
    case MOD => Some("srem")
    case _ => None
  }

  /** `codeGen(BiOperandExp)`: both operands, then one register for the result. */
  function ExpCode(sc: seq<Scope>, cur: nat, e: BiExp, reg: nat): Result<Emitted<Value>>
    requires Env(sc, cur)
    decreases e
  {
    if e.op.None? then OperandCode(sc, cur, e.left, reg)
    else
      var l :- OperandCode(sc, cur, e.left, reg);
      if e.right.None? then Throws(NullPointer)
      else
        var r :- OperandCode(sc, cur, e.right.value, l.next);
        Ok(Combine(l, r, ArithOp(e.op.value.kind)))
  }

  /**
   * Two operands' code, then the instruction `op` of the operator (if it has one)
   * into a newly allocated register.
   */
  function Combine(l: Emitted<Value>, r: Emitted<Value>, op: Option<string>): Emitted<Value> {
    var d := r.next;
    var ins := match op case Some(o) => [Arith(d, o, l.result.name, r.result.name)] case None => [];
    Emitted(l.code + r.code + ins, Value(Reg(d), i32), d + 1)
  }

  function OperandCode(sc: seq<Scope>, cur: nat, o: Operand, reg: nat): Result<Emitted<Value>>
    requires Env(sc, cur)
    decreases o
  {
    match o
    case Sub(x) => ExpCode(sc, cur, x, reg)
    case Unary(u) => UnaryCode(sc, cur, u, reg)
  }

  /** `codeGen(UnaryExp)`: `+` is the operand, `-` subtracts it from 0, `!` is an empty `i32`. */
  function UnaryCode(sc: seq<Scope>, cur: nat, u: UnaryExp, reg: nat): Result<Emitted<Value>>
    requires Env(sc, cur)
    decreases u
  {
    match u
    case Primary(_, p) => PrimaryCode(sc, cur, p, reg)
    case Call(_, _, _) => CallCode(sc, cur, u, reg)
    case Prefix(_, op, x) =>
      var v :- UnaryCode(sc, cur, x, reg);
      Prefixed(v, op.kind)
  }

  /** A prefix operator applied to its operand's code. */
  function Prefixed(v: Emitted<Value>, kind: TokenType): Result<Emitted<Value>> {
    if kind == PLUS then Ok(v)
    else if kind == MINU then
      Ok(Emitted(v.code + [Arith(v.next, "sub", "0", v.result.name)], Value(Reg(v.next), i32), v.next + 1))
    else if kind == NOT then Ok(Emitted(v.code, Value("", i32), v.next))
    else Throws(Failed("unsupported UnaryExp"))
  }

  /** `codeGen(PrimaryExp)`: literals need no code; a character prints its code (or `null`). */
  function PrimaryCode(sc: seq<Scope>, cur: nat, p: PrimaryExp, reg: nat): Result<Emitted<Value>>
    requires Env(sc, cur)
    decreases p
  {
    match p
    case Paren(_, e) => ExpCode(sc, cur, e, reg)
    case LvalExp(_, l) => LvalCode(sc, cur, l, reg)
    case Character(_, t) =>
      var c :- GetASCII(t.text);
      Ok(Emitted([], Value(OptIntText(c), i32), reg))
    case Number(_, t) => Ok(Emitted([], Value(t.text, i32), reg))
  }

  /**
   * `codeGen(Lval)`: a scalar is loaded; a bare array name is the address of its
   * element 0; an indexed element is addressed, then loaded.
   */
  function LvalCode(sc: seq<Scope>, cur: nat, l: Lval, reg: nat): Result<Emitted<Value>>
    requires Env(sc, cur)
    decreases l
  {
    var s :- FindValue(sc, cur, l.name);
    var vt := s.symType.vtype;
    if l.index.None? then
      if vt.arrayLength.None? then Ok(LoadScalar(vt, IrText(s), reg))
      else ElementAddress(s, vt, Value("0", i32), reg)
    else
      var idx :- ExpCode(sc, cur, l.index.value, reg);
      var addr :- ElementAddress(s, vt, idx.result, idx.next);
      var ld := LoadScalar(vt, addr.result.name, addr.next);
      Ok(Emitted(idx.code + addr.code + ld.code, ld.result, ld.next))
  }

  /**
   * A call `f(args)`: the arguments, then the call; a `char` result is
   * sign-extended. A `void` call has no register and an empty `void` value.
   */
  function CallCode(sc: seq<Scope>, cur: nat, u: UnaryExp, reg: nat): Result<Emitted<Value>>
    requires Env(sc, cur) && u.Call?
    decreases u, 1
  {
    var f :- FindFunction(sc, cur, u.name);
    var a :- ArgsCode(sc, cur, u, f, 0, reg);
    Ok(Invocation(a, f.returnType, u.name))
  }

  /** The arguments' code, then the call itself. */
  function Invocation(a: Emitted<seq<Value>>, rt: ReturnType, name: string): Emitted<Value> {
    var d := a.next;
    match rt
    case VoidReturn => Emitted(a.code + [Invoke(None, "void", name, a.result)], Value("", vo), d)
    case IntReturn => Emitted(a.code + [Invoke(Some(d), "i32", name, a.result)], Value(Reg(d), i32), d + 1)
    case CharReturn => Emitted(a.code + [Invoke(Some(d), "i8", name, a.result), Sext(d + 1, Reg(d))], Value(Reg(d + 1), i32), d + 2)
  }

  /** A `char` scalar parameter receives its argument truncated. */
  function ArgumentCast(pt: ValueType, v: Value, reg: nat): Result<Emitted<Value>> {
    if pt.arrayLength.None? && pt.basic == CHR then ToI8(v, reg) else Ok(Emitted([], v, reg))
  }

  /** The arguments from index `i` on: each is generated, then its parameter type is read. */
  function ArgsCode(sc: seq<Scope>, cur: nat, u: UnaryExp, f: FunctionType, i: nat, reg: nat): Result<Emitted<seq<Value>>>
    requires Env(sc, cur) && u.Call? && i <= |u.args|
    decreases u, 0, |u.args| - i
  {
    if i == |u.args| then Ok(Emitted([], [], reg))
    else
      var a :- ExpCode(sc, cur, u.args[i], reg);
      if i >= |f.paramTypes| then Throws(IndexOutOfBounds)
      else
        var c :- ArgumentCast(f.paramTypes[i], a.result, a.next);
        var rest :- ArgsCode(sc, cur, u, f, i + 1, c.next);
        Ok(Emitted(a.code + c.code + rest.code, [c.result] + rest.result, rest.next))
  }

  // Registers: each piece of code defines fresh registers, in increasing order.

  /** The registers the instructions define, in order. */
  function Defs(code: seq<Instr>): seq<nat>
    decreases |code|
  {
    if |code| == 0 then []
    else Defs(code[..|code| - 1]) + match Dest(code[|code| - 1]) case Some(d) => [d] case None => []
  }

  /** The registers `lo`, `lo + 1`, ..., `hi - 1`. */
  function Range(lo: nat, hi: nat): (s: seq<nat>)
    requires lo <= hi
    ensures |s| == hi - lo && forall k :: 0 <= k < |s| ==> s[k] == lo + k
  {
    seq(hi - lo, k requires 0 <= k < hi - lo => lo + k)
  }

  lemma RangeSnoc(lo: nat, hi: nat)
    requires lo <= hi
    ensures Range(lo, hi + 1) == Range(lo, hi) + [hi]
  {
    assert Range(lo, hi + 1)[..hi - lo] == Range(lo, hi);
  }

  /** Strictly increasing, and all within `[lo, hi)`. */
  ghost predicate Ascending(s: seq<nat>, lo: nat, hi: nat) {
    (forall k :: 0 <= k < |s| ==> lo <= s[k] < hi) &&
    (forall j, k :: 0 <= j < k < |s| ==> s[j] < s[k])
  }

  /** An increasing run inside `[lo, hi)` with `hi - lo` members is the whole range. */
  lemma {:induction false} AscendingFull(s: seq<nat>, lo: nat, hi: nat)
    requires Ascending(s, lo, hi) && |s| == hi - lo
    ensures s == Range(lo, hi)
  {
    var k := 0;
    while k < |s|
      invariant 0 <= k <= |s|
      invariant forall j :: 0 <= j < k ==> s[j] == lo + j
    {
      if k == 0 {
        assert s[0] >= lo;
      } else {
        assert s[k] > s[k - 1];
      }
      AtLeastAbove(s, lo, hi, k);
      k := k + 1;
    }
  }

  /** The member at position `k` of an increasing run inside `[lo, hi)` is at most `hi - (|s| - k)`. */
  lemma {:induction false} AtLeastAbove(s: seq<nat>, lo: nat, hi: nat, k: nat)
    requires Ascending(s, lo, hi) && k < |s|
    ensures s[k] + (|s| - k) <= hi
    decreases |s| - k
  {
    if k + 1 < |s| {
      AtLeastAbove(s, lo, hi, k + 1);
    }
  }

  /** The instructions expression code is made of: it computes, but allocates, stores and returns nothing. */
  predicate Computes(i: Instr) {
    i.Load? || i.ElementPtr? || i.Arith? || i.Sext? || i.Trunc? || i.Invoke?
  }

  ghost predicate OnlyComputes(code: seq<Instr>) {
    forall k :: 0 <= k < |code| ==> Computes(code[k])
  }

  /**
   * Code that took registers `reg` to `next`: it only computes, what it defines is
   * fresh and increasing and, when `exact`, is as many registers as it took (so every
   * one of them, by `AscendingFull`).
   */
  ghost predicate Fresh<T>(r: Result<Emitted<T>>, reg: nat, exact: bool) {
    r.Ok? ==>
      reg <= r.value.next && OnlyComputes(r.value.code) && Ascending(Defs(r.value.code), reg, r.value.next) &&
      (exact ==> |Defs(r.value.code)| == r.value.next - reg)
  }

  /** An expression's value is an `i32`, the address of an element, or a `void` call's empty value. */
  ghost predicate ValueKind(v: Value) {
    v.ty == i32 || v.ty == i32ptr || v.ty == i8ptr || v.ty == vo
  }

  ghost predicate ExpFacts(r: Result<Emitted<Value>>, reg: nat, exact: bool) {
    Fresh(r, reg, exact) && (r.Ok? ==> ValueKind(r.value.result))
  }

  /** Every binary operator in the expression is one the generator lowers (`+ - * / %`). */
  ghost predicate LoweredExp(e: BiExp)
    decreases e
  {
    (e.op.Some? ==> ArithOp(e.op.value.kind).Some?) &&
    LoweredOperand(e.left) && (e.right.Some? ==> LoweredOperand(e.right.value))
  }

  ghost predicate LoweredOperand(o: Operand)
    decreases o
  {
    match o
    case Sub(x) => LoweredExp(x)
    case Unary(u) => LoweredUnary(u)
  }

  ghost predicate LoweredUnary(u: UnaryExp)
    decreases u
  {
    match u
    case Primary(_, p) => LoweredPrimary(p)
    case Call(_, _, args) => forall k :: 0 <= k < |args| ==> LoweredExp(args[k])
    case Prefix(_, _, x) => LoweredUnary(x)
  }

  ghost predicate LoweredPrimary(p: PrimaryExp)
    decreases p
  {
    match p
    case Paren(_, e) => LoweredExp(e)
    case LvalExp(_, l) => l.index.Some? ==> LoweredExp(l.index.value)
    case _ => true
  }

  lemma {:induction false} DefsAppend(a: seq<Instr>, b: seq<Instr>)
    ensures Defs(a + b) == Defs(a) + Defs(b)
    decreases |b|
  {
    if |b| > 0 {
      var c := a + b;
      assert c[..|c| - 1] == a + b[..|b| - 1];
      DefsAppend(a, b[..|b| - 1]);
    } else {
      assert a + b == a;
    }
  }

  lemma DefsOne(i: Instr)
    ensures Defs([i]) == match Dest(i) case Some(d) => [d] case None => []
  {
    assert [i][..0] == [];
  }

  /** Two pieces of code, one after the other, keep the register discipline. */
  lemma {:induction false} JoinFresh(c1: seq<Instr>, c2: seq<Instr>, lo: nat, mid: nat, hi: nat, exact1: bool, exact2: bool)
    requires lo <= mid <= hi
    requires OnlyComputes(c1) && Ascending(Defs(c1), lo, mid) && (exact1 ==> |Defs(c1)| == mid - lo)
    requires OnlyComputes(c2) && Ascending(Defs(c2), mid, hi) && (exact2 ==> |Defs(c2)| == hi - mid)
    ensures OnlyComputes(c1 + c2) && Ascending(Defs(c1 + c2), lo, hi)
    ensures exact1 && exact2 ==> |Defs(c1 + c2)| == hi - lo
  {
    DefsAppend(c1, c2);
    var a, b := Defs(c1), Defs(c2);
    forall j, k | 0 <= j < k < |a + b|
      ensures (a + b)[j] < (a + b)[k]
    {
      if k < |a| {
      } else if j >= |a| {
        assert (a + b)[j] == b[j - |a|] && (a + b)[k] == b[k - |a|];
      } else {
        assert (a + b)[j] == a[j] && (a + b)[k] == b[k - |a|];
      }
    }
  }

  lemma LoadScalarRegisters(vt: ValueType, ptr: string, reg: nat)
    ensures Fresh(Ok(LoadScalar(vt, ptr, reg)), reg, true)
  {
    if vt.basic == INT {
      DefsOne(Load(reg, "i32", ptr));
    } else {
      TwoDefs(Load(reg, "i8", ptr), Sext(reg + 1, Reg(reg)), reg);
    }
  }

  /**
   * The code of `getElementPtr`: an array parameter's pointer is loaded and then
   * indexed once; a declared array is indexed from `0` and then by `index`.
   */
  lemma ElementAddressCode(s: Symbol, vt: ValueType, index: Value, reg: nat)
    requires vt.arrayLength.Some?
    ensures var t := BasicText(vt); var code := ElementAddress(s, vt, index, reg).value.code;
      if vt.arrayLength.value == 0 then code == [Load(reg, t + "*", IrText(s)), ElementPtr(reg + 1, t, Reg(reg), [index.name])]
      else code == [ElementPtr(reg, VarTypeText(vt), IrText(s), ["0", index.name])]
  {
  }

  lemma ElementAddressRegisters(s: Symbol, vt: ValueType, index: Value, reg: nat)
    ensures Fresh(ElementAddress(s, vt, index, reg), reg, true)
  {
    if vt.arrayLength == Some(0) {
      var i1, i2 := Load(reg, BasicText(vt) + "*", IrText(s)), ElementPtr(reg + 1, BasicText(vt), Reg(reg), [index.name]);
      TwoDefs(i1, i2, reg);
    } else if vt.arrayLength.Some? {
      DefsOne(ElementPtr(reg, VarTypeText(vt), IrText(s), ["0", index.name]));
    }
  }

  /** Two instructions defining `reg` and `reg + 1`. */
  lemma TwoDefs(i1: Instr, i2: Instr, reg: nat)
    requires Dest(i1) == Some(reg) && Dest(i2) == Some(reg + 1)
    ensures Defs([i1, i2]) == [reg, reg + 1]
  {
    DefsOne(i1);
    DefsOne(i2);
    DefsAppend([i1], [i2]);
    assert [i1] + [i2] == [i1, i2];
  }

  lemma CastRegisters(pt: ValueType, v: Value, reg: nat)
    ensures Fresh(ArgumentCast(pt, v, reg), reg, true)
  {
    DefsOne(Trunc(reg, v.name));
  }

  /**
   * Generated expression code only computes (no `alloca`, `store` or `ret`); it
   * defines fresh registers in increasing order, below the next free one, and, when
   * every binary operator is lowered, exactly the registers it took. Its value is an
   * `i32`, an element address or a `void` call's empty value.
   */
  lemma {:induction false} ExpRegisters(sc: seq<Scope>, cur: nat, e: BiExp, reg: nat)
    requires Env(sc, cur)
    ensures ExpFacts(ExpCode(sc, cur, e, reg), reg, LoweredExp(e))
    decreases e
  {
    OperandRegisters(sc, cur, e.left, reg);
    if e.op.Some? && e.right.Some? {
      var lr := OperandCode(sc, cur, e.left, reg);
      if lr.Ok? {
        OperandRegisters(sc, cur, e.right.value, lr.value.next);
        var rr := OperandCode(sc, cur, e.right.value, lr.value.next);
        if rr.Ok? {
          CombineRegisters(lr.value, rr.value, ArithOp(e.op.value.kind), reg, LoweredOperand(e.left), LoweredOperand(e.right.value));
        }
      }
    }
  }

  lemma CombineRegisters(l: Emitted<Value>, r: Emitted<Value>, op: Option<string>, reg: nat, exl: bool, exr: bool)
    requires Fresh(Ok(l), reg, exl) && Fresh(Ok(r), l.next, exr)
    ensures Fresh(Ok(Combine(l, r, op)), reg, exl && exr && op.Some?)
  {
    var d := r.next;
    var ins := match op case Some(o) => [Arith(d, o, l.result.name, r.result.name)] case None => [];
    if ins != [] {
      DefsOne(ins[0]);
      assert [ins[0]] == ins;
    }
    JoinThree(l.code, r.code, ins, reg, l.next, d, d + 1, exl, exr, ins != []);
    FreshOf(Combine(l, r, op), l.code + r.code + ins, reg, exl && exr && op.Some?);
  }

  /** Three pieces of code, one after the other, keep the register discipline. */
  lemma JoinThree(c1: seq<Instr>, c2: seq<Instr>, c3: seq<Instr>, lo: nat, m1: nat, m2: nat, hi: nat,
                  exact1: bool, exact2: bool, exact3: bool)
    requires lo <= m1 <= m2 <= hi
    requires OnlyComputes(c1) && Ascending(Defs(c1), lo, m1) && (exact1 ==> |Defs(c1)| == m1 - lo)
    requires OnlyComputes(c2) && Ascending(Defs(c2), m1, m2) && (exact2 ==> |Defs(c2)| == m2 - m1)
    requires OnlyComputes(c3) && Ascending(Defs(c3), m2, hi) && (exact3 ==> |Defs(c3)| == hi - m2)
    ensures OnlyComputes(c1 + c2 + c3) && Ascending(Defs(c1 + c2 + c3), lo, hi)
    ensures exact1 && exact2 && exact3 ==> |Defs(c1 + c2 + c3)| == hi - lo
  {
    JoinFresh(c1, c2, lo, m1, m2, exact1, exact2);
    JoinFresh(c1 + c2, c3, lo, m2, hi, exact1 && exact2, exact3);
  }

  /** The facts `Fresh` asks of a piece of code, stated about the code itself. */
  lemma FreshOf<T>(e: Emitted<T>, c: seq<Instr>, reg: nat, exact: bool)
    requires e.code == c && reg <= e.next && OnlyComputes(c) && Ascending(Defs(c), reg, e.next)
    requires exact ==> |Defs(c)| == e.next - reg
    ensures Fresh(Ok(e), reg, exact)
  {
  }

  lemma {:induction false} OperandRegisters(sc: seq<Scope>, cur: nat, o: Operand, reg: nat)
    requires Env(sc, cur)
    ensures ExpFacts(OperandCode(sc, cur, o, reg), reg, LoweredOperand(o))
    decreases o
  {
    match o
    case Sub(x) => ExpRegisters(sc, cur, x, reg);
    case Unary(u) => UnaryRegisters(sc, cur, u, reg);
  }

  lemma {:induction false} UnaryRegisters(sc: seq<Scope>, cur: nat, u: UnaryExp, reg: nat)
    requires Env(sc, cur)
    ensures ExpFacts(UnaryCode(sc, cur, u, reg), reg, LoweredUnary(u))
    decreases u
  {
    match u
    case Primary(_, p) => PrimaryRegisters(sc, cur, p, reg);
    case Call(_, _, _) => CallRegisters(sc, cur, u, reg);
    case Prefix(_, op, x) =>
      UnaryRegisters(sc, cur, x, reg);
      var vr := UnaryCode(sc, cur, x, reg);
      if vr.Ok? {
        PrefixedRegisters(vr.value, op.kind, reg, LoweredUnary(x));
      }
  }

  lemma PrefixedRegisters(v: Emitted<Value>, kind: TokenType, reg: nat, ex: bool)
    requires Fresh(Ok(v), reg, ex) && ValueKind(v.result)
    ensures ExpFacts(Prefixed(v, kind), reg, ex)
  {
    if kind == MINU {
      var i := Arith(v.next, "sub", "0", v.result.name);
      DefsOne(i);
      JoinFresh(v.code, [i], reg, v.next, v.next + 1, ex, true);
    }
  }

  lemma {:induction false} PrimaryRegisters(sc: seq<Scope>, cur: nat, p: PrimaryExp, reg: nat)
    requires Env(sc, cur)
    ensures ExpFacts(PrimaryCode(sc, cur, p, reg), reg, LoweredPrimary(p))
    decreases p
  {
    match p
    case Paren(_, e) => ExpRegisters(sc, cur, e, reg);
    case LvalExp(_, l) => LvalRegisters(sc, cur, l, reg);
    case Character(_, _) =>
    case Number(_, _) =>
  }

  lemma {:induction false} LvalRegisters(sc: seq<Scope>, cur: nat, l: Lval, reg: nat)
    requires Env(sc, cur)
    ensures ExpFacts(LvalCode(sc, cur, l, reg), reg, l.index.Some? ==> LoweredExp(l.index.value))
    decreases l
  {
    var sr := FindValue(sc, cur, l.name);
    if sr.Ok? {
      var s := sr.value;
      var vt := s.symType.vtype;
      if l.index.None? {
        LoadScalarRegisters(vt, IrText(s), reg);
        ElementAddressRegisters(s, vt, Value("0", i32), reg);
      } else {
        ExpRegisters(sc, cur, l.index.value, reg);
        var ir := ExpCode(sc, cur, l.index.value, reg);
        if ir.Ok? {
          var idx := ir.value;
          ElementAddressRegisters(s, vt, idx.result, idx.next);
          var ar := ElementAddress(s, vt, idx.result, idx.next);
          if ar.Ok? {
            var addr := ar.value;
            var ld := LoadScalar(vt, addr.result.name, addr.next);
            LoadScalarRegisters(vt, addr.result.name, addr.next);
            JoinFresh(idx.code, addr.code, reg, idx.next, addr.next, LoweredExp(l.index.value), true);
            JoinFresh(idx.code + addr.code, ld.code, reg, addr.next, ld.next, LoweredExp(l.index.value), true);
          }
        }
      }
    }
  }

  lemma {:induction false} CallRegisters(sc: seq<Scope>, cur: nat, u: UnaryExp, reg: nat)
    requires Env(sc, cur) && u.Call?
    ensures ExpFacts(CallCode(sc, cur, u, reg), reg, LoweredUnary(u))
    decreases u, 1
  {
    var fr := FindFunction(sc, cur, u.name);
    if fr.Ok? {
      ArgsRegisters(sc, cur, u, fr.value, 0, reg);
      var ar := ArgsCode(sc, cur, u, fr.value, 0, reg);
      if ar.Ok? {
        InvocationRegisters(ar.value, fr.value.returnType, u.name, reg, LoweredUnary(u));
      }
    }
  }

  lemma InvocationRegisters(a: Emitted<seq<Value>>, rt: ReturnType, name: string, reg: nat, ex: bool)
    requires Fresh(Ok(a), reg, ex)
    ensures Fresh(Ok(Invocation(a, rt, name)), reg, ex) && ValueKind(Invocation(a, rt, name).result)
  {
    var d := a.next;
    match rt
    case VoidReturn =>
      var i := Invoke(None, "void", name, a.result);
      DefsOne(i);
      JoinFresh(a.code, [i], reg, d, d, ex, true);
    case IntReturn =>
      var i := Invoke(Some(d), "i32", name, a.result);
      DefsOne(i);
      JoinFresh(a.code, [i], reg, d, d + 1, ex, true);
    case CharReturn =>
      var i, j := Invoke(Some(d), "i8", name, a.result), Sext(d + 1, Reg(d));
      TwoDefs(i, j, d);
      JoinFresh(a.code, [i, j], reg, d, d + 2, ex, true);
  }

  lemma {:induction false} ArgsRegisters(sc: seq<Scope>, cur: nat, u: UnaryExp, f: FunctionType, i: nat, reg: nat)
    requires Env(sc, cur) && u.Call? && i <= |u.args|
    ensures Fresh(ArgsCode(sc, cur, u, f, i, reg), reg, LoweredUnary(u))
    decreases u, 0, |u.args| - i
  {
    if i < |u.args| {
      ExpRegisters(sc, cur, u.args[i], reg);
      var ar := ExpCode(sc, cur, u.args[i], reg);
      if ar.Ok? && i < |f.paramTypes| {
        var a := ar.value;
        CastRegisters(f.paramTypes[i], a.result, a.next);
        var cr := ArgumentCast(f.paramTypes[i], a.result, a.next);
        if cr.Ok? {
          var c := cr.value;
          ArgsRegisters(sc, cur, u, f, i + 1, c.next);
          var rr := ArgsCode(sc, cur, u, f, i + 1, c.next);
          if rr.Ok? {
            var rest := rr.value;
            JoinFresh(a.code, c.code, reg, a.next, c.next, LoweredUnary(u), true);
            JoinFresh(a.code + c.code, rest.code, reg, c.next, rest.next, LoweredUnary(u), LoweredUnary(u));
          }
        }
      }
    }
  }

  // Leaf statements: code that reads the table but leaves it alone.

  /** Where an assignment or a read stores: the variable's slot, or the indexed element's address. */
  function Target(sc: seq<Scope>, cur: nat, l: Lval, reg: nat): Result<Emitted<Value>>
    requires Env(sc, cur)
  {
    var s :- FindValue(sc, cur, l.name);
    var vt := s.symType.vtype;
    if l.index.None? then Ok(Emitted([], Value(IrText(s), PointerTo(vt)), reg))
    else
      var idx :- ExpCode(sc, cur, l.index.value, reg);
      var addr :- ElementAddress(s, vt, idx.result, idx.next);
      Ok(Emitted(idx.code + addr.code, addr.result, addr.next))
  }

  /** Storing `v` at `addr`, truncated first when the target is a `char`. */
  function StoreCode(isChar: bool, v: Value, reg: nat, addr: Value): Result<Emitted<()>> {
    var c :- if isChar then ToI8(v, reg) else Ok(Emitted([], v, reg));
    Ok(Emitted(c.code + [Store(TypeText(c.result.ty), c.result.name, TypeText(addr.ty), addr.name)], (), c.next))
  }

  /** `lval = exp;`: the target first, then the value and its store. */
  function AssignCode(sc: seq<Scope>, cur: nat, l: Lval, e: BiExp, reg: nat): Result<Emitted<()>>
    requires Env(sc, cur)
  {
    var t :- Target(sc, cur, l, reg);
    var st :- AssignedCode(sc, cur, t.result, e, t.next);
    Ok(Emitted(t.code + st.code, (), st.next))
  }

  /** The value of `e` stored at the address `addr`, as a `char` when `addr` points to one. */
  function AssignedCode(sc: seq<Scope>, cur: nat, addr: Value, e: BiExp, reg: nat): Result<Emitted<()>>
    requires Env(sc, cur)
  {
    var v :- ExpCode(sc, cur, e, reg);
    var st :- StoreCode(addr.ty == i8ptr, v.result, v.next, addr);
    Ok(Emitted(v.code + st.code, (), st.next))
  }

  /** `lval = getint();` and `lval = getchar();`: the target, the library call, the store. */
  function ReadCode(sc: seq<Scope>, cur: nat, l: Lval, callee: string, reg: nat): Result<Emitted<()>>
    requires Env(sc, cur)
  {
    var t :- Target(sc, cur, l, reg);
    var st :- ReadIntoCode(t.result, callee, t.next);
    Ok(Emitted(t.code + st.code, (), st.next))
  }

  /** The library call's `i32` result in register `reg`, stored at `addr`. */
  function ReadIntoCode(addr: Value, callee: string, reg: nat): Result<Emitted<()>> {
    var st :- StoreCode(addr.ty == i8ptr, Value(Reg(reg), i32), reg + 1, addr);
    Ok(Emitted([Invoke(Some(reg), "i32", callee, [])] + st.code, (), st.next))
  }

  /** `return [exp];`: a `char` function truncates the value it returns. */
  function ReturnCode(sc: seq<Scope>, cur: nat, e: Option<BiExp>, reg: nat): Result<Emitted<()>>
    requires Env(sc, cur)
  {
    match e
    case None => Ok(Emitted([Ret(None)], (), reg))
    case Some(x) =>
      var v :- ExpCode(sc, cur, x, reg);
      if cur == 0 then Throws(NullPointer)
      else if sc[cur - 1].returnType == Some(CharReturn) then
        var c :- ToI8(v.result, v.next);
        Ok(Emitted(v.code + c.code + [Ret(Some(c.result))], (), c.next))
      else Ok(Emitted(v.code + [Ret(Some(v.result))], (), v.next))
  }

  /** `outputAChar` and `outputANumber`: only an `i32` may be printed. */
  function Output(v: Value, callee: string): Result<seq<Instr>> {
    if v.ty.basic != I32 then Throws(Failed("output")) else Ok([Invoke(None, "void", callee, [v])])
  }

  /** One `%c` (`putch`) or `%d` (`putint`): the argument's code, then its output. */
  function PlaceholderCode(sc: seq<Scope>, cur: nat, arg: BiExp, isChar: bool, reg: nat): Result<Emitted<()>>
    requires Env(sc, cur)
  {
    var v :- ExpCode(sc, cur, arg, reg);
    var o :- Output(v.result, if isChar then "putch" else "putint");
    Ok(Emitted(v.code + o, (), v.next))
  }

  function Putch(code: string): Instr {
    Invoke(None, "void", "putch", [Value(code, i32)])
  }

  /**
   * The `printf` loop from position `i` of the format text `f` (quotes removed) with
   * `k` arguments used: `%c` and `%d` take the next argument, `\n` prints 10 and any
   * other character prints its code. The result is the number of arguments used.
   */
  function PrintfCode(sc: seq<Scope>, cur: nat, f: string, args: seq<BiExp>, i: nat, k: nat, reg: nat): Result<Emitted<nat>>
    requires Env(sc, cur) && i <= |f|
    decreases |f| - i
  {
    if i == |f| then Ok(Emitted([], k, reg))
    else if i < |f| - 1 && f[i] == '%' && (f[i + 1] == 'c' || f[i + 1] == 'd') then
      if k >= |args| then Throws(IndexOutOfBounds)
      else
        var p :- PlaceholderCode(sc, cur, args[k], f[i + 1] == 'c', reg);
        var rest :- PrintfCode(sc, cur, f, args, i + 2, k + 1, p.next);
        Ok(Emitted(p.code + rest.code, rest.result, rest.next))
    else if i < |f| - 1 && f[i] == '\\' && f[i + 1] == 'n' then
      var rest :- PrintfCode(sc, cur, f, args, i + 2, k, reg);
      Ok(Emitted([Putch("10")] + rest.code, rest.result, rest.next))
    else
      var rest :- PrintfCode(sc, cur, f, args, i + 1, k, reg);
      Ok(Emitted([Putch(IntToString(f[i] as int))] + rest.code, rest.result, rest.next))
  }

  /** `printf(format, args);`: the token text loses its quotes (`substring` throws below two characters). */
  function PrintfStmtCode(sc: seq<Scope>, cur: nat, format: Token, args: seq<BiExp>, reg: nat): Result<Emitted<()>>
    requires Env(sc, cur)
  {
    var t := format.text;
    if |t| < 2 then Throws(IndexOutOfBounds)
    else
      var p :- PrintfCode(sc, cur, t[1..|t| - 1], args, 0, 0, reg);
      Ok(Emitted(p.code, (), p.next))
  }

  /**
   * The statements that leave the table alone; `if`, `for`, `break` and `continue`
   * are not supported and throw. (Blocks are handled by the generator object.)
   */
  function SimpleStmtCode(sc: seq<Scope>, cur: nat, s: Stmt, reg: nat): Result<Emitted<()>>
    requires Env(sc, cur) && !s.BlockStmt?
  {
    match s
    case Assign(_, l, e) => AssignCode(sc, cur, l, e, reg)
    case ExpStmt(_, e) =>
      if e.None? then Ok(Emitted([], (), reg))
      else var v :- ExpCode(sc, cur, e.value, reg); Ok(Emitted(v.code, (), v.next))
    case Return(_, e) => ReturnCode(sc, cur, e, reg)
    case GetInt(_, l) => ReadCode(sc, cur, l, "getint", reg)
    case GetChar(_, l) => ReadCode(sc, cur, l, "getchar", reg)
    case Printf(_, format, args) => PrintfStmtCode(sc, cur, format, args, reg)
    case _ => Throws(Failed("unsupported statement"))
  }

  // What the statement code promises.

  /** The address a target yields points to the variable's element type. */
  lemma TargetType(sc: seq<Scope>, cur: nat, l: Lval, reg: nat)
    requires Env(sc, cur)
    ensures Target(sc, cur, l, reg).Ok? ==>
      FindValue(sc, cur, l.name).Ok? &&
      Target(sc, cur, l, reg).value.result.ty == PointerTo(FindValue(sc, cur, l.name).value.symType.vtype)
  {
  }

  /**
   * A store into a `char` variable or element stores the `i8` a `trunc` just made;
   * into an `int` one it stores the value as it is. Either way it stores at the target.
   */
  lemma {:induction false} StoreNarrowsChars(isChar: bool, v: Value, reg: nat, addr: Value)
    ensures var r := StoreCode(isChar, v, reg, addr);
      (r.Ok? <==> !isChar || v.ty.basic == I32) &&
      (r.Ok? && isChar ==> r.value.code == [Trunc(reg, v.name), Store("i8", Reg(reg), TypeText(addr.ty), addr.name)]) &&
      (r.Ok? && !isChar ==> r.value.code == [Store(TypeText(v.ty), v.name, TypeText(addr.ty), addr.name)])
  {
    if isChar && v.ty.basic == I32 {
      assert TypeText(i8) == "i8";
    }
  }

  /** Placeholders preceded by a character that is not `%` are those after it. */
  lemma PlaceholdersSkip(s: string)
    requires |s| >= 1 && s[0] != '%'
    ensures Semantics.Placeholders(s) == Semantics.Placeholders(s[1..])
  {
  }

  /**
   * The `printf` loop uses exactly one argument per placeholder of the rest of the
   * format text: it throws when there are too few and otherwise ends having used them.
   */
  lemma {:induction false} PrintfUsesPlaceholders(sc: seq<Scope>, cur: nat, f: string, args: seq<BiExp>, i: nat, k: nat, reg: nat)
    requires Env(sc, cur) && i <= |f| && k <= |args|
    ensures k + Semantics.Placeholders(f[i..]) > |args| ==> PrintfCode(sc, cur, f, args, i, k, reg).Throws?
    ensures PrintfCode(sc, cur, f, args, i, k, reg).Ok? ==> PrintfCode(sc, cur, f, args, i, k, reg).value.result == k + Semantics.Placeholders(f[i..])
    decreases |f| - i
  {
    if i < |f| {
      var rest := f[i..];
      assert rest[1..] == f[i + 1..];
      if i < |f| - 1 && f[i] == '%' && (f[i + 1] == 'c' || f[i + 1] == 'd') {
        PlaceholdersSkip(f[i + 1..]);
        assert f[i + 1..][1..] == f[i + 2..];
        if k < |args| {
          var v := PlaceholderCode(sc, cur, args[k], f[i + 1] == 'c', reg);
          if v.Ok? {
            PrintfUsesPlaceholders(sc, cur, f, args, i + 2, k + 1, v.value.next);
          }
        }
      } else if i < |f| - 1 && f[i] == '\\' && f[i + 1] == 'n' {
        PlaceholdersSkip(rest);
        PlaceholdersSkip(f[i + 1..]);
        assert f[i + 1..][1..] == f[i + 2..];
        PrintfUsesPlaceholders(sc, cur, f, args, i + 2, k, reg);
      } else {
        assert Semantics.Placeholders(rest) == Semantics.Placeholders(f[i + 1..]);
        PrintfUsesPlaceholders(sc, cur, f, args, i + 1, k, reg);
      }
    }
  }

  /** A closing character that is not `c` or `d` adds no placeholder. */
  lemma {:induction false} PlaceholdersDropLast(s: string, c: char)
    requires c != 'c' && c != 'd'
    ensures Semantics.Placeholders(s + [c]) == Semantics.Placeholders(s)
    decreases |s|
  {
    if |s| >= 1 {
      assert (s + [c])[1..] == s[1..] + [c];
      PlaceholdersDropLast(s[1..], c);
    }
  }

  /**
   * What the analyser counts in a quoted format token is what the generator finds
   * between the quotes; so a `printf` the analyser accepted (as many arguments as
   * placeholders) uses every argument.
   */
  lemma {:induction false} PrintfUsesAllArguments(sc: seq<Scope>, cur: nat, format: Token, args: seq<BiExp>, reg: nat)
    requires Env(sc, cur)
    requires |format.text| >= 2 && format.text[0] == '"' && format.text[|format.text| - 1] == '"'
    requires Semantics.Placeholders(format.text) == |args|
    ensures var t := format.text;
      PrintfCode(sc, cur, t[1..|t| - 1], args, 0, 0, reg).Ok? ==> PrintfCode(sc, cur, t[1..|t| - 1], args, 0, 0, reg).value.result == |args|
  {
    var t := format.text;
    var inner := t[1..|t| - 1];
    PlaceholdersSkip(t);
    assert t[1..] == inner + ['"'];
    PlaceholdersDropLast(inner, '"');
    PrintfUsesPlaceholders(sc, cur, inner, args, 0, 0, reg);
    assert inner[0..] == inner;
  }

  // The generator object.

  /** The generator kept `spec`'s promise: the same exception, or its value, code and next register. */
  ghost predicate Follows<T>(spec: Result<Emitted<T>>, r: Result<T>, before: seq<Instr>, after: seq<Instr>, reg: nat) {
    match spec
    case Throws(x) => r == Throws(x)
    case Ok(em) => r == Ok(em.result) && after == before + em.code && reg == em.next
  }

  /** Code that is `f` then `second`, run as `f` followed by `second`, follows the whole. */
  lemma Sequenced<A, B>(whole: Result<Emitted<B>>, f: Emitted<A>, second: Result<Emitted<B>>, r: Result<B>,
                        o0: seq<Instr>, o1: seq<Instr>, o2: seq<Instr>, reg: nat)
    requires whole == match second case Throws(x) => Throws(x) case Ok(t) => Ok(Emitted(f.code + t.code, t.result, t.next))
    requires o1 == o0 + f.code && Follows(second, r, o1, o2, reg)
    ensures Follows(whole, r, o0, o2, reg)
  {
    if second.Ok? {
      assert o2 == o0 + (f.code + second.value.code);
    }
  }

  /** An assignment once its target is known. */
  lemma AssignSplit(sc: seq<Scope>, cur: nat, l: Lval, e: BiExp, reg: nat, t: Emitted<Value>)
    requires Env(sc, cur) && Target(sc, cur, l, reg) == Ok(t)
    ensures AssignCode(sc, cur, l, e, reg) ==
      match AssignedCode(sc, cur, t.result, e, t.next)
      case Throws(x) => Throws(x)
      case Ok(st) => Ok(Emitted(t.code + st.code, st.result, st.next))
  {
  }

  /** A read once its target is known. */
  lemma ReadSplit(sc: seq<Scope>, cur: nat, l: Lval, callee: string, reg: nat, t: Emitted<Value>)
    requires Env(sc, cur) && Target(sc, cur, l, reg) == Ok(t)
    ensures ReadCode(sc, cur, l, callee, reg) ==
      match ReadIntoCode(t.result, callee, t.next)
      case Throws(x) => Throws(x)
      case Ok(st) => Ok(Emitted(t.code + st.code, st.result, st.next))
  {
  }

  /** A local definition is its slot's `alloca`, then its initial value. */
  lemma LocalDefSplit(sc: seq<Scope>, cur: nat, s: Symbol, init: Option<InitVal>, reg: nat)
    requires Env(sc, cur) && s.symType.ValueSym?
    ensures LocalDefCode(sc, cur, s, init, reg) ==
      match LocalInitCode(sc, cur, s, init, reg)
      case Throws(x) => Throws(x)
      case Ok(v) => Ok(Emitted([Alloca(reg, VarTypeText(s.symType.vtype))] + v.code, v.result, v.next))
  {
  }

  /** An array element once its address is known. */
  lemma ElementSplit(sc: seq<Scope>, cur: nat, s: Symbol, init: Option<InitVal>, i: nat, reg: nat, a: Emitted<Value>)
    requires Env(sc, cur) && s.symType.ValueSym? && ElementAddress(s, s.symType.vtype, Value(IntToString(i), i32), reg) == Ok(a)
    ensures ElementCode(sc, cur, s, init, i, reg) ==
      match ElementInitCode(sc, cur, s.symType.vtype, s.constValues, init, i, BasicText(s.symType.vtype), a.result.name, a.next)
      case Throws(x) => Throws(x)
      case Ok(st) => Ok(Emitted(a.code + st.code, st.result, st.next))
  {
  }

  /**
   * Part of a loop over a list: `whole` is what the full list gives, `rest` what the
   * items not yet handled give after `done` was collected and `now` printed.
   */
  ghost predicate Resumes<T>(whole: Result<Emitted<seq<T>>>, rest: Result<Emitted<seq<T>>>, before: seq<Instr>, now: seq<Instr>, done: seq<T>) {
    match whole
    case Throws(x) => rest == Throws(x)
    case Ok(w) =>
      rest.Ok? && before + w.code == now + rest.value.code && w.result == done + rest.value.result && w.next == rest.value.next
  }

  /** One argument handled: the rest of the list is what follows its code. */
  lemma ArgsStep(sc: seq<Scope>, cur: nat, u: UnaryExp, ft: FunctionType, i: nat, reg: nat, a: Emitted<Value>, c: Emitted<Value>)
    requires Env(sc, cur) && u.Call? && i < |u.args| && i < |ft.paramTypes|
    requires ExpCode(sc, cur, u.args[i], reg) == Ok(a)
    requires ArgumentCast(ft.paramTypes[i], a.result, a.next) == Ok(c)
    ensures ArgsCode(sc, cur, u, ft, i, reg) ==
      match ArgsCode(sc, cur, u, ft, i + 1, c.next)
      case Throws(x) => Throws(x)
      case Ok(rest) => Ok(Emitted(a.code + c.code + rest.code, [c.result] + rest.result, rest.next))
  {
  }

  lemma ResumesStep<T>(whole: Result<Emitted<seq<T>>>, rest: Result<Emitted<seq<T>>>, rest': Result<Emitted<seq<T>>>,
                       before: seq<Instr>, now: seq<Instr>, now': seq<Instr>, done: seq<T>, v: T, piece: seq<Instr>)
    requires Resumes(whole, rest, before, now, done)
    requires rest == match rest' case Throws(x) => Throws(x) case Ok(r) => Ok(Emitted(piece + r.code, [v] + r.result, r.next))
    requires now' == now + piece
    ensures Resumes(whole, rest', before, now', done + [v])
  {
    if whole.Ok? {
      var w, r := whole.value, rest'.value;
      assert now + (piece + r.code) == now' + r.code;
      assert done + ([v] + r.result) == (done + [v]) + r.result;
    }
  }

  /** A loop so far: `rest` is what the part not yet handled gives, after `now` was printed. */
  ghost predicate Continues<T>(whole: Result<Emitted<T>>, rest: Result<Emitted<T>>, before: seq<Instr>, now: seq<Instr>) {
    match whole
    case Throws(x) => rest == Throws(x)
    case Ok(w) => rest.Ok? && before + w.code == now + rest.value.code && w.result == rest.value.result && w.next == rest.value.next
  }

  lemma ContinuesStep<T>(whole: Result<Emitted<T>>, rest: Result<Emitted<T>>, rest': Result<Emitted<T>>,
                         before: seq<Instr>, now: seq<Instr>, now': seq<Instr>, piece: seq<Instr>)
    requires Continues(whole, rest, before, now)
    requires rest == match rest' case Throws(x) => Throws(x) case Ok(r) => Ok(Emitted(piece + r.code, r.result, r.next))
    requires now' == now + piece
    ensures Continues(whole, rest', before, now')
  {
    if whole.Ok? {
      assert now + (piece + rest'.value.code) == now' + rest'.value.code;
    }
  }

  /** A placeholder handled: the rest of the text follows its argument's code and output. */
  lemma PrintfArgStep(sc: seq<Scope>, cur: nat, f: string, args: seq<BiExp>, i: nat, k: nat, reg: nat, p: Emitted<()>)
    requires Env(sc, cur) && i < |f| - 1 && f[i] == '%' && (f[i + 1] == 'c' || f[i + 1] == 'd') && k < |args|
    requires PlaceholderCode(sc, cur, args[k], f[i + 1] == 'c', reg) == Ok(p)
    ensures PrintfCode(sc, cur, f, args, i, k, reg) ==
      match PrintfCode(sc, cur, f, args, i + 2, k + 1, p.next)
      case Throws(x) => Throws(x)
      case Ok(rest) => Ok(Emitted(p.code + rest.code, rest.result, rest.next))
  {
  }

  /** A character (or `\\n`) handled: the rest of the text follows one `putch`. */
  lemma PrintfCharStep(sc: seq<Scope>, cur: nat, f: string, args: seq<BiExp>, i: nat, k: nat, reg: nat, step: nat, c: string)
    requires Env(sc, cur) && i < |f| && i + step <= |f|
    requires !(i < |f| - 1 && f[i] == '%' && (f[i + 1] == 'c' || f[i + 1] == 'd'))
    requires var nl := i < |f| - 1 && f[i] == '\\' && f[i + 1] == 'n';
      (nl && step == 2 && c == "10") || (!nl && step == 1 && c == IntToString(f[i] as int))
    ensures PrintfCode(sc, cur, f, args, i, k, reg) ==
      match PrintfCode(sc, cur, f, args, i + step, k, reg)
      case Throws(x) => Throws(x)
      case Ok(rest) => Ok(Emitted([Putch(c)] + rest.code, rest.result, rest.next))
  {
  }

  // Declarations: code that also records where each name lives.

  /** The elements `0 .. i - 1` of a global array's initialiser list, comma-separated below `n`. */
  function ElementsText(tag: string, cv: seq<Option<int32>>, i: nat, n: int): string
    requires i <= |cv|
    decreases i
  {
    if i == 0 then ""
    else ElementsText(tag, cv, i - 1, n) + tag + " " + OptIntText(cv[i - 1]) + (if i - 1 < n - 1 then ", " else "")
  }

  /** `tag value` for each value of `vs`, in order. */
  function Items(tag: string, vs: seq<Option<int32>>): (r: seq<string>)
    ensures |r| == |vs| && forall k :: 0 <= k < |vs| ==> r[k] == tag + " " + OptIntText(vs[k])
    decreases |vs|
  {
    if vs == [] then [] else Items(tag, vs[..|vs| - 1]) + [tag + " " + OptIntText(vs[|vs| - 1])]
  }

  /** The texts of `items`, separated by `, `. */
  function CommaList(items: seq<string>): string
    decreases |items|
  {
    if |items| == 0 then ""
    else if |items| == 1 then items[0]
    else CommaList(items[..|items| - 1]) + ", " + items[|items| - 1]
  }

  /** One more element: its text after the list so far, then a comma when more follow. */
  lemma ElementsTextStep(tag: string, cv: seq<Option<int32>>, i: nat, n: int)
    requires 0 < i <= n && i <= |cv|
    ensures var item := tag + " " + OptIntText(cv[i - 1]);
      ElementsText(tag, cv, i, n) == ElementsText(tag, cv, i - 1, n) + item + (if i < n then ", " else "") &&
      Items(tag, cv[..i]) == Items(tag, cv[..i - 1]) + [item]
  {
    assert cv[..i][..i - 1] == cv[..i - 1];
  }

  /** Joining one more item after a comma. */
  lemma CommaListSnoc(items: seq<string>, item: string)
    requires |items| > 0
    ensures CommaList(items + [item]) == CommaList(items) + ", " + item
  {
    assert (items + [item])[..|items|] == items;
  }

  /**
   * The first `i` elements of an initialiser list of length `n` are the first `i`
   * values, each after its type tag, separated by commas, with a comma still to
   * come when more follow.
   */
  lemma {:induction false} ElementsTextList(tag: string, cv: seq<Option<int32>>, i: nat, n: int)
    requires 0 < i <= n && i <= |cv|
    ensures ElementsText(tag, cv, i, n) == CommaList(Items(tag, cv[..i])) + (if i < n then ", " else "")
    decreases i
  {
    var item := tag + " " + OptIntText(cv[i - 1]);
    var sep := if i < n then ", " else "";
    ElementsTextStep(tag, cv, i, n);
    if i == 1 {
      assert ElementsText(tag, cv, 0, n) == "";
      assert Items(tag, cv[..i]) == [item];
    } else {
      ElementsTextList(tag, cv, i - 1, n);
      var before := CommaList(Items(tag, cv[..i - 1]));
      CommaListSnoc(Items(tag, cv[..i - 1]), item);
      assert (before + ", ") + item + sep == (before + ", " + item) + sep;
    }
  }

  /**
   * The definition of a global from its folded constants: all `n` elements of an
   * array, or the one value of a scalar; too few constants throw.
   */
  function GlobalCode(s: Symbol): (r: Result<Instr>)
    requires s.symType.ValueSym?
    ensures r.Ok? <==> match s.symType.vtype.arrayLength case Some(n) => n <= |s.constValues| case None => |s.constValues| >= 1
    ensures r.Ok? ==> r.value.GlobalDef? && r.value.global == s.name && r.value.isConst == s.symType.vtype.isConst
                      && r.value.ty == VarTypeText(s.symType.vtype)
  {
    var vt := s.symType.vtype;
    var cv := s.constValues;
    match vt.arrayLength
    case Some(n) =>
      if n > |cv| then Throws(IndexOutOfBounds)
      else Ok(GlobalDef(s.name, vt.isConst, VarTypeText(vt), "[" + ElementsText(BasicText(vt), cv, if n > 0 then n else 0, n) + "]"))
    case None =>
      if |cv| == 0 then Throws(IndexOutOfBounds)
      else Ok(GlobalDef(s.name, vt.isConst, BasicText(vt), OptIntText(cv[0])))
  }

  /**
   * A global array of length `n` is initialised with exactly its first `n` recorded
   * values, in order, each after its type tag and separated by commas; a scalar with
   * its first recorded value.
   */
  lemma GlobalCodeInit(s: Symbol)
    requires s.symType.ValueSym? && GlobalCode(s).Ok?
    ensures var vt := s.symType.vtype;
      match vt.arrayLength
      case Some(n) => GlobalCode(s).value.init == "[" + CommaList(Items(BasicText(vt), s.constValues[..if n > 0 then n else 0])) + "]"
      case None => GlobalCode(s).value.init == OptIntText(s.constValues[0])
  {
    var vt := s.symType.vtype;
    if vt.arrayLength.Some? && vt.arrayLength.value > 0 {
      ElementsTextList(BasicText(vt), s.constValues, vt.arrayLength.value, vt.arrayLength.value);
    }
  }

  /**
   * The store of element `i` of a local's initial value at `ptr`: its folded constant,
   * else initialiser expression `i`, truncated for a `char`.
   */
  function ElementInitCode(sc: seq<Scope>, cur: nat, vt: ValueType, cv: seq<Option<int32>>, init: Option<InitVal>,
                           i: nat, ty: string, ptr: string, reg: nat): Result<Emitted<()>>
    requires Env(sc, cur)
  {
    if i >= |cv| then Throws(IndexOutOfBounds)
    else match cv[i]
      case Some(c) => Ok(Emitted([Store(ty, IntToString(c), ty + "*", ptr)], (), reg))
      case None =>
        if init.None? then Throws(NullPointer)
        else if i >= |init.value.exps| then Throws(IndexOutOfBounds)
        else
          var v :- ExpCode(sc, cur, init.value.exps[i], reg);
          var c :- if vt.basic == CHR then ToI8(v.result, v.next) else Ok(Emitted([], v.result, v.next));
          Ok(Emitted(v.code + c.code + [Store(ty, c.result.name, ty + "*", ptr)], (), c.next))
  }

  /** Element `i` of a local array: its address, then its store there. */
  function ElementCode(sc: seq<Scope>, cur: nat, s: Symbol, init: Option<InitVal>, i: nat, reg: nat): Result<Emitted<()>>
    requires Env(sc, cur) && s.symType.ValueSym?
  {
    var vt := s.symType.vtype;
    var a :- ElementAddress(s, vt, Value(IntToString(i), i32), reg);
    var st :- ElementInitCode(sc, cur, vt, s.constValues, init, i, BasicText(vt), a.result.name, a.next);
    Ok(Emitted(a.code + st.code, (), st.next))
  }

  /** Elements `i .. n - 1` of a local array, in order. */
  function ArrayInitCode(sc: seq<Scope>, cur: nat, s: Symbol, init: Option<InitVal>, i: nat, n: int, reg: nat): Result<Emitted<()>>
    requires Env(sc, cur) && s.symType.ValueSym?
    decreases n - i
  {
    if i >= n then Ok(Emitted([], (), reg))
    else
      var e :- ElementCode(sc, cur, s, init, i, reg);
      var rest :- ArrayInitCode(sc, cur, s, init, i + 1, n, e.next);
      Ok(Emitted(e.code + rest.code, (), rest.next))
  }

  /**
   * The initial value of a local `s` whose slot is register `slot`: one element for
   * a scalar, every element for an array (whose IR name is by then the slot).
   */
  function LocalInitCode(sc: seq<Scope>, cur: nat, s: Symbol, init: Option<InitVal>, slot: nat): Result<Emitted<()>>
    requires Env(sc, cur) && s.symType.ValueSym?
  {
    var vt := s.symType.vtype;
    match vt.arrayLength
    case None => ElementInitCode(sc, cur, vt, s.constValues, init, 0, VarTypeText(vt), Reg(slot), slot + 1)
    case Some(n) => ArrayInitCode(sc, cur, s.(irName := Some(Reg(slot))), init, 0, n, slot + 1)
  }

  /**
   * A local definition of the symbol `s`: a stack slot in register `reg`, then its
   * initial value. `sc` is the table once the slot is recorded, which is what the
   * initialiser's expressions see.
   */
  function LocalDefCode(sc: seq<Scope>, cur: nat, s: Symbol, init: Option<InitVal>, reg: nat): Result<Emitted<()>>
    requires Env(sc, cur) && s.symType.ValueSym?
  {
    var v :- LocalInitCode(sc, cur, s, init, reg);
    Ok(Emitted([Alloca(reg, VarTypeText(s.symType.vtype))] + v.code, (), v.next))
  }

  /** How many `store` instructions some code holds. */
  function Stores(code: seq<Instr>): nat
    decreases |code|
  {
    if |code| == 0 then 0 else Stores(code[..|code| - 1]) + if code[|code| - 1].Store? then 1 else 0
  }

  lemma {:induction false} StoresAppend(a: seq<Instr>, b: seq<Instr>)
    ensures Stores(a + b) == Stores(a) + Stores(b)
    decreases |b|
  {
    if |b| > 0 {
      var c := a + b;
      assert c[..|c| - 1] == a + b[..|b| - 1];
      StoresAppend(a, b[..|b| - 1]);
    } else {
      assert a + b == a;
    }
  }

  lemma {:induction false} ComputingStoresNothing(code: seq<Instr>)
    requires OnlyComputes(code)
    ensures Stores(code) == 0
    decreases |code|
  {
    if |code| > 0 {
      var front := code[..|code| - 1];
      assert OnlyComputes(front) by {
        forall k | 0 <= k < |front| ensures Computes(front[k]) {
          assert front[k] == code[k];
        }
      }
      ComputingStoresNothing(code[..|code| - 1]);
      assert Computes(code[|code| - 1]);
    }
  }

  lemma StoresOne(i: Instr)
    ensures Stores([i]) == if i.Store? then 1 else 0
  {
    assert [i][..0] == [];
  }

  /** An element's initialisation is exactly one store, the last instruction, at `ptr`. */
  lemma {:induction false} ElementStoredOnce(sc: seq<Scope>, cur: nat, vt: ValueType, cv: seq<Option<int32>>, init: Option<InitVal>,
                                            i: nat, ty: string, ptr: string, reg: nat)
    requires Env(sc, cur)
    ensures var r := ElementInitCode(sc, cur, vt, cv, init, i, ty, ptr, reg);
      r.Ok? ==> Stores(r.value.code) == 1 && |r.value.code| >= 1 &&
                r.value.code[|r.value.code| - 1].Store? && r.value.code[|r.value.code| - 1].ptr == ptr
  {
    var r := ElementInitCode(sc, cur, vt, cv, init, i, ty, ptr, reg);
    if r.Ok? {
      if cv[i].Some? {
        StoresOne(Store(ty, IntToString(cv[i].value), ty + "*", ptr));
      } else {
        var v := ExpCode(sc, cur, init.value.exps[i], reg).value;
        ExpRegisters(sc, cur, init.value.exps[i], reg);
        ComputingStoresNothing(v.code);
        var c := (if vt.basic == CHR then ToI8(v.result, v.next) else Ok(Emitted([], v.result, v.next))).value;
        assert Stores(c.code) == 0 by {
          if vt.basic == CHR {
            StoresOne(Trunc(v.next, v.result.name));
          }
        }
        var st := Store(ty, c.result.name, ty + "*", ptr);
        StoresAppend(v.code, c.code);
        StoresAppend(v.code + c.code, [st]);
        StoresOne(st);
      }
    }
  }

  /** An array element's code is its address, which stores nothing, then one store at that address. */
  lemma ElementStored(sc: seq<Scope>, cur: nat, s: Symbol, init: Option<InitVal>, i: nat, reg: nat)
    requires Env(sc, cur) && s.symType.ValueSym?
    ensures var r := ElementCode(sc, cur, s, init, i, reg);
      r.Ok? ==> Stores(r.value.code) == 1 && r.value.code[|r.value.code| - 1].Store? &&
                r.value.code[|r.value.code| - 1].ptr == ElementAddress(s, s.symType.vtype, Value(IntToString(i), i32), reg).value.result.name
  {
    var r := ElementCode(sc, cur, s, init, i, reg);
    if r.Ok? {
      var vt := s.symType.vtype;
      var a := ElementAddress(s, vt, Value(IntToString(i), i32), reg).value;
      ElementAddressRegisters(s, vt, Value(IntToString(i), i32), reg);
      ComputingStoresNothing(a.code);
      var st := ElementInitCode(sc, cur, vt, s.constValues, init, i, BasicText(vt), a.result.name, a.next).value;
      ElementStoredOnce(sc, cur, vt, s.constValues, init, i, BasicText(vt), a.result.name, a.next);
      StoresAppend(a.code, st.code);
      assert r.value.code[|r.value.code| - 1] == st.code[|st.code| - 1];
    }
  }

  /** A local array's elements `i .. n - 1` are stored once each. */
  lemma {:induction false} ArrayStoredOnce(sc: seq<Scope>, cur: nat, s: Symbol, init: Option<InitVal>, i: nat, n: int, reg: nat)
    requires Env(sc, cur) && s.symType.ValueSym?
    ensures var r := ArrayInitCode(sc, cur, s, init, i, n, reg);
      r.Ok? ==> Stores(r.value.code) == if i < n then n - i else 0
    decreases n - i
  {
    var r := ArrayInitCode(sc, cur, s, init, i, n, reg);
    if r.Ok? && i < n {
      var e := ElementCode(sc, cur, s, init, i, reg).value;
      ElementStored(sc, cur, s, init, i, reg);
      ArrayStoredOnce(sc, cur, s, init, i + 1, n, e.next);
      StoresAppend(e.code, ArrayInitCode(sc, cur, s, init, i + 1, n, e.next).value.code);
    }
  }

  /**
   * A local definition starts with the `alloca` of its slot in `reg` and stores its
   * initial value exactly once per element: once for a scalar, `n` times for an array
   * of `n`.
   */
  lemma {:induction false} LocalInitialisedOnce(sc: seq<Scope>, cur: nat, s: Symbol, init: Option<InitVal>, reg: nat)
    requires Env(sc, cur) && s.symType.ValueSym?
    ensures var r := LocalDefCode(sc, cur, s, init, reg);
      r.Ok? ==> r.value.code[0] == Alloca(reg, VarTypeText(s.symType.vtype)) &&
                Stores(r.value.code) == match s.symType.vtype.arrayLength case None => 1 case Some(n) => if n > 0 then n else 0
  {
    var r := LocalDefCode(sc, cur, s, init, reg);
    if r.Ok? {
      var vt := s.symType.vtype;
      var al := Alloca(reg, VarTypeText(vt));
      StoresOne(al);
      StoresAppend([al], LocalInitCode(sc, cur, s, init, reg).value.code);
      match vt.arrayLength
      case None =>
        ElementStoredOnce(sc, cur, vt, s.constValues, init, 0, VarTypeText(vt), Reg(reg), reg + 1);
      case Some(n) =>
        ArrayStoredOnce(sc, cur, s.(irName := Some(Reg(reg))), init, 0, n, reg + 1);
    }
  }

  /** One element handled: the rest of the array follows its code. */
  lemma ArrayInitStep(sc: seq<Scope>, cur: nat, s: Symbol, init: Option<InitVal>, i: nat, n: int, reg: nat, e: Emitted<()>)
    requires Env(sc, cur) && s.symType.ValueSym? && i < n
    requires ElementCode(sc, cur, s, init, i, reg) == Ok(e)
    ensures ArrayInitCode(sc, cur, s, init, i, n, reg) ==
      match ArrayInitCode(sc, cur, s, init, i + 1, n, e.next)
      case Throws(x) => Throws(x)
      case Ok(rest) => Ok(Emitted(e.code + rest.code, (), rest.next))
  {
  }

  // Function prologues.

  function ReturnText(rt: ReturnType): string {
    match rt
    case VoidReturn => "void"
    case IntReturn => "i32"
    case CharReturn => "i8"
  }

  /** The first `i` parameters of the signature: parameter `j` arrives in `%j`, a comma after all but the last type. */
  function Signature(pt: seq<ValueType>, i: nat): (ps: seq<Param>)
    requires i <= |pt|
    ensures |ps| == i
    ensures forall j :: 0 <= j < i ==> ps[j] == Param(ParamTypeText(pt[j]), j, j < |pt| - 1)
  {
    if i == 0 then [] else Signature(pt, i - 1) + [Param(ParamTypeText(pt[i - 1]), i - 1, i - 1 < |pt| - 1)]
  }

  /**
   * The spill of the first `i` of `n` parameters: parameter `j` gets the slot
   * `%(n + j)` and its incoming register is stored there.
   */
  function Spill(pt: seq<ValueType>, n: nat, i: nat): seq<Instr>
    requires i <= |pt|
  {
    if i == 0 then [] else Spill(pt, n, i - 1) + SpillPair(pt, n, i - 1)
  }

  /** A stack slot `%slot` of type `t` and the store of the value `v` into it. */
  function SlotCopy(slot: nat, t: string, v: string): seq<Instr> {
    [Alloca(slot, t), Store(t, v, t + "*", Reg(slot))]
  }

  /** Parameter `j`'s slot `%(n + j)` and the store of `%j` into it. */
  function SpillPair(pt: seq<ValueType>, n: nat, j: nat): seq<Instr>
    requires j < |pt|
  {
    SlotCopy(n + j, ParamTypeText(pt[j]), Reg(j))
  }

  lemma SpillPairSlot(pt: seq<ValueType>, n: nat, j: nat)
    requires j < |pt|
    ensures Defs(SpillPair(pt, n, j)) == [n + j] && Stores(SpillPair(pt, n, j)) == 1
  {
    var pair := SpillPair(pt, n, j);
    assert pair == [pair[0]] + [pair[1]];
    DefsOne(pair[0]);
    DefsOne(pair[1]);
    DefsAppend([pair[0]], [pair[1]]);
    StoresOne(pair[0]);
    StoresOne(pair[1]);
    StoresAppend([pair[0]], [pair[1]]);
  }

  /** The spill defines the slots `%n .. %(n + i - 1)`, in order. */
  lemma {:induction false} SpillDefs(pt: seq<ValueType>, n: nat, i: nat)
    requires i <= |pt|
    ensures Defs(Spill(pt, n, i)) == Range(n, n + i)
  {
    if i > 0 {
      var m := i - 1;
      var a, b := Spill(pt, n, m), SpillPair(pt, n, m);
      SpillDefs(pt, n, m);
      SpillPairSlot(pt, n, m);
      DefsAppend(a, b);
      RangeSnoc(n, n + m);
      calc {
        Defs(Spill(pt, n, i));
        Defs(a + b);
        Defs(a) + Defs(b);
        Range(n, n + m) + [n + m];
        Range(n, n + m + 1);
      }
    }
  }

  /** The spill stores once per parameter. */
  lemma {:induction false} SpillStores(pt: seq<ValueType>, n: nat, i: nat)
    requires i <= |pt|
    ensures Stores(Spill(pt, n, i)) == i
  {
    if i > 0 {
      var a, b := Spill(pt, n, i - 1), SpillPair(pt, n, i - 1);
      SpillStores(pt, n, i - 1);
      SpillPairSlot(pt, n, i - 1);
      StoresAppend(a, b);
    }
  }

  /** The spill stores each parameter once, into the slots `%n .. %(n + i - 1)`, none of them a parameter's register. */
  lemma SpillSlots(pt: seq<ValueType>, n: nat, i: nat)
    requires i <= |pt|
    ensures Defs(Spill(pt, n, i)) == Range(n, n + i)
    ensures Stores(Spill(pt, n, i)) == i
  {
    SpillDefs(pt, n, i);
    SpillStores(pt, n, i);
  }

  ghost predicate Distinct(names: seq<string>) {
    forall j, k :: 0 <= j < k < |names| ==> names[j] != names[k]
  }

  /** What a loop over the parameters printed, the scopes it left and what it computed. */
  datatype Renaming<T> = Renaming(code: seq<Instr>, scopes: seq<Scope>, result: T)

  /**
   * The signature loop over the first `i` parameters, from the scopes `sc`:
   * parameter `j` takes register `%j` as its IR name and adds its type to the
   * parameter list. An unbound name throws, and so does a name without a type.
   */
  function ParamsRun(sc: seq<Scope>, cur: nat, pn: seq<string>, pt: seq<ValueType>, i: nat): (r: Result<Renaming<seq<Param>>>)
    requires ParentsOlder(sc) && 1 <= cur <= |sc| && i <= |pn|
    ensures r.Ok? ==> ParentsOlder(r.value.scopes) && |r.value.scopes| == |sc|
  {
    if i == 0 then Ok(Renaming([], sc, []))
    else match ParamsRun(sc, cur, pn, pt, i - 1)
      case Throws(x) => Throws(x)
      case Ok(p) =>
        if LookupIn(p.scopes, cur, pn[i - 1]).None? then Throws(NullPointer)
        else if i - 1 >= |pt| then Throws(IndexOutOfBounds)
        else
          var param := Param(ParamTypeText(pt[i - 1]), i - 1, i - 1 < |pt| - 1);
          Ok(Renaming([], Renamed(p.scopes, cur, pn[i - 1], Reg(i - 1)), p.result + [param]))
  }

  /**
   * The spill loop over the first `i` of `n` parameters, from the scopes `sc`:
   * parameter `j` gets the slot `%(n + j)`, the value its name stands for is stored
   * there, and the slot becomes its IR name. A name without a type throws, and so
   * does an unbound name.
   */
  function SpillRun(sc: seq<Scope>, cur: nat, pn: seq<string>, pt: seq<ValueType>, n: nat, i: nat): (r: Result<Renaming<()>>)
    requires ParentsOlder(sc) && 1 <= cur <= |sc| && i <= |pn|
    ensures r.Ok? ==> ParentsOlder(r.value.scopes) && |r.value.scopes| == |sc|
  {
    if i == 0 then Ok(Renaming([], sc, ()))
    else match SpillRun(sc, cur, pn, pt, n, i - 1)
      case Throws(x) => Throws(x)
      case Ok(p) =>
        var j := i - 1;
        if j >= |pt| then Throws(IndexOutOfBounds)
        else match LookupIn(p.scopes, cur, pn[j])
          case None => Throws(NullPointer)
          case Some(s) =>
            Ok(Renaming(p.code + SlotCopy(n + j, ParamTypeText(pt[j]), IrText(s)), Renamed(p.scopes, cur, pn[j], Reg(n + j)), ()))
  }

  /** Once the signature loop throws, it throws the same way to the end. */
  lemma {:induction false} ParamsRunStops(sc: seq<Scope>, cur: nat, pn: seq<string>, pt: seq<ValueType>, i: nat, m: nat)
    requires ParentsOlder(sc) && 1 <= cur <= |sc| && i <= m <= |pn|
    requires ParamsRun(sc, cur, pn, pt, i).Throws?
    ensures ParamsRun(sc, cur, pn, pt, m) == ParamsRun(sc, cur, pn, pt, i)
    decreases m
  {
    if m > i {
      ParamsRunStops(sc, cur, pn, pt, i, m - 1);
    }
  }

  /** Once the spill loop throws, it throws the same way to the end. */
  lemma {:induction false} SpillRunStops(sc: seq<Scope>, cur: nat, pn: seq<string>, pt: seq<ValueType>, n: nat, i: nat, m: nat)
    requires ParentsOlder(sc) && 1 <= cur <= |sc| && i <= m <= |pn|
    requires SpillRun(sc, cur, pn, pt, n, i).Throws?
    ensures SpillRun(sc, cur, pn, pt, n, m) == SpillRun(sc, cur, pn, pt, n, i)
    decreases m
  {
    if m > i {
      SpillRunStops(sc, cur, pn, pt, n, i, m - 1);
    }
  }

  /** The spill loop stops at parameter `i` when it has no type or no binding, and ends in that exception. */
  lemma SpillRunFails(sc: seq<Scope>, cur: nat, pn: seq<string>, pt: seq<ValueType>, n: nat, i: nat,
                      code: seq<Instr>, mid: seq<Scope>)
    requires ParentsOlder(sc) && 1 <= cur <= |sc| && i < |pn|
    requires SpillRun(sc, cur, pn, pt, n, i) == Ok(Renaming(code, mid, ()))
    ensures i >= |pt| ==> SpillRun(sc, cur, pn, pt, n, |pn|) == Throws(IndexOutOfBounds)
    ensures i < |pt| && LookupIn(mid, cur, pn[i]).None? ==> SpillRun(sc, cur, pn, pt, n, |pn|) == Throws(NullPointer)
  {
    if i >= |pt| || LookupIn(mid, cur, pn[i]).None? {
      SpillRunStops(sc, cur, pn, pt, n, i + 1, |pn|);
    }
  }

  /** Renaming binds no name and unbinds none. */
  lemma RenamedKeepsBound(sc: seq<Scope>, cur: nat, name: string, ir: string, m: string)
    requires ParentsOlder(sc) && 1 <= cur <= |sc|
    ensures LookupIn(Renamed(sc, cur, name, ir), cur, m).Some? == LookupIn(sc, cur, m).Some?
  {
    LookupAfterRenamed(sc, cur, name, ir, m);
  }

  /** The signature loop binds no name and unbinds none. */
  lemma {:induction false} ParamsRunKeepsBound(sc: seq<Scope>, cur: nat, pn: seq<string>, pt: seq<ValueType>, i: nat, m: string)
    requires ParentsOlder(sc) && 1 <= cur <= |sc| && i <= |pn|
    requires ParamsRun(sc, cur, pn, pt, i).Ok?
    ensures LookupIn(ParamsRun(sc, cur, pn, pt, i).value.scopes, cur, m).Some? == LookupIn(sc, cur, m).Some?
  {
    if i > 0 {
      var p := ParamsRun(sc, cur, pn, pt, i - 1).value;
      ParamsRunKeepsBound(sc, cur, pn, pt, i - 1, m);
      RenamedKeepsBound(p.scopes, cur, pn[i - 1], Reg(i - 1), m);
    }
  }

  /** The spill loop binds no name and unbinds none. */
  lemma {:induction false} SpillRunKeepsBound(sc: seq<Scope>, cur: nat, pn: seq<string>, pt: seq<ValueType>, n: nat, i: nat, m: string)
    requires ParentsOlder(sc) && 1 <= cur <= |sc| && i <= |pn|
    requires SpillRun(sc, cur, pn, pt, n, i).Ok?
    ensures LookupIn(SpillRun(sc, cur, pn, pt, n, i).value.scopes, cur, m).Some? == LookupIn(sc, cur, m).Some?
  {
    if i > 0 {
      var p := SpillRun(sc, cur, pn, pt, n, i - 1).value;
      SpillRunKeepsBound(sc, cur, pn, pt, n, i - 1, m);
      RenamedKeepsBound(p.scopes, cur, pn[i - 1], Reg(n + i - 1), m);
    }
  }

  /** Every one of the first `i` parameter names is bound from scope `cur`. */
  ghost predicate AllBound(sc: seq<Scope>, cur: nat, pn: seq<string>, i: nat)
    requires ParentsOlder(sc) && 1 <= cur <= |sc| && i <= |pn|
  {
    forall j :: 0 <= j < i ==> LookupIn(sc, cur, pn[j]).Some?
  }

  /**
   * The signature loop succeeds exactly when every parameter name is bound and has
   * a type, and then its list is `Signature`.
   */
  lemma {:induction false} ParamsRunOk(sc: seq<Scope>, cur: nat, pn: seq<string>, pt: seq<ValueType>, i: nat)
    requires ParentsOlder(sc) && 1 <= cur <= |sc| && i <= |pn|
    ensures ParamsRun(sc, cur, pn, pt, i).Ok? <==> i <= |pt| && AllBound(sc, cur, pn, i)
    ensures ParamsRun(sc, cur, pn, pt, i).Ok? ==> ParamsRun(sc, cur, pn, pt, i).value.result == Signature(pt, i)
  {
    if i > 0 {
      ParamsRunOk(sc, cur, pn, pt, i - 1);
      var p := ParamsRun(sc, cur, pn, pt, i - 1);
      assert AllBound(sc, cur, pn, i) <==> AllBound(sc, cur, pn, i - 1) && LookupIn(sc, cur, pn[i - 1]).Some?;
      if p.Ok? {
        ParamsRunKeepsBound(sc, cur, pn, pt, i - 1, pn[i - 1]);
        assert ParamsRun(sc, cur, pn, pt, i).Ok? <==> i - 1 < |pt| && LookupIn(p.value.scopes, cur, pn[i - 1]).Some?;
      } else {
        assert ParamsRun(sc, cur, pn, pt, i) == p;
      }
    }
  }

  /** The spill loop succeeds exactly when every parameter name is bound and has a type. */
  lemma {:induction false} SpillRunOk(sc: seq<Scope>, cur: nat, pn: seq<string>, pt: seq<ValueType>, n: nat, i: nat)
    requires ParentsOlder(sc) && 1 <= cur <= |sc| && i <= |pn|
    ensures SpillRun(sc, cur, pn, pt, n, i).Ok? <==> i <= |pt| && AllBound(sc, cur, pn, i)
  {
    if i > 0 {
      SpillRunOk(sc, cur, pn, pt, n, i - 1);
      var p := SpillRun(sc, cur, pn, pt, n, i - 1);
      assert AllBound(sc, cur, pn, i) <==> AllBound(sc, cur, pn, i - 1) && LookupIn(sc, cur, pn[i - 1]).Some?;
      if p.Ok? {
        SpillRunKeepsBound(sc, cur, pn, pt, n, i - 1, pn[i - 1]);
        assert SpillRun(sc, cur, pn, pt, n, i).Ok? <==> i - 1 < |pt| && LookupIn(p.value.scopes, cur, pn[i - 1]).Some?;
      } else {
        assert SpillRun(sc, cur, pn, pt, n, i) == p;
      }
    }
  }

  /**
   * From `before` to `after`, parameters `0 .. i - 1` kept their symbols but took the
   * IR names `%(off + j)`, and the names not reached yet look up as before.
   */
  ghost predicate RenamedUpTo(before: seq<Scope>, after: seq<Scope>, cur: nat, pn: seq<string>, i: nat, off: nat)
    requires ParentsOlder(before) && ParentsOlder(after) && 1 <= cur <= |before| && cur <= |after| && i <= |pn|
  {
    (forall j :: 0 <= j < i ==>
       LookupIn(before, cur, pn[j]).Some? &&
       LookupIn(after, cur, pn[j]) == Some(LookupIn(before, cur, pn[j]).value.(irName := Some(Reg(off + j))))) &&
    (forall j :: i <= j < |pn| ==> LookupIn(after, cur, pn[j]) == LookupIn(before, cur, pn[j]))
  }

  /** Every parameter name is bound, and parameter `j` has the IR name `%(off + j)`. */
  ghost predicate NamedFrom(sc: seq<Scope>, cur: nat, pn: seq<string>, off: nat)
    requires ParentsOlder(sc) && 1 <= cur <= |sc|
  {
    forall j :: 0 <= j < |pn| ==> LookupIn(sc, cur, pn[j]).Some? && LookupIn(sc, cur, pn[j]).value.irName == Some(Reg(off + j))
  }

  /** Renaming the next distinct parameter extends `RenamedUpTo` by one. */
  lemma RenameNext(before: seq<Scope>, mid: seq<Scope>, cur: nat, pn: seq<string>, i: nat, off: nat)
    requires ParentsOlder(before) && ParentsOlder(mid) && 1 <= cur <= |before| == |mid| && i < |pn| && Distinct(pn)
    requires RenamedUpTo(before, mid, cur, pn, i, off) && LookupIn(before, cur, pn[i]).Some?
    ensures RenamedUpTo(before, Renamed(mid, cur, pn[i], Reg(off + i)), cur, pn, i + 1, off)
  {
    var after := Renamed(mid, cur, pn[i], Reg(off + i));
    forall j | 0 <= j < |pn|
      ensures LookupIn(after, cur, pn[j]) ==
        if j == i then Some(LookupIn(mid, cur, pn[j]).value.(irName := Some(Reg(off + i)))) else LookupIn(mid, cur, pn[j])
    {
      LookupAfterRenamed(mid, cur, pn[i], Reg(off + i), pn[j]);
    }
  }

  /** Renaming every parameter gives each its IR name. */
  lemma RenamedAll(before: seq<Scope>, after: seq<Scope>, cur: nat, pn: seq<string>, off: nat)
    requires ParentsOlder(before) && ParentsOlder(after) && 1 <= cur <= |before| && cur <= |after|
    requires RenamedUpTo(before, after, cur, pn, |pn|, off)
    ensures NamedFrom(after, cur, pn, off)
  {
  }

  /**
   * With distinct names, after the signature loop parameter `j` is its old symbol
   * with IR name `%j`, and every later name is untouched.
   */
  lemma {:induction false} ParamsNameRegisters(sc: seq<Scope>, cur: nat, pn: seq<string>, pt: seq<ValueType>, i: nat)
    requires ParentsOlder(sc) && 1 <= cur <= |sc| && i <= |pn| && Distinct(pn)
    requires ParamsRun(sc, cur, pn, pt, i).Ok?
    ensures RenamedUpTo(sc, ParamsRun(sc, cur, pn, pt, i).value.scopes, cur, pn, i, 0)
  {
    if i > 0 {
      ParamsNameRegisters(sc, cur, pn, pt, i - 1);
      ParamsRunOk(sc, cur, pn, pt, i);
      RenameNext(sc, ParamsRun(sc, cur, pn, pt, i - 1).value.scopes, cur, pn, i - 1, 0);
    }
  }

  /** One more parameter in the signature loop. */
  lemma ParamsRunNext(sc: seq<Scope>, cur: nat, pn: seq<string>, pt: seq<ValueType>, i: nat, ps: seq<Param>, mid: seq<Scope>)
    requires ParentsOlder(sc) && 1 <= cur <= |sc| && i < |pn| && i < |pt|
    requires ParamsRun(sc, cur, pn, pt, i) == Ok(Renaming([], mid, ps)) && LookupIn(mid, cur, pn[i]).Some?
    ensures ParamsRun(sc, cur, pn, pt, i + 1) ==
      Ok(Renaming([], Renamed(mid, cur, pn[i], Reg(i)), ps + [Param(ParamTypeText(pt[i]), i, i < |pt| - 1)]))
  {
  }

  /** The signature loop stops at parameter `i` when its name is unbound or has no type, and ends in that exception. */
  lemma ParamsRunFails(sc: seq<Scope>, cur: nat, pn: seq<string>, pt: seq<ValueType>, i: nat, ps: seq<Param>, mid: seq<Scope>)
    requires ParentsOlder(sc) && 1 <= cur <= |sc| && i < |pn|
    requires ParamsRun(sc, cur, pn, pt, i) == Ok(Renaming([], mid, ps))
    ensures LookupIn(mid, cur, pn[i]).None? ==> ParamsRun(sc, cur, pn, pt, |pn|) == Throws(NullPointer)
    ensures LookupIn(mid, cur, pn[i]).Some? && i >= |pt| ==> ParamsRun(sc, cur, pn, pt, |pn|) == Throws(IndexOutOfBounds)
  {
    if LookupIn(mid, cur, pn[i]).None? || i >= |pt| {
      ParamsRunStops(sc, cur, pn, pt, i + 1, |pn|);
    }
  }

  /** One more parameter in the spill loop, whose name stands for the symbol `s`. */
  lemma SpillRunNext(sc: seq<Scope>, cur: nat, pn: seq<string>, pt: seq<ValueType>, n: nat, i: nat,
                     code: seq<Instr>, mid: seq<Scope>, s: Symbol)
    requires ParentsOlder(sc) && 1 <= cur <= |sc| && i < |pn| && i < |pt|
    requires SpillRun(sc, cur, pn, pt, n, i) == Ok(Renaming(code, mid, ())) && LookupIn(mid, cur, pn[i]) == Some(s)
    ensures SpillRun(sc, cur, pn, pt, n, i + 1) ==
      Ok(Renaming(code + SlotCopy(n + i, ParamTypeText(pt[i]), IrText(s)), Renamed(mid, cur, pn[i], Reg(n + i)), ()))
  {
  }

  /** The spill loop's state after one more parameter: what the method has printed and the scopes it left. */
  lemma SpillAdvance(sc: seq<Scope>, cur: nat, pn: seq<string>, pt: seq<ValueType>, n: nat, i: nat,
                     code: seq<Instr>, mid: seq<Scope>, slot: nat, t: string, sym: Result<Symbol>,
                     out0: seq<Instr>, before: seq<Instr>, out: seq<Instr>)
    requires ParentsOlder(sc) && 1 <= cur <= |sc| && i < |pn| && i < |pt| && slot == n + i && t == ParamTypeText(pt[i])
    requires SpillRun(sc, cur, pn, pt, n, i) == Ok(Renaming(code, mid, ()))
    requires sym == (if LookupIn(mid, cur, pn[i]).None? then Throws(NullPointer) else Ok(LookupIn(mid, cur, pn[i]).value))
    requires sym.Ok? && before == out0 + code && out == before + SlotCopy(slot, t, IrText(sym.value))
    ensures SpillRun(sc, cur, pn, pt, n, i + 1) ==
      Ok(Renaming(code + SlotCopy(slot, t, IrText(sym.value)), Renamed(mid, cur, pn[i], Reg(slot)), ()))
    ensures out == out0 + (code + SlotCopy(slot, t, IrText(sym.value)))
  {
    SpillRunNext(sc, cur, pn, pt, n, i, code, mid, sym.value);
  }

  /**
   * When the names are distinct and parameter `j` stands for `%j`, the spill loop
   * succeeds, prints exactly `Spill` and leaves parameter `j` standing for its slot
   * `%(n + j)`; names not reached yet are untouched.
   */
  lemma {:induction false} SpillExact(sc: seq<Scope>, cur: nat, pn: seq<string>, pt: seq<ValueType>, n: nat, i: nat)
    requires ParentsOlder(sc) && 1 <= cur <= |sc| && i <= |pn| && i <= |pt| && Distinct(pn) && NamedFrom(sc, cur, pn, 0)
    ensures SpillRun(sc, cur, pn, pt, n, i).Ok?
    ensures SpillRun(sc, cur, pn, pt, n, i).value.code == Spill(pt, n, i)
    ensures RenamedUpTo(sc, SpillRun(sc, cur, pn, pt, n, i).value.scopes, cur, pn, i, n)
  {
    if i > 0 {
      SpillExact(sc, cur, pn, pt, n, i - 1);
      var p := SpillRun(sc, cur, pn, pt, n, i - 1).value;
      SpillRunNext(sc, cur, pn, pt, n, i - 1, p.code, p.scopes, LookupIn(sc, cur, pn[i - 1]).value);
      RenameNext(sc, p.scopes, cur, pn, i - 1, n);
    }
  }

  /**
   * The prologue of a function `name` of type `ft` from the scopes `sc`: the
   * signature loop, the header with its parameter list, then the spill loop.
   */
  function PrologueCode(sc: seq<Scope>, cur: nat, name: string, ft: FunctionType): Result<Renaming<()>>
    requires ParentsOlder(sc) && 1 <= cur <= |sc|
  {
    var pn, pt := ft.paramNames, ft.paramTypes;
    match ParamsRun(sc, cur, pn, pt, |pn|)
    case Throws(x) => Throws(x)
    case Ok(p) =>
      match SpillRun(p.scopes, cur, pn, pt, |pn|, |pn|)
      case Throws(x) => Throws(x)
      case Ok(q) => Ok(Renaming([Define(ReturnText(ft.returnType), name, p.result)] + q.code, q.scopes, ()))
  }

  /** The generator kept `spec`'s promise: the same exception, or its code and the scopes it leaves. */
  ghost predicate Renames(spec: Result<Renaming<()>>, r: Result<()>, before: seq<Instr>, after: seq<Instr>, scopes: seq<Scope>) {
    match spec
    case Throws(x) => r == Throws(x)
    case Ok(q) => r == Ok(()) && after == before + q.code && scopes == q.scopes
  }

  /** Code `head` followed by a run that keeps `second`'s promise keeps the promise of the whole. */
  lemma RenamesSequenced(whole: Result<Renaming<()>>, head: seq<Instr>, second: Result<Renaming<()>>, r: Result<()>,
                         o0: seq<Instr>, o1: seq<Instr>, o2: seq<Instr>, scopes: seq<Scope>)
    requires whole == match second case Throws(x) => Throws(x) case Ok(q) => Ok(Renaming(head + q.code, q.scopes, ()))
    requires o1 == o0 + head && Renames(second, r, o1, o2, scopes)
    ensures Renames(whole, r, o0, o2, scopes)
  {
    if second.Ok? {
      assert o2 == o0 + (head + second.value.code);
    }
  }

  /** The prologue once the signature loop has succeeded with `p`: the header, then the spill. */
  lemma PrologueSplit(sc: seq<Scope>, cur: nat, name: string, ft: FunctionType, p: Renaming<seq<Param>>)
    requires ParentsOlder(sc) && 1 <= cur <= |sc|
    requires ParamsRun(sc, cur, ft.paramNames, ft.paramTypes, |ft.paramNames|) == Ok(p)
    ensures PrologueCode(sc, cur, name, ft) ==
      match SpillRun(p.scopes, cur, ft.paramNames, ft.paramTypes, |ft.paramNames|, |ft.paramNames|)
      case Throws(x) => Throws(x)
      case Ok(q) => Ok(Renaming([Define(ReturnText(ft.returnType), name, p.result)] + q.code, q.scopes, ()))
  {
  }

  /**
   * The prologue succeeds exactly when every parameter name is bound and has a
   * type. Its header lists `Signature`; with distinct names the spill after it is
   * exactly `Spill`, and parameter `j` then stands for its slot `%(n + j)`.
   */
  lemma {:induction false} PrologueExact(sc: seq<Scope>, cur: nat, name: string, ft: FunctionType)
    requires ParentsOlder(sc) && 1 <= cur <= |sc|
    ensures var pn, pt := ft.paramNames, ft.paramTypes;
      PrologueCode(sc, cur, name, ft).Ok? <==> |pn| <= |pt| && AllBound(sc, cur, pn, |pn|)
    ensures var pn, pt, r := ft.paramNames, ft.paramTypes, PrologueCode(sc, cur, name, ft);
      r.Ok? ==> |r.value.code| >= 1 && r.value.code[0] == Define(ReturnText(ft.returnType), name, Signature(pt, |pn|))
    ensures var pn, pt, r := ft.paramNames, ft.paramTypes, PrologueCode(sc, cur, name, ft);
      r.Ok? && Distinct(pn) ==>
        r.value.code == [Define(ReturnText(ft.returnType), name, Signature(pt, |pn|))] + Spill(pt, |pn|, |pn|) &&
        NamedFrom(r.value.scopes, cur, pn, |pn|)
  {
    var pn, pt := ft.paramNames, ft.paramTypes;
    var n := |pn|;
    ParamsRunOk(sc, cur, pn, pt, n);
    var p := ParamsRun(sc, cur, pn, pt, n);
    if p.Ok? {
      forall j | 0 <= j < n
        ensures LookupIn(p.value.scopes, cur, pn[j]).Some? == LookupIn(sc, cur, pn[j]).Some?
      {
        ParamsRunKeepsBound(sc, cur, pn, pt, n, pn[j]);
      }
      SpillRunOk(p.value.scopes, cur, pn, pt, n, n);
      assert AllBound(p.value.scopes, cur, pn, n) == AllBound(sc, cur, pn, n);
      if Distinct(pn) && n <= |pt| {
        ParamsNameRegisters(sc, cur, pn, pt, n);
        RenamedAll(sc, p.value.scopes, cur, pn, 0);
        SpillExact(p.value.scopes, cur, pn, pt, n, n);
        RenamedAll(p.value.scopes, SpillRun(p.value.scopes, cur, pn, pt, n, n).value.scopes, cur, pn, n);
      }
    }
  }

  /**
   * `out` continues `before` with the header of function `name` of type `ft`:
   * its `define` line with the full parameter list, followed (when the names are
   * distinct) by the spill of every parameter.
   */
  ghost predicate FunctionHeader(before: seq<Instr>, out: seq<Instr>, name: string, ft: FunctionType) {
    var n := |ft.paramNames|;
    n <= |ft.paramTypes| && |out| > |before| && before <= out &&
    out[|before|] == Define(ReturnText(ft.returnType), name, Signature(ft.paramTypes, n)) &&
    (Distinct(ft.paramNames) ==> before + [out[|before|]] + Spill(ft.paramTypes, n, n) <= out)
  }

  /**
   * `codeGen(CompUnit)` sets the next scope to 1 and pushes from the root scope 1,
   * which is never a child of itself: the globals are generated in the root scope,
   * and the first function's scope is the one numbered 2.
   */
  lemma RootPushStays(scopes: seq<Scope>)
    requires WellFormed(scopes)
    ensures 1 !in scopes[0].children
  {
  }

  /** Whatever follows a successful prologue keeps its header. */
  lemma HeaderKept(sc: seq<Scope>, cur: nat, name: string, ft: FunctionType, o0: seq<Instr>, o1: seq<Instr>, o2: seq<Instr>)
    requires ParentsOlder(sc) && 1 <= cur <= |sc| && PrologueCode(sc, cur, name, ft).Ok?
    requires o1 == o0 + PrologueCode(sc, cur, name, ft).value.code && o1 <= o2
    ensures FunctionHeader(o0, o2, name, ft)
  {
    PrologueExact(sc, cur, name, ft);
    var code := PrologueCode(sc, cur, name, ft).value.code;
    assert o2[|o0|] == o1[|o0|] == code[0];
    if Distinct(ft.paramNames) {
      assert o0 + [o2[|o0|]] + Spill(ft.paramTypes, |ft.paramNames|, |ft.paramNames|) == o1;
    }
  }

  class IRGenerator {
    /** The analyser's symbol table, which the generator walks again. */
    const table: SymbolTable
    /** What has been printed so far. */
    var out: seq<Instr>
    /** The number of the scope the next `pushScope` moves into. */
    var nextScope: int
    /** `virtualRegIndex`, the next free virtual register. */
    var reg: nat

    ghost predicate Valid()
      reads table
    {
      table.Valid()
    }

    constructor (t: SymbolTable)
      ensures table == t && out == [] && nextScope == 0 && reg == 0
    {
      table := t;
      out := [];
      nextScope := 0;
      reg := 0;
    }

    /** `resetReg`: a function's registers start again at 0. */
    method ResetReg()
      modifies this`reg
      ensures reg == 0
    {
      reg := 0;
    }

    /** `allocReg`: the next register, which is then taken. */
    method AllocReg() returns (r: nat)
      modifies this`reg
      ensures r == old(reg) && reg == old(reg) + 1
    {
      reg := reg + 1;
      r := reg - 1;
    }

    /** `printCode` of one instruction. */
    method Print(i: Instr)
      modifies this`out
      ensures out == old(out) + [i]
    {
      out := out + [i];
    }

    method ConvertToI8(v: Value) returns (r: Result<Value>)
      modifies this`out, this`reg
      ensures Follows(ToI8(v, old(reg)), r, old(out), out, reg)
    {
      if v.ty.basic != I32 {
        return Throws(Failed("convertToI8"));
      }
      var d := AllocReg();
      Print(Trunc(d, v.name));
      return Ok(Value(Reg(d), i8));
    }

    method ConvertToI32(v: Value) returns (r: Result<Value>)
      modifies this`out, this`reg
      ensures Follows(ToI32(v, old(reg)), r, old(out), out, reg)
    {
      if v.ty.basic != I8 {
        return Throws(Failed("convertToI32"));
      }
      var d := AllocReg();
      Print(Sext(d, v.name));
      return Ok(Value(Reg(d), i32));
    }

    method GetElementPtr(s: Symbol, index: Value) returns (r: Result<Value>)
      requires s.symType.ValueSym?
      modifies this`out, this`reg
      ensures Follows(ElementAddress(s, s.symType.vtype, index, old(reg)), r, old(out), out, reg)
    {
      var vt := s.symType.vtype;
      if vt.arrayLength.None? {
        return Throws(NullPointer);
      }
      if vt.arrayLength.value == 0 {
        var first := AllocReg();
        Print(Load(first, BasicText(vt) + "*", IrText(s)));
        var d := AllocReg();
        Print(ElementPtr(d, BasicText(vt), Reg(first), [index.name]));
        return Ok(Value(Reg(d), PointerTo(vt)));
      }
      var d := AllocReg();
      Print(ElementPtr(d, VarTypeText(vt), IrText(s), ["0", index.name]));
      return Ok(Value(Reg(d), PointerTo(vt)));
    }

    /** The load of a scalar through `ptr`, sign-extended when it is a `char`. */
    method LoadValue(vt: ValueType, ptr: string) returns (v: Value)
      modifies this`out, this`reg
      ensures Follows(Ok(LoadScalar(vt, ptr, old(reg))), Ok(v), old(out), out, reg)
    {
      var d := AllocReg();
      Print(Load(d, BasicText(vt), ptr));
      if vt.basic == INT {
        return Value(Reg(d), i32);
      }
      var c := ConvertToI32(Value(Reg(d), i8));
      return c.value;
    }

    method GenExp(e: BiExp) returns (r: Result<Value>)
      requires Valid()
      modifies this`out, this`reg
      ensures Follows(ExpCode(table.scopes, table.current, e, old(reg)), r, old(out), out, reg)
      decreases e
    {
      if e.op.None? {
        r := GenOperand(e.left);
        return;
      }
      var left := GenOperand(e.left);
      if left.Throws? {
        return Throws(left.exception);
      }
      if e.right.None? {
        return Throws(NullPointer);
      }
      var right := GenOperand(e.right.value);
      if right.Throws? {
        return Throws(right.exception);
      }
      var d := AllocReg();
      var op := ArithOp(e.op.value.kind);
      if op.Some? {
        Print(Arith(d, op.value, left.value.name, right.value.name));
      }
      return Ok(Value(Reg(d), i32));
    }

    method GenOperand(o: Operand) returns (r: Result<Value>)
      requires Valid()
      modifies this`out, this`reg
      ensures Follows(OperandCode(table.scopes, table.current, o, old(reg)), r, old(out), out, reg)
      decreases o
    {
      match o
      case Sub(x) => r := GenExp(x);
      case Unary(u) => r := GenUnary(u);
    }

    method GenUnary(u: UnaryExp) returns (r: Result<Value>)
      requires Valid()
      modifies this`out, this`reg
      ensures Follows(UnaryCode(table.scopes, table.current, u, old(reg)), r, old(out), out, reg)
      decreases u
    {
      match u
      case Primary(_, p) => r := GenPrimary(p);
      case Call(_, _, _) => r := GenCall(u);
      case Prefix(_, op, x) =>
        var v := GenUnary(x);
        if v.Throws? || op.kind == PLUS {
          return v;
        }
        if op.kind == MINU {
          var d := AllocReg();
          Print(Arith(d, "sub", "0", v.value.name));
          return Ok(Value(Reg(d), i32));
        }
        if op.kind == NOT {
          return Ok(Value("", i32));
        }
        return Throws(Failed("unsupported UnaryExp"));
    }

    method GenPrimary(p: PrimaryExp) returns (r: Result<Value>)
      requires Valid()
      modifies this`out, this`reg
      ensures Follows(PrimaryCode(table.scopes, table.current, p, old(reg)), r, old(out), out, reg)
      decreases p
    {
      match p
      case Paren(_, e) => r := GenExp(e);
      case LvalExp(_, l) => r := GenLval(l);
      case Character(_, t) =>
        var c := GetASCII(t.text);
        if c.Throws? {
          return Throws(c.exception);
        }
        return Ok(Value(OptIntText(c.value), i32));
      case Number(_, t) => return Ok(Value(t.text, i32));
    }

    method GenLval(l: Lval) returns (r: Result<Value>)
      requires Valid()
      modifies this`out, this`reg
      ensures Follows(LvalCode(table.scopes, table.current, l, old(reg)), r, old(out), out, reg)
      decreases l
    {
      var found := FindValue(table.scopes, table.current, l.name);
      if found.Throws? {
        return Throws(found.exception);
      }
      var s := found.value;
      var vt := s.symType.vtype;
      if l.index.None? {
        if vt.arrayLength.None? {
          var v := LoadValue(vt, IrText(s));
          return Ok(v);
        }
        r := GetElementPtr(s, Value("0", i32));
        return;
      }
      var idx := GenExp(l.index.value);
      if idx.Throws? {
        return Throws(idx.exception);
      }
      var addr := GetElementPtr(s, idx.value);
      if addr.Throws? {
        return Throws(addr.exception);
      }
      var v := LoadValue(vt, addr.value.name);
      return Ok(v);
    }

    /** A call: the arguments, then `call` and, for a `char` result, its sign extension. */
    method GenCall(u: UnaryExp) returns (r: Result<Value>)
      requires Valid() && u.Call?
      modifies this`out, this`reg
      ensures Follows(CallCode(table.scopes, table.current, u, old(reg)), r, old(out), out, reg)
      decreases u, 1
    {
      var found := FindFunction(table.scopes, table.current, u.name);
      if found.Throws? {
        return Throws(found.exception);
      }
      var ft := found.value;
      ghost var before := out;
      ghost var whole := ArgsCode(table.scopes, table.current, u, ft, 0, reg);
      var vals := GenArgs(u, ft);
      if vals.Throws? {
        return Throws(vals.exception);
      }
      var v := EmitCall(vals.value, ft.returnType, u.name, whole.value, before);
      return Ok(v);
    }

    /** The argument loop: each argument in order, truncated when its parameter is a `char` scalar. */
    method GenArgs(u: UnaryExp, ft: FunctionType) returns (r: Result<seq<Value>>)
      requires Valid() && u.Call?
      modifies this`out, this`reg
      ensures Follows(ArgsCode(table.scopes, table.current, u, ft, 0, old(reg)), r, old(out), out, reg)
      decreases u, 0
    {
      ghost var whole := ArgsCode(table.scopes, table.current, u, ft, 0, reg);
      ghost var out0 := out;
      var vals: seq<Value> := [];
      var i := 0;
      while i < |u.args|
        invariant i <= |u.args|
        invariant Resumes(whole, ArgsCode(table.scopes, table.current, u, ft, i, reg), out0, out, vals)
        decreases |u.args| - i
      {
        ghost var outI, regI := out, reg;
        var a := GenExp(u.args[i]);
        if a.Throws? {
          return Throws(a.exception);
        }
        if i >= |ft.paramTypes| {
          return Throws(IndexOutOfBounds);
        }
        ghost var am := ExpCode(table.scopes, table.current, u.args[i], regI).value;
        var c := CastArgument(ft.paramTypes[i], a.value);
        if c.Throws? {
          return Throws(c.exception);
        }
        ghost var cm := ArgumentCast(ft.paramTypes[i], am.result, am.next).value;
        ArgsStep(table.scopes, table.current, u, ft, i, regI, am, cm);
        ResumesStep(whole, ArgsCode(table.scopes, table.current, u, ft, i, regI), ArgsCode(table.scopes, table.current, u, ft, i + 1, reg),
                    out0, outI, out, vals, c.value, am.code + cm.code);
        vals := vals + [c.value];
        i := i + 1;
      }
      assert out + [] == out && vals + [] == vals;
      return Ok(vals);
    }

    /** A `char` scalar parameter's argument is truncated to `i8`. */
    method CastArgument(pt: ValueType, v: Value) returns (r: Result<Value>)
      modifies this`out, this`reg
      ensures Follows(ArgumentCast(pt, v, old(reg)), r, old(out), out, reg)
    {
      if pt.arrayLength.None? && pt.basic == CHR {
        r := ConvertToI8(v);
      } else {
        r := Ok(v);
      }
    }

    /** The `call` line once the arguments `a` are printed. */
    method EmitCall(vals: seq<Value>, rt: ReturnType, name: string, ghost a: Emitted<seq<Value>>, ghost before: seq<Instr>)
      returns (v: Value)
      requires a.result == vals && a.next == reg && out == before + a.code
      modifies this`out, this`reg
      ensures Follows(Ok(Invocation(a, rt, name)), Ok(v), before, out, reg)
    {
      if rt == VoidReturn {
        Print(Invoke(None, "void", name, vals));
        return Value("", vo);
      }
      var d := AllocReg();
      if rt == IntReturn {
        Print(Invoke(Some(d), "i32", name, vals));
        return Value(Reg(d), i32);
      }
      Print(Invoke(Some(d), "i8", name, vals));
      var c := ConvertToI32(Value(Reg(d), i8));
      return c.value;
    }

    method GenTarget(l: Lval) returns (r: Result<Value>)
      requires Valid()
      modifies this`out, this`reg
      ensures Follows(Target(table.scopes, table.current, l, old(reg)), r, old(out), out, reg)
    {
      var found := FindValue(table.scopes, table.current, l.name);
      if found.Throws? {
        return Throws(found.exception);
      }
      var s := found.value;
      if l.index.None? {
        return Ok(Value(IrText(s), PointerTo(s.symType.vtype)));
      }
      var idx := GenExp(l.index.value);
      if idx.Throws? {
        return Throws(idx.exception);
      }
      r := GetElementPtr(s, idx.value);
    }

    method GenStore(isChar: bool, v: Value, addr: Value) returns (r: Result<()>)
      modifies this`out, this`reg
      ensures Follows(StoreCode(isChar, v, old(reg), addr), r, old(out), out, reg)
    {
      var value := v;
      if isChar {
        var c := ConvertToI8(v);
        if c.Throws? {
          return Throws(c.exception);
        }
        value := c.value;
      }
      Print(Store(TypeText(value.ty), value.name, TypeText(addr.ty), addr.name));
      return Ok(());
    }

    /** `caseNum == 0`. */
    method GenAssign(l: Lval, e: BiExp) returns (r: Result<()>)
      requires Valid()
      modifies this`out, this`reg
      ensures Follows(AssignCode(table.scopes, table.current, l, e, old(reg)), r, old(out), out, reg)
    {
      ghost var sc, cur, out0 := table.scopes, table.current, out;
      var t := GenTarget(l);
      if t.Throws? {
        return Throws(t.exception);
      }
      ghost var tm, out1 := Target(sc, cur, l, old(reg)).value, out;
      r := GenAssigned(t.value, e);
      AssignSplit(sc, cur, l, e, old(reg), tm);
      Sequenced(AssignCode(sc, cur, l, e, old(reg)), tm, AssignedCode(sc, cur, tm.result, e, tm.next), r, out0, out1, out, reg);
    }

    method GenAssigned(addr: Value, e: BiExp) returns (r: Result<()>)
      requires Valid()
      modifies this`out, this`reg
      ensures Follows(AssignedCode(table.scopes, table.current, addr, e, old(reg)), r, old(out), out, reg)
    {
      var v := GenExp(e);
      if v.Throws? {
        return Throws(v.exception);
      }
      r := GenStore(addr.ty == i8ptr, v.value, addr);
    }

    /** `caseNum == 8` and `caseNum == 9`. */
    method GenRead(l: Lval, callee: string) returns (r: Result<()>)
      requires Valid()
      modifies this`out, this`reg
      ensures Follows(ReadCode(table.scopes, table.current, l, callee, old(reg)), r, old(out), out, reg)
    {
      ghost var sc, cur, out0 := table.scopes, table.current, out;
      var t := GenTarget(l);
      if t.Throws? {
        return Throws(t.exception);
      }
      ghost var tm, out1 := Target(sc, cur, l, old(reg)).value, out;
      r := GenReadInto(t.value, callee);
      ReadSplit(sc, cur, l, callee, old(reg), tm);
      Sequenced(ReadCode(sc, cur, l, callee, old(reg)), tm, ReadIntoCode(tm.result, callee, tm.next), r, out0, out1, out, reg);
    }

    method GenReadInto(addr: Value, callee: string) returns (r: Result<()>)
      modifies this`out, this`reg
      ensures Follows(ReadIntoCode(addr, callee, old(reg)), r, old(out), out, reg)
    {
      var d := AllocReg();
      Print(Invoke(Some(d), "i32", callee, []));
      r := GenStore(addr.ty == i8ptr, Value(Reg(d), i32), addr);
    }

    /** `caseNum == 7`. */
    method GenReturn(e: Option<BiExp>) returns (r: Result<()>)
      requires Valid()
      modifies this`out, this`reg
      ensures Follows(ReturnCode(table.scopes, table.current, e, old(reg)), r, old(out), out, reg)
    {
      if e.None? {
        Print(Ret(None));
        return Ok(());
      }
      var v := GenExp(e.value);
      if v.Throws? {
        return Throws(v.exception);
      }
      if table.current == 0 {
        return Throws(NullPointer);
      }
      var value := v.value;
      if table.scopes[table.current - 1].returnType == Some(CharReturn) {
        var c := ConvertToI8(value);
        if c.Throws? {
          return Throws(c.exception);
        }
        value := c.value;
      }
      Print(Ret(Some(value)));
      return Ok(());
    }

    method OutputAChar(v: Value) returns (r: Result<()>)
      modifies this`out
      ensures match Output(v, "putch") case Throws(x) => r == Throws(x) case Ok(code) => r == Ok(()) && out == old(out) + code
    {
      if v.ty.basic != I32 {
        return Throws(Failed("output"));
      }
      Print(Invoke(None, "void", "putch", [v]));
      return Ok(());
    }

    method OutputANumber(v: Value) returns (r: Result<()>)
      modifies this`out
      ensures match Output(v, "putint") case Throws(x) => r == Throws(x) case Ok(code) => r == Ok(()) && out == old(out) + code
    {
      if v.ty.basic != I32 {
        return Throws(Failed("output"));
      }
      Print(Invoke(None, "void", "putint", [v]));
      return Ok(());
    }

    /** `%c` prints with `outputAChar`, `%d` with `outputANumber`. */
    method GenPlaceholder(arg: BiExp, isChar: bool) returns (r: Result<()>)
      requires Valid()
      modifies this`out, this`reg
      ensures Follows(PlaceholderCode(table.scopes, table.current, arg, isChar, old(reg)), r, old(out), out, reg)
    {
      var v := GenExp(arg);
      if v.Throws? {
        return Throws(v.exception);
      }
      ghost var out1 := out;
      if isChar {
        r := OutputAChar(v.value);
      } else {
        r := OutputANumber(v.value);
      }
      assert r.Ok? ==> out == old(out) + (ExpCode(table.scopes, table.current, arg, old(reg)).value.code + out[|out1|..]);
    }

    /** `caseNum == 10`: the format text is walked once, character by character. */
    method GenPrintf(format: Token, args: seq<BiExp>) returns (r: Result<()>)
      requires Valid()
      modifies this`out, this`reg
      ensures Follows(PrintfStmtCode(table.scopes, table.current, format, args, old(reg)), r, old(out), out, reg)
    {
      var t := format.text;
      if |t| < 2 {
        return Throws(IndexOutOfBounds);
      }
      var f := t[1..|t| - 1];
      ghost var whole := PrintfCode(table.scopes, table.current, f, args, 0, 0, reg);
      ghost var out0 := out;
      var expIndex := 0;
      var i := 0;
      while i < |f|
        invariant i <= |f|
        invariant Continues(whole, PrintfCode(table.scopes, table.current, f, args, i, expIndex, reg), out0, out)
        decreases |f| - i
      {
        ghost var outI, regI := out, reg;
        if i < |f| - 1 {
          if f[i] == '%' && (f[i + 1] == 'c' || f[i + 1] == 'd') {
            if expIndex >= |args| {
              return Throws(IndexOutOfBounds);
            }
            var p := GenPlaceholder(args[expIndex], f[i + 1] == 'c');
            if p.Throws? {
              return Throws(p.exception);
            }
            ghost var pm := PlaceholderCode(table.scopes, table.current, args[expIndex], f[i + 1] == 'c', regI).value;
            PrintfArgStep(table.scopes, table.current, f, args, i, expIndex, regI, pm);
            ContinuesStep(whole, PrintfCode(table.scopes, table.current, f, args, i, expIndex, regI),
                          PrintfCode(table.scopes, table.current, f, args, i + 2, expIndex + 1, reg), out0, outI, out, pm.code);
            expIndex := expIndex + 1;
            i := i + 2;
            continue;
          } else if f[i] == '\\' && f[i + 1] == 'n' {
            var _ := OutputAChar(Value("10", i32));
            PrintfCharStep(table.scopes, table.current, f, args, i, expIndex, reg, 2, "10");
            ContinuesStep(whole, PrintfCode(table.scopes, table.current, f, args, i, expIndex, reg),
                          PrintfCode(table.scopes, table.current, f, args, i + 2, expIndex, reg), out0, outI, out, [Putch("10")]);
            i := i + 2;
            continue;
          }
        }
        var _ := OutputAChar(Value(IntToString(f[i] as int), i32));
        PrintfCharStep(table.scopes, table.current, f, args, i, expIndex, reg, 1, IntToString(f[i] as int));
        ContinuesStep(whole, PrintfCode(table.scopes, table.current, f, args, i, expIndex, reg),
                      PrintfCode(table.scopes, table.current, f, args, i + 1, expIndex, reg), out0, outI, out, [Putch(IntToString(f[i] as int))]);
        i := i + 1;
      }
      assert out0 + whole.value.code == out + [];
      return Ok(());
    }

    /** The statements that leave the table alone (every form but a block). */
    method GenSimpleStmt(s: Stmt) returns (r: Result<()>)
      requires Valid() && !s.BlockStmt?
      modifies this`out, this`reg
      ensures Follows(SimpleStmtCode(table.scopes, table.current, s, old(reg)), r, old(out), out, reg)
    {
      match s
      case Assign(_, l, e) => r := GenAssign(l, e);
      case ExpStmt(_, e) =>
        if e.Some? {
          var v := GenExp(e.value);
          if v.Throws? {
            return Throws(v.exception);
          }
        }
        return Ok(());
      case Return(_, e) => r := GenReturn(e);
      case GetInt(_, l) => r := GenRead(l, "getint");
      case GetChar(_, l) => r := GenRead(l, "getchar");
      case Printf(_, format, args) => r := GenPrintf(format, args);
      case _ => return Throws(Failed("unsupported statement"));
    }

    // Declarations.

    /** The store of element `i` of a local's initial value at `ptr`. */
    method GenElementInit(vt: ValueType, cv: seq<Option<int32>>, init: Option<InitVal>, i: nat, ty: string, ptr: string)
      returns (r: Result<()>)
      requires Valid()
      modifies this`out, this`reg
      ensures Follows(ElementInitCode(table.scopes, table.current, vt, cv, init, i, ty, ptr, old(reg)), r, old(out), out, reg)
    {
      if i >= |cv| {
        return Throws(IndexOutOfBounds);
      }
      if cv[i].Some? {
        Print(Store(ty, IntToString(cv[i].value), ty + "*", ptr));
        return Ok(());
      }
      if init.None? {
        return Throws(NullPointer);
      }
      if i >= |init.value.exps| {
        return Throws(IndexOutOfBounds);
      }
      var v := GenExp(init.value.exps[i]);
      if v.Throws? {
        return Throws(v.exception);
      }
      var value := v.value;
      if vt.basic == CHR {
        var c := ConvertToI8(value);
        if c.Throws? {
          return Throws(c.exception);
        }
        value := c.value;
      }
      Print(Store(ty, value.name, ty + "*", ptr));
      return Ok(());
    }

    /** Element `i` of a local array: its address, then its store. */
    method GenElement(s: Symbol, init: Option<InitVal>, i: nat) returns (r: Result<()>)
      requires Valid() && s.symType.ValueSym? && s.symType.vtype.arrayLength.Some?
      modifies this`out, this`reg
      ensures Follows(ElementCode(table.scopes, table.current, s, init, i, old(reg)), r, old(out), out, reg)
    {
      var vt := s.symType.vtype;
      ghost var sc, cur, out0 := table.scopes, table.current, out;
      var a := GetElementPtr(s, Value(IntToString(i), i32));
      ghost var am, out1 := ElementAddress(s, vt, Value(IntToString(i), i32), old(reg)).value, out;
      r := GenElementInit(vt, s.constValues, init, i, BasicText(vt), a.value.name);
      ElementSplit(sc, cur, s, init, i, old(reg), am);
      Sequenced(ElementCode(sc, cur, s, init, i, old(reg)), am,
                ElementInitCode(sc, cur, vt, s.constValues, init, i, BasicText(vt), am.result.name, am.next), r, out0, out1, out, reg);
    }

    /** Each element of a local array in turn. */
    method GenArrayInit(s: Symbol, init: Option<InitVal>) returns (r: Result<()>)
      requires Valid() && s.symType.ValueSym? && s.symType.vtype.arrayLength.Some?
      modifies this`out, this`reg
      ensures Follows(ArrayInitCode(table.scopes, table.current, s, init, 0, s.symType.vtype.arrayLength.value, old(reg)), r, old(out), out, reg)
    {
      var n := s.symType.vtype.arrayLength.value;
      ghost var sc, cur := table.scopes, table.current;
      ghost var whole := ArrayInitCode(sc, cur, s, init, 0, n, reg);
      ghost var out0 := out;
      var i: nat := 0;
      while i < n
        invariant i == 0 || i <= n
        invariant Continues(whole, ArrayInitCode(sc, cur, s, init, i, n, reg), out0, out)
        decreases n - i
      {
        ghost var outI, regI := out, reg;
        var e := GenElement(s, init, i);
        if e.Throws? {
          return e;
        }
        ghost var em := ElementCode(sc, cur, s, init, i, regI).value;
        ArrayInitStep(sc, cur, s, init, i, n, regI, em);
        ContinuesStep(whole, ArrayInitCode(sc, cur, s, init, i, n, regI),
                      ArrayInitCode(sc, cur, s, init, i + 1, n, reg), out0, outI, out, em.code);
        i := i + 1;
      }
      assert out0 + whole.value.code == out + [];
      return Ok(());
    }

    /** The initial value of a local whose slot `slot` is taken and recorded. */
    method GenLocalInit(s: Symbol, init: Option<InitVal>, slot: nat) returns (r: Result<()>)
      requires Valid() && s.symType.ValueSym? && reg == slot + 1
      modifies this`out, this`reg
      ensures Follows(LocalInitCode(table.scopes, table.current, s, init, slot), r, old(out), out, reg)
    {
      var vt := s.symType.vtype;
      if vt.arrayLength.None? {
        r := GenElementInit(vt, s.constValues, init, 0, VarTypeText(vt), Reg(slot));
      } else {
        r := GenArrayInit(s.(irName := Some(Reg(slot))), init);
      }
    }

    /**
     * A local definition: a fresh slot, recorded as the name's IR name, then its
     * initial value, computed in the table that already knows the slot.
     */
    method GenLocalDef(d: VarConstDef) returns (r: Result<()>)
      requires Valid()
      modifies this`out, this`reg, table`scopes
      ensures Valid()
      ensures forall n :: n != d.name && table.current != 0 ==> table.Lookup(n) == old(table.Lookup(n))
      ensures match FindValue(old(table.scopes), table.current, d.name)
        case Throws(x) => r == Throws(x) && table.scopes == old(table.scopes)
        case Ok(s) =>
          table.Lookup(d.name) == Some(s.(irName := Some(Reg(old(reg))))) &&
          Follows(LocalDefCode(table.scopes, table.current, s, d.init, old(reg)), r, old(out), out, reg)
    {
      var found := FindValue(table.scopes, table.current, d.name);
      if found.Throws? {
        return Throws(found.exception);
      }
      var s := found.value;
      var slot := AllocReg();
      Print(Alloca(slot, VarTypeText(s.symType.vtype)));
      ghost var before, out1 := table.scopes, out;
      var _ := table.SetIrName(d.name, Reg(slot));
      forall n {
        LookupAfterRenamed(before, table.current, d.name, Reg(slot), n);
      }
      r := GenLocalInit(s, d.init, slot);
      LocalDefSplit(table.scopes, table.current, s, d.init, slot);
      Sequenced(LocalDefCode(table.scopes, table.current, s, d.init, slot), Emitted([Alloca(slot, VarTypeText(s.symType.vtype))], (), slot),
                LocalInitCode(table.scopes, table.current, s, d.init, slot), r, old(out), out1, out, reg);
    }

    /** The elements of a global array's initialiser, `tag value` each, separated by commas. */
    method GenElements(tag: string, cv: seq<Option<int32>>, n: int) returns (r: Result<string>)
      ensures r == if n > |cv| then Throws(IndexOutOfBounds) else Ok(ElementsText(tag, cv, if n > 0 then n else 0, n))
    {
      var elements := "";
      var i: nat := 0;
      while i < n
        invariant (i == 0 || i <= n) && i <= |cv|
        invariant elements == ElementsText(tag, cv, i, n)
        decreases n - i
      {
        if i >= |cv| {
          return Throws(IndexOutOfBounds);
        }
        elements := elements + tag + " " + OptIntText(cv[i]);
        if i < n - 1 {
          elements := elements + ", ";
        }
        i := i + 1;
      }
      return Ok(elements);
    }

    /** A global definition: the name's IR name becomes `@name`, then its definition line. */
    method GenGlobalDef(d: VarConstDef) returns (r: Result<()>)
      requires Valid()
      modifies this`out, table`scopes
      ensures Valid()
      ensures forall n :: n != d.name && table.current != 0 ==> table.Lookup(n) == old(table.Lookup(n))
      ensures match FindValue(old(table.scopes), table.current, d.name)
        case Throws(x) => r == Throws(x) && table.scopes == old(table.scopes)
        case Ok(s) =>
          table.Lookup(d.name) == Some(s.(irName := Some("@" + s.name))) &&
          match GlobalCode(s) case Throws(x) => r == Throws(x) case Ok(g) => r == Ok(()) && out == old(out) + [g]
    {
      var found := FindValue(table.scopes, table.current, d.name);
      if found.Throws? {
        return Throws(found.exception);
      }
      var s := found.value;
      var vt := s.symType.vtype;
      var cv := s.constValues;
      ghost var before := table.scopes;
      var _ := table.SetIrName(d.name, "@" + s.name);
      forall n {
        LookupAfterRenamed(before, table.current, d.name, "@" + s.name, n);
      }
      if vt.arrayLength.None? {
        if |cv| == 0 {
          return Throws(IndexOutOfBounds);
        }
        Print(GlobalDef(s.name, vt.isConst, BasicText(vt), OptIntText(cv[0])));
        return Ok(());
      }
      var elements := GenElements(BasicText(vt), cv, vt.arrayLength.value);
      if elements.Throws? {
        return Throws(elements.exception);
      }
      Print(GlobalDef(s.name, vt.isConst, VarTypeText(vt), "[" + elements.value + "]"));
      return Ok(());
    }

    /** `codeGen(Decl)`: globals at the root scope, locals elsewhere; afterwards every defined name has an IR name. */
    method GenDecl(decl: Decl) returns (r: Result<()>)
      requires Valid()
      modifies this`out, this`reg, table`scopes
      ensures Valid()
      ensures r.Ok? ==>
        old(out) <= out && table.current != 0 &&
        forall j :: 0 <= j < |decl.defs| ==> table.Lookup(decl.defs[j].name).Some? && table.Lookup(decl.defs[j].name).value.irName.Some?
    {
      if table.current == 0 {
        return Throws(NullPointer);
      }
      var global := table.current == 1;
      var i := 0;
      while i < |decl.defs|
        invariant i <= |decl.defs| && Valid() && old(out) <= out
        invariant forall j :: 0 <= j < i ==> table.Lookup(decl.defs[j].name).Some? && table.Lookup(decl.defs[j].name).value.irName.Some?
      {
        var x: Result<()>;
        if global {
          x := GenGlobalDef(decl.defs[i]);
        } else {
          x := GenLocalDef(decl.defs[i]);
        }
        if x.Throws? {
          return x;
        }
        i := i + 1;
      }
      return Ok(());
    }

    // Scopes, blocks and functions.

    /** `pushScope`: into child scope `nextScope` when there is one, and `nextScope` moves on. */
    method PushScope() returns (r: Result<()>)
      requires Valid()
      modifies table`current, this`nextScope
      ensures Valid()
      ensures old(table.current) == 0 ==> r == Throws(NullPointer) && table.current == 0 && nextScope == old(nextScope)
      ensures old(table.current) != 0 ==>
        r == Ok(()) && nextScope == old(nextScope) + 1 &&
        table.current == if old(nextScope) >= 0 && old(nextScope) in table.scopes[old(table.current) - 1].children
                         then old(nextScope) else old(table.current)
      ensures table.current != old(table.current) ==> table.scopes[table.current - 1].parent == Some(old(table.current))
    {
      if table.current == 0 {
        return Throws(NullPointer);
      }
      table.JumpToChild(nextScope);
      nextScope := nextScope + 1;
      return Ok(());
    }

    /** `popScope`: back to the parent scope (none above the root). */
    method PopScope() returns (r: Result<()>)
      requires Valid()
      modifies table`current
      ensures Valid()
      ensures old(table.current) == 0 ==> r == Throws(NullPointer) && table.current == 0
      ensures old(table.current) != 0 ==>
        r == Ok(()) && table.current == match table.scopes[old(table.current) - 1].parent case Some(p) => p case None => 0
    {
      if table.current == 0 {
        return Throws(NullPointer);
      }
      table.BackToUpperScope();
      return Ok(());
    }

    /** `codeGen(Stmt)`: a block opens the next scope; every other statement leaves the table alone. */
    method GenStmt(s: Stmt) returns (r: Result<()>)
      requires Valid()
      modifies this`out, this`reg, this`nextScope, table`current, table`scopes
      ensures Valid() && old(nextScope) <= nextScope
      ensures r.Ok? ==> old(out) <= out
      ensures !s.BlockStmt? ==>
        table.scopes == old(table.scopes) && table.current == old(table.current) && nextScope == old(nextScope) &&
        Follows(SimpleStmtCode(table.scopes, table.current, s, old(reg)), r, old(out), out, reg)
      decreases s
    {
      if !s.BlockStmt? {
        r := GenSimpleStmt(s);
        return;
      }
      var p := PushScope();
      if p.Throws? {
        return p;
      }
      r := GenBlock(s.block);
      if r.Throws? {
        return;
      }
      r := PopScope();
    }

    /** `codeGen(Block)`: its items in order. */
    method GenBlock(b: Block) returns (r: Result<()>)
      requires Valid()
      modifies this`out, this`reg, this`nextScope, table`current, table`scopes
      ensures Valid() && old(nextScope) <= nextScope
      ensures r.Ok? ==> old(out) <= out
      decreases b
    {
      var i := 0;
      while i < |b.items|
        invariant i <= |b.items| && Valid() && old(nextScope) <= nextScope && old(out) <= out
      {
        var item := b.items[i];
        var x: Result<()>;
        if item.DeclItem? {
          x := GenDecl(item.decl);
        } else {
          x := GenStmt(item.stmt);
        }
        if x.Throws? {
          return x;
        }
        i := i + 1;
      }
      return Ok(());
    }

    /**
     * The signature's parameter list: the first loop of a function prologue, as
     * `ParamsRun` describes it from the scopes it starts with.
     */
    /**
     * One turn of the signature loop, for parameter `i`: it takes register `%i`
     * as its IR name and adds its type to `params`, as `ParamsRun` describes, or the
     * loop stops with the exception the whole loop ends in.
     */
    method ParamsStep(ghost sc: seq<Scope>, ghost cur: nat, pn: seq<string>, pt: seq<ValueType>, i: nat, params: seq<Param>)
      returns (r: Result<seq<Param>>)
      requires Valid() && ParentsOlder(sc) && 1 <= cur <= |sc| && table.current == cur && i < |pn| && reg == i
      requires ParamsRun(sc, cur, pn, pt, i) == Ok(Renaming([], table.scopes, params))
      modifies this`reg, table`scopes
      ensures Valid() && reg == i + 1
      ensures r.Throws? ==> ParamsRun(sc, cur, pn, pt, |pn|) == Throws(r.exception)
      ensures r.Ok? ==> ParamsRun(sc, cur, pn, pt, i + 1) == Ok(Renaming([], table.scopes, r.value))
    {
      ghost var mid := table.scopes;
      ParamsRunFails(sc, cur, pn, pt, i, params, mid);
      var rn := AllocReg();
      var found := table.SetIrName(pn[i], Reg(rn));
      if !found {
        return Throws(NullPointer);
      }
      if i >= |pt| {
        return Throws(IndexOutOfBounds);
      }
      ParamsRunNext(sc, cur, pn, pt, i, params, mid);
      r := Ok(params + [Param(ParamTypeText(pt[i]), rn, i < |pt| - 1)]);
    }

    /**
     * The parameters take the registers `%0 .. %(n - 1)` as their IR names and make
     * up the signature: the first loop of a function prologue, as `ParamsRun` describes it.
     */
    method GenParams(ft: FunctionType) returns (r: Result<seq<Param>>)
      requires Valid() && table.current != 0 && reg == 0
      modifies this`reg, table`scopes
      ensures Valid()
      ensures match ParamsRun(old(table.scopes), table.current, ft.paramNames, ft.paramTypes, |ft.paramNames|)
        case Throws(x) => r == Throws(x)
        case Ok(p) => r == Ok(p.result) && table.scopes == p.scopes && reg == |ft.paramNames|
    {
      var pn, pt := ft.paramNames, ft.paramTypes;
      ghost var sc, cur := table.scopes, table.current;
      assert ParentsOlder(sc) && 1 <= cur <= |sc|;
      var params: seq<Param> := [];
      var i := 0;
      while i < |pn|
        invariant ParentsOlder(sc) && 1 <= cur <= |sc|
        invariant i <= |pn| && Valid() && table.current == cur && reg == i
        invariant ParamsRun(sc, cur, pn, pt, i) == Ok(Renaming([], table.scopes, params))
      {
        r := ParamsStep(sc, cur, pn, pt, i, params);
        if r.Throws? {
          return;
        }
        params := r.value;
        i := i + 1;
      }
      return Ok(params);
    }

    /**
     * One parameter of the spill loop once its slot is taken: the slot's `alloca`,
     * then the store of the value the name stands for, and the slot becomes its IR name.
     */
    method SpillOne(name: string, t: string, slot: nat) returns (r: Result<Symbol>)
      requires Valid() && table.current != 0
      modifies this`out, table`scopes
      ensures Valid()
      ensures r == if LookupIn(old(table.scopes), table.current, name).None? then Throws(NullPointer)
        else Ok(LookupIn(old(table.scopes), table.current, name).value)
      ensures r.Ok? ==>
        out == old(out) + SlotCopy(slot, t, IrText(r.value)) &&
        table.scopes == Renamed(old(table.scopes), table.current, name, Reg(slot))
    {
      Print(Alloca(slot, t));
      r := FindSymbol(table.scopes, table.current, name);
      if r.Throws? {
        return;
      }
      Print(Store(t, IrText(r.value), t + "*", Reg(slot)));
      var _ := table.SetIrName(name, Reg(slot));
    }

    /**
     * One turn of the spill loop, for parameter `i`: its slot is taken, then it
     * is copied there as `SpillRun` describes, or the loop stops with the exception
     * the whole loop ends in.
     */
    method SpillStep(ghost sc: seq<Scope>, ghost cur: nat, pn: seq<string>, pt: seq<ValueType>, ghost n: nat, i: nat,
                     ghost code: seq<Instr>, ghost out0: seq<Instr>) returns (r: Result<()>, ghost code': seq<Instr>)
      requires Valid() && ParentsOlder(sc) && 1 <= cur <= |sc| && table.current == cur && i < |pn|
      requires reg == n + i && out == out0 + code && SpillRun(sc, cur, pn, pt, n, i) == Ok(Renaming(code, table.scopes, ()))
      modifies this`out, this`reg, table`scopes
      ensures Valid() && reg == n + i + 1
      ensures r.Throws? ==> SpillRun(sc, cur, pn, pt, n, |pn|) == Throws(r.exception)
      ensures r.Ok? ==> out == out0 + code' && SpillRun(sc, cur, pn, pt, n, i + 1) == Ok(Renaming(code', table.scopes, ()))
    {
      code' := code;
      ghost var mid, before := table.scopes, out;
      SpillRunFails(sc, cur, pn, pt, n, i, code, mid);
      var slot := AllocReg();
      if i >= |pt| {
        return Throws(IndexOutOfBounds), code';
      }
      var t := ParamTypeText(pt[i]);
      var sym := SpillOne(pn[i], t, slot);
      if sym.Throws? {
        return Throws(sym.exception), code';
      }
      SpillAdvance(sc, cur, pn, pt, n, i, code, mid, slot, t, sym, out0, before, out);
      code' := code + SlotCopy(slot, t, IrText(sym.value));
      r := Ok(());
    }

    /**
     * Every parameter is copied to a stack slot, which becomes its IR name: the
     * second loop of a function prologue, as `SpillRun` describes it.
     */
    method GenSpill(ft: FunctionType) returns (r: Result<()>)
      requires Valid() && table.current != 0
      modifies this`out, this`reg, table`scopes
      ensures Valid()
      ensures match SpillRun(old(table.scopes), table.current, ft.paramNames, ft.paramTypes, old(reg), |ft.paramNames|)
        case Throws(x) => r == Throws(x)
        case Ok(p) => r == Ok(()) && out == old(out) + p.code && table.scopes == p.scopes && reg == old(reg) + |ft.paramNames|
    {
      var pn, pt := ft.paramNames, ft.paramTypes;
      ghost var sc, cur, n, out0 := table.scopes, table.current, reg, out;
      assert ParentsOlder(sc) && 1 <= cur <= |sc|;
      ghost var code: seq<Instr> := [];
      var i := 0;
      while i < |pn|
        invariant ParentsOlder(sc) && 1 <= cur <= |sc|
        invariant i <= |pn| && Valid() && table.current == cur && reg == n + i && out == out0 + code
        invariant SpillRun(sc, cur, pn, pt, n, i) == Ok(Renaming(code, table.scopes, ()))
      {
        r, code := SpillStep(sc, cur, pn, pt, n, i, code, out0);
        if r.Throws? {
          return;
        }
        i := i + 1;
      }
      return Ok(());
    }

    /** A function's prologue, as `PrologueCode` describes it from the scopes it starts with. */
    method GenPrologue(name: string, ft: FunctionType) returns (r: Result<()>)
      requires Valid() && table.current != 0 && reg == 0
      modifies this`out, this`reg, table`scopes
      ensures Valid()
      ensures Renames(PrologueCode(old(table.scopes), table.current, name, ft), r, old(out), out, table.scopes)
    {
      ghost var sc, cur := table.scopes, table.current;
      var params := GenParams(ft);
      if params.Throws? {
        return Throws(params.exception);
      }
      ghost var p := ParamsRun(sc, cur, ft.paramNames, ft.paramTypes, |ft.paramNames|).value;
      var header := Define(ReturnText(ft.returnType), name, params.value);
      Print(header);
      ghost var out1 := out;
      r := GenSpill(ft);
      PrologueSplit(sc, cur, name, ft, p);
      RenamesSequenced(PrologueCode(sc, cur, name, ft), [header],
        SpillRun(p.scopes, cur, ft.paramNames, ft.paramTypes, |ft.paramNames|, |ft.paramNames|), r, old(out), out1, out, table.scopes);
    }

    /**
     * `codeGen(FuncDef)` for a function other than `main`: its header, the spill of
     * its parameters, its body in its own scope, and the closing brace.
     */
    method GenFuncDef(fd: FuncDef) returns (r: Result<()>)
      requires Valid()
      modifies this`out, this`reg, this`nextScope, table`current, table`scopes
      ensures Valid() && old(nextScope) <= nextScope
      ensures FindFunction(old(table.scopes), old(table.current), fd.name).Throws? ==>
        r == Throws(FindFunction(old(table.scopes), old(table.current), fd.name).exception)
      ensures r.Ok? ==>
        var f := FindSymbol(old(table.scopes), old(table.current), fd.name);
        f.Ok? && f.value.symType.FunctionSym? &&
        FunctionHeader(old(out), out, f.value.name, f.value.symType.ftype) && out[|out| - 1] == Close
    {
      var found := FindSymbol(table.scopes, table.current, fd.name);
      if found.Throws? {
        return Throws(found.exception);
      }
      var sym := found.value;
      if sym.symType.ValueSym? {
        return Throws(ClassCast);
      }
      var ft := sym.symType.ftype;
      var _ := table.SetIrName(fd.name, "@" + sym.name);
      ResetReg();
      var _ := PushScope();
      ghost var sc, cur, out0 := table.scopes, table.current, out;
      var pro := GenPrologue(sym.name, ft);
      if pro.Throws? {
        return pro;
      }
      ghost var out1 := out;
      var b := GenBlock(fd.block);
      if b.Throws? {
        return b;
      }
      var q := PopScope();
      if q.Throws? {
        return q;
      }
      Print(Close);
      HeaderKept(sc, cur, sym.name, ft, out0, out1, out);
      return Ok(());
    }

    /** `codeGen(FuncDef)` for `main`: no parameters, then the body in its own scope. */
    method GenMain(m: MainFuncDef) returns (r: Result<()>)
      requires Valid()
      modifies this`out, this`reg, this`nextScope, table`current, table`scopes
      ensures Valid() && old(nextScope) <= nextScope
      ensures r.Ok? ==> old(out) + [Define("i32", "main", [])] <= out && out[|out| - 1] == Close
    {
      Print(Define("i32", "main", []));
      ResetReg();
      var p := PushScope();
      if p.Throws? {
        return p;
      }
      r := GenBlock(m.block);
      if r.Throws? {
        return;
      }
      r := PopScope();
      if r.Throws? {
        return;
      }
      Print(Close);
    }

    /**
     * `codeGen(CompUnit)`: the library declarations, then from the root scope the
     * globals, the functions and `main` (a missing `main` throws).
     */
    method GenCompUnit(cu: CompUnit) returns (r: Result<()>)
      requires Valid()
      modifies this`out, this`reg, this`nextScope, table`current, table`scopes
      ensures Valid()
      ensures r.Ok? ==> old(out) + [Declarations] <= out && out[|out| - 1] == Close
    {
      Print(Declarations);
      nextScope := 1;
      var p := PushScope();
      if p.Throws? {
        return p;
      }
      var i := 0;
      while i < |cu.decls|
        invariant i <= |cu.decls| && Valid() && old(out) + [Declarations] <= out
      {
        var x := GenDecl(cu.decls[i]);
        if x.Throws? {
          return x;
        }
        i := i + 1;
      }
      i := 0;
      while i < |cu.funcDefs|
        invariant i <= |cu.funcDefs| && Valid() && old(out) + [Declarations] <= out
      {
        var x := GenFuncDef(cu.funcDefs[i]);
        if x.Throws? {
          return x;
        }
        i := i + 1;
      }
      if cu.main.None? {
        return Throws(NullPointer);
      }
      r := GenMain(cu.main.value);
    }
  }
}
