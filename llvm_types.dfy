/** The IR's types and their printed form (llvm/Type.java). */
module LlvmTypes {
  import opened Outcomes
  import opened JavaInt
  import opened Text

  datatype BasicType = I32 | I8 | I1 | Vo | I32Ptr | I8Ptr | I32Arr | I8Arr | I32ArrPtr | I8ArrPtr

  /** A type: its kind and, for the array kinds, a length (`null` elsewhere). */
  datatype LType = LType(basic: BasicType, arrayLength: Option<int>)

  /** The factory methods: each basic kind with a `null` length. */
  function Basic(b: BasicType): (t: LType)
    ensures t.basic == b && t.arrayLength.None?
  {
    LType(b, None)
  }

  const i32: LType := Basic(I32)
  const i8: LType := Basic(I8)
  const i1: LType := Basic(I1)
  const vo: LType := Basic(Vo)
  const i32ptr: LType := Basic(I32Ptr)
  const i8ptr: LType := Basic(I8Ptr)

  /** Java's `"" + arrayLength` for an `Integer` that may be `null`. */
  function LengthText(n: Option<int>): string {
    match n
    case Some(v) => IntToString(v)
    case None => "null"
  }

  predicate IsArrayKind(b: BasicType) {
    b == I32Arr || b == I8Arr || b == I32ArrPtr || b == I8ArrPtr
  }

  /** `toString`; `i1` is not in the switch and prints nothing. */
  function TypeText(t: LType): string {
    match t.basic
    case I32 => "i32"
    case I8 => "i8"
    case Vo => "void"
    case I32Ptr => "i32*"
    case I8Ptr => "i8*"
    case I32Arr => "[" + LengthText(t.arrayLength) + " x i32]"
    case I8Arr => "[" + LengthText(t.arrayLength) + " x i8]"
    case I32ArrPtr => "[" + LengthText(t.arrayLength) + " x i32]*"
    case I8ArrPtr => "[" + LengthText(t.arrayLength) + " x i8]*"
    case I1 => ""
  }

  /** The scalar and pointer kinds print as distinct, non-empty names, whatever their length field. */
  lemma ScalarTextsDistinct(t: LType, u: LType)
    requires !IsArrayKind(t.basic) && !IsArrayKind(u.basic) && t.basic != I1 && u.basic != I1
    ensures TypeText(t) != ""
    ensures TypeText(t) == TypeText(u) <==> t.basic == u.basic
  {
  }

  /** The array-pointer kinds print as the array kind followed by `*`. */
  lemma ArrayPointerAppendsStar(n: Option<int>)
    ensures TypeText(LType(I32ArrPtr, n)) == TypeText(LType(I32Arr, n)) + "*"
    ensures TypeText(LType(I8ArrPtr, n)) == TypeText(LType(I8Arr, n)) + "*"
  {
  }

  /** Distinct Java ints print as distinct numerals. */
  lemma {:induction false} IntToStringInjective(a: int32, b: int32)
    requires IntToString(a) == IntToString(b)
    ensures a == b
  {
    ParseIntOfIntToString(a);
    ParseIntOfIntToString(b);
  }

  /** An array type's text determines its element kind and its length. */
  lemma {:induction false} ArrayTextInjective(t: LType, u: LType, n: int32, m: int32)
    requires t.basic in {I32Arr, I8Arr} && u.basic in {I32Arr, I8Arr}
    requires t.arrayLength == Some(n) && u.arrayLength == Some(m)
    requires TypeText(t) == TypeText(u)
    ensures t == u
  {
    var a, b := IntToString(n), IntToString(m);
    var ta := "[" + a + (if t.basic == I32Arr then " x i32]" else " x i8]");
    var tb := "[" + b + (if u.basic == I32Arr then " x i32]" else " x i8]");
    assert TypeText(t) == ta && TypeText(u) == tb;
    IntToStringSign(n);
    IntToStringSign(m);
    // the numeral is everything between `[` and the first space
    FirstSpace(n, if t.basic == I32Arr then " x i32]" else " x i8]");
    FirstSpace(m, if u.basic == I32Arr then " x i32]" else " x i8]");
    if |a| != |b| {
      assert false;
    }
    assert a == ta[1..|a| + 1] == tb[1..|b| + 1] == b;
    IntToStringInjective(n, m);
  }

  lemma FirstSpace(i: int, rest: string)
    requires |rest| > 0 && rest[0] == ' '
    ensures var s := "[" + IntToString(i) + rest;
      s[|IntToString(i)| + 1] == ' ' && forall k :: 1 <= k <= |IntToString(i)| ==> s[k] != ' '
  {
    NumeralHasNoSpace(i);
    var s := "[" + IntToString(i) + rest;
    forall k | 1 <= k <= |IntToString(i)| ensures s[k] != ' ' {
      assert s[k] == IntToString(i)[k - 1];
    }
  }

  lemma {:induction false} NumeralHasNoSpace(i: int)
    ensures forall k :: 0 <= k < |IntToString(i)| ==> IntToString(i)[k] != ' '
  {
    if i < 0 {
      NatToStringDigits(-i);
    } else {
      NatToStringDigits(i);
    }
  }
}
