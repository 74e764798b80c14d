/** The type of a variable or constant symbol (symbol/ValueType.java). */
module ValueTypes {
  import opened Outcomes

  datatype BasicType = CHR | INT

  /** A value type: base type, const-ness and an array length (`null` for a scalar). */
  datatype ValueType = ValueType(basic: BasicType, isConst: bool, arrayLength: Option<int>) {
    predicate IsArray() {
      arrayLength.Some?
    }
  }

  /** A freshly made ValueType: not const and not an array. */
  function NewValueType(basic: BasicType): (v: ValueType)
    ensures v.basic == basic && !v.isConst && !v.IsArray()
  {
    ValueType(basic, false, None)
  }

  /** `toString`: "Const" if const, then "Char" or "Int", then "Array" for an array. */
  function TypeName(v: ValueType): string {
    (if v.isConst then "Const" else "") + (if v.basic == CHR then "Char" else "Int") + (if v.IsArray() then "Array" else "")
  }

  /** The eight names `toString` can produce. */
  function NameTable(isConst: bool, basic: BasicType, isArray: bool): string {
    match (isConst, basic, isArray)
    case (false, CHR, false) => "Char"
    case (false, INT, false) => "Int"
    case (false, CHR, true) => "CharArray"
    case (false, INT, true) => "IntArray"
    case (true, CHR, false) => "ConstChar"
    case (true, INT, false) => "ConstInt"
    case (true, CHR, true) => "ConstCharArray"
    case (true, INT, true) => "ConstIntArray"
  }

  lemma TypeNameByTable(v: ValueType)
    ensures TypeName(v) == NameTable(v.isConst, v.basic, v.IsArray())
  {
    var c := if v.isConst then "Const" else "";
    var b := if v.basic == CHR then "Char" else "Int";
    var a := if v.IsArray() then "Array" else "";
    assert TypeName(v) == c + b + a;
    assert "Const" + "Char" + "Array" == "ConstCharArray";
    assert "Const" + "Int" + "Array" == "ConstIntArray";
    assert "Const" + "Char" + "" == "ConstChar";
    assert "Const" + "Int" + "" == "ConstInt";
    assert "" + "Char" + "Array" == "CharArray";
    assert "" + "Int" + "Array" == "IntArray";
    assert "" + "Char" + "" == "Char";
    assert "" + "Int" + "" == "Int";
  }

  /** The name tells const-ness, base type and array-ness apart. */
  lemma {:induction false} TypeNameInjective(v: ValueType, w: ValueType)
    requires TypeName(v) == TypeName(w)
    ensures v.isConst == w.isConst && v.basic == w.basic && v.IsArray() == w.IsArray()
  {
    TypeNameByTable(v);
    TypeNameByTable(w);
  }

  /** The array length itself is never printed. */
  lemma LengthNotPrinted(v: ValueType, n: int)
    requires v.IsArray()
    ensures TypeName(v) == TypeName(v.(arrayLength := Some(n)))
  {
  }
}
