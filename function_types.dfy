/** The type of a function symbol (symbol/FunctionType.java). */
module FunctionTypes {
  import opened ValueTypes

  datatype ReturnType = CharReturn | IntReturn | VoidReturn

  /** A function type: its return type and its parameters' names and types, in order. */
  datatype FunctionType = FunctionType(returnType: ReturnType, paramNames: seq<string>, paramTypes: seq<ValueType>)

  /** A new FunctionType has no parameters yet. */
  function NewFunctionType(r: ReturnType): (f: FunctionType)
    ensures f.returnType == r && f.paramNames == [] && f.paramTypes == []
  {
    FunctionType(r, [], [])
  }

  /** `toString`: "CharFunc", "IntFunc", or "VoidFunc" for any other return type. */
  function FunctionTypeName(f: FunctionType): (s: string) {
    if f.returnType == CharReturn then "CharFunc"
    else if f.returnType == IntReturn then "IntFunc"
    else "VoidFunc"
  }

  /** The name tells the three return types apart and never looks like a value type's name. */
  lemma FunctionTypeNameDistinct(f: FunctionType, g: FunctionType, v: ValueType)
    ensures FunctionTypeName(f) == FunctionTypeName(g) <==> f.returnType == g.returnType
    ensures FunctionTypeName(f) != TypeName(v)
  {
    TypeNameByTable(v);
  }
}
