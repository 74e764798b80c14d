/**
 * The tree of scopes shared by the analyser and the IR generator
 * (symbol/SymbolTable.java, with symbol/Symbol.java as the entry type).
 */
module SymbolTables {
  import opened Outcomes
  import opened JavaInt
  import opened ValueTypes
  import opened FunctionTypes

  /** What a symbol's type is: a value (variable, constant, parameter) or a function. */
  datatype SymbolType = ValueSym(vtype: ValueType) | FunctionSym(ftype: FunctionType)

  /**
   * A symbol: name, type, the number of the scope it was made in, its 0-based
   * definition line, the values the analyser recorded (`None` for a `null` entry, a
   * value known only at run time) and the IR name the generator gives it.
   */
  datatype Symbol = Symbol(
    name: string, symType: SymbolType, scopeNum: int, defLine: int,
    constValues: seq<Option<int32>>, irName: Option<string>)

  /**
   * One scope: its number, its parent's number (`None` at the root), its bindings,
   * the names in insertion order, its children's numbers and its return type.
   */
  datatype Scope = Scope(
    num: nat, parent: Option<nat>, symbols: map<string, Symbol>, order: seq<string>,
    children: set<nat>, returnType: Option<ReturnType>)

  function EmptyScope(num: nat, parent: Option<nat>, returnType: Option<ReturnType>): Scope {
    Scope(num, parent, map[], [], {}, returnType)
  }

  /** The insertion-ordered list holds each bound name exactly once. */
  ghost predicate OrderMatches(sc: Scope) {
    (forall i, j :: 0 <= i < j < |sc.order| ==> sc.order[i] != sc.order[j]) &&
    (forall n :: n in sc.order <==> n in sc.symbols)
  }

  /** Scope `i + 1` sits at index `i` and keeps its insertion order in step with its map. */
  ghost predicate Numbered(scopes: seq<Scope>) {
    forall i :: 0 <= i < |scopes| ==> scopes[i].num == i + 1 && OrderMatches(scopes[i])
  }

  /** Only the first scope has no parent, and a parent is always older than its child. */
  ghost predicate ParentsOlder(scopes: seq<Scope>) {
    |scopes| >= 1 && scopes[0].parent == None &&
    forall i :: 0 < i < |scopes| ==> scopes[i].parent.Some? && 1 <= scopes[i].parent.value <= i
  }

  /** `children` holds exactly the scopes that name this one as their parent. */
  ghost predicate ChildrenMatch(scopes: seq<Scope>) {
    (forall i, c :: 0 <= i < |scopes| && c in scopes[i].children ==> 1 <= c <= |scopes|) &&
    (forall i, c :: 0 <= i < |scopes| && 1 <= c <= |scopes| ==>
       (c in scopes[i].children <==> scopes[c - 1].parent == Some(i + 1)))
  }

  /** The numbering and parent/child links of a scope list. */
  ghost predicate WellFormed(scopes: seq<Scope>) {
    Numbered(scopes) && ParentsOlder(scopes) && ChildrenMatch(scopes)
  }

  /** Two lists with the same length, numbers, parents and children. */
  ghost predicate SameShape(a: seq<Scope>, b: seq<Scope>) {
    |a| == |b| &&
    forall i :: 0 <= i < |a| ==> a[i].num == b[i].num && a[i].parent == b[i].parent && a[i].children == b[i].children
  }

  lemma SameShapeLinks(a: seq<Scope>, b: seq<Scope>)
    requires SameShape(a, b) && ParentsOlder(a) && ChildrenMatch(a)
    ensures ParentsOlder(b) && ChildrenMatch(b)
  {
    forall i, c | 0 <= i < |b| && c in b[i].children ensures 1 <= c <= |b| {
      assert c in a[i].children;
    }
    forall i, c | 0 <= i < |b| && 1 <= c <= |b|
      ensures c in b[i].children <==> b[c - 1].parent == Some(i + 1)
    {
      assert a[i].children == b[i].children && a[c - 1].parent == b[c - 1].parent;
    }
  }

  /** Replacing one scope's bindings keeps the shape of the list. */
  lemma RebindKeepsShape(scopes: seq<Scope>, k: nat, sc: Scope)
    requires WellFormed(scopes) && k < |scopes|
    requires sc.num == scopes[k].num && sc.parent == scopes[k].parent && sc.children == scopes[k].children
    requires OrderMatches(sc)
    ensures WellFormed(scopes[k := sc])
  {
    var s' := scopes[k := sc];
    assert SameShape(scopes, s');
    SameShapeLinks(scopes, s');
  }

  /** The list `NewScope` makes from `scopes`: scope `p` gains child `|scopes| + 1`, which is appended. */
  function WithChild(scopes: seq<Scope>, p: nat, rt: Option<ReturnType>): seq<Scope>
    requires 1 <= p <= |scopes|
  {
    var n := |scopes| + 1;
    scopes[p - 1 := scopes[p - 1].(children := scopes[p - 1].children + {n})] + [EmptyScope(n, Some(p), rt)]
  }

  lemma AddChildNumbered(scopes: seq<Scope>, p: nat, rt: Option<ReturnType>)
    requires Numbered(scopes) && 1 <= p <= |scopes|
    ensures Numbered(WithChild(scopes, p, rt))
  {
    var s' := WithChild(scopes, p, rt);
    forall i | 0 <= i < |s'| ensures s'[i].num == i + 1 && OrderMatches(s'[i]) {
      if i < |scopes| {
        assert s'[i].order == scopes[i].order && s'[i].symbols == scopes[i].symbols;
      }
    }
  }

  lemma AddChildParents(scopes: seq<Scope>, p: nat, rt: Option<ReturnType>)
    requires ParentsOlder(scopes) && 1 <= p <= |scopes|
    ensures ParentsOlder(WithChild(scopes, p, rt))
  {
    var s' := WithChild(scopes, p, rt);
    forall i | 0 < i < |s'| ensures s'[i].parent.Some? && 1 <= s'[i].parent.value <= i {
      if i < |scopes| {
        assert s'[i].parent == scopes[i].parent;
      }
    }
  }

  lemma AddChildChildren(scopes: seq<Scope>, p: nat, rt: Option<ReturnType>)
    requires ParentsOlder(scopes) && ChildrenMatch(scopes) && 1 <= p <= |scopes|
    ensures ChildrenMatch(WithChild(scopes, p, rt))
  {
    var n := |scopes| + 1;
    var s' := WithChild(scopes, p, rt);
    forall i, c | 0 <= i < |s'| && c in s'[i].children ensures 1 <= c <= |s'| {
      if c != n {
        assert i < |scopes| && c in scopes[i].children;
      }
    }
    forall i, c | 0 <= i < |s'| && 1 <= c <= |s'|
      ensures c in s'[i].children <==> s'[c - 1].parent == Some(i + 1)
    {
      if i < |scopes| && c < n {
        assert s'[c - 1].parent == scopes[c - 1].parent;
        assert (c in s'[i].children) == (c in scopes[i].children);
      } else if i == |scopes| {
        assert s'[i].children == {};
        assert c == n || s'[c - 1].parent == scopes[c - 1].parent;
      }
    }
  }

  /** A new child of scope `p` appended to the list keeps its shape. */
  lemma AddChildKeepsShape(scopes: seq<Scope>, p: nat, rt: Option<ReturnType>)
    requires WellFormed(scopes) && 1 <= p <= |scopes|
    ensures WellFormed(WithChild(scopes, p, rt))
  {
    AddChildNumbered(scopes, p, rt);
    AddChildParents(scopes, p, rt);
    AddChildChildren(scopes, p, rt);
  }

  /** Adding a fresh name at the end of a scope's order keeps order and map in step. */
  lemma BindKeepsOrder(sc: Scope, s: Symbol)
    requires OrderMatches(sc) && s.name !in sc.symbols
    ensures OrderMatches(sc.(symbols := sc.symbols[s.name := s], order := sc.order + [s.name]))
  {
  }

  /**
   * `searchSymbol` from scope `num`: the binding in the nearest scope on the chain
   * to the root that binds `name`, or `None`.
   */
  function LookupIn(scopes: seq<Scope>, num: nat, name: string): Option<Symbol>
    requires ParentsOlder(scopes) && 1 <= num <= |scopes|
    decreases num
  {
    var sc := scopes[num - 1];
    if name in sc.symbols then Some(sc.symbols[name])
    else if sc.parent.None? then None
    else LookupIn(scopes, sc.parent.value, name)
  }

  /** The number of the scope whose binding `LookupIn` returns. */
  function BinderIn(scopes: seq<Scope>, num: nat, name: string): (r: Option<nat>)
    requires ParentsOlder(scopes) && 1 <= num <= |scopes|
    ensures r.Some? ==> 1 <= r.value <= num && name in scopes[r.value - 1].symbols
    decreases num
  {
    var sc := scopes[num - 1];
    if name in sc.symbols then Some(num)
    else if sc.parent.None? then None
    else BinderIn(scopes, sc.parent.value, name)
  }

  /** The scopes from `num` up to the root, nearest first. */
  function Chain(scopes: seq<Scope>, num: nat): (c: seq<nat>)
    requires ParentsOlder(scopes) && 1 <= num <= |scopes|
    ensures |c| > 0 && c[0] == num
    ensures forall k :: 0 <= k < |c| ==> 1 <= c[k] <= num
    decreases num
  {
    var sc := scopes[num - 1];
    if sc.parent.None? then [num] else [num] + Chain(scopes, sc.parent.value)
  }

  /** No scope among `c` binds `name`. */
  ghost predicate BoundNowhere(scopes: seq<Scope>, c: seq<nat>, name: string) {
    forall k :: 0 <= k < |c| ==> 1 <= c[k] <= |scopes| && name !in scopes[c[k] - 1].symbols
  }

  /** `c[k]` is the first scope among `c` that binds `name`. */
  ghost predicate FirstBinder(scopes: seq<Scope>, c: seq<nat>, name: string, k: nat) {
    k < |c| && 1 <= c[k] <= |scopes| && name in scopes[c[k] - 1].symbols &&
    forall j :: 0 <= j < k ==> 1 <= c[j] <= |scopes| && name !in scopes[c[j] - 1].symbols
  }

  /** A lookup finds nothing exactly when no scope on the chain to the root binds the name. */
  lemma {:induction false} NotFoundIffUnbound(scopes: seq<Scope>, num: nat, name: string)
    requires ParentsOlder(scopes) && 1 <= num <= |scopes|
    ensures LookupIn(scopes, num, name).None? <==> BoundNowhere(scopes, Chain(scopes, num), name)
    decreases num
  {
    var sc := scopes[num - 1];
    var c := Chain(scopes, num);
    if name in sc.symbols {
      assert c[0] == num;
    } else if sc.parent.Some? {
      var p := sc.parent.value;
      NotFoundIffUnbound(scopes, p, name);
      var cp := Chain(scopes, p);
      assert c == [num] + cp;
      if BoundNowhere(scopes, cp, name) {
        forall k | 0 <= k < |c| ensures 1 <= c[k] <= |scopes| && name !in scopes[c[k] - 1].symbols {
          if k > 0 {
            assert c[k] == cp[k - 1];
          }
        }
      } else {
        var k :| 0 <= k < |cp| && !(1 <= cp[k] <= |scopes| && name !in scopes[cp[k] - 1].symbols);
        assert c[k + 1] == cp[k];
      }
    } else {
      assert c == [num];
    }
  }

  /** A scope not binding `name` in front of a chain moves the first binder one place on. */
  lemma FirstBinderStep(scopes: seq<Scope>, num: nat, cp: seq<nat>, name: string, k: nat)
    requires 1 <= num <= |scopes| && name !in scopes[num - 1].symbols && FirstBinder(scopes, cp, name, k)
    ensures FirstBinder(scopes, [num] + cp, name, k + 1)
  {
    var c := [num] + cp;
    forall j | 0 <= j < k + 1 ensures 1 <= c[j] <= |scopes| && name !in scopes[c[j] - 1].symbols {
      if j > 0 {
        assert c[j] == cp[j - 1];
      }
    }
  }

  /** When a lookup finds a binding, it is that of the first scope on the chain binding the name. */
  lemma {:induction false} FoundIsNearest(scopes: seq<Scope>, num: nat, name: string)
    requires ParentsOlder(scopes) && 1 <= num <= |scopes|
    requires LookupIn(scopes, num, name).Some?
    ensures exists k: nat ::
      (FirstBinder(scopes, Chain(scopes, num), name, k) &&
       LookupIn(scopes, num, name) == Some(scopes[Chain(scopes, num)[k] - 1].symbols[name]))
    decreases num
  {
    var sc := scopes[num - 1];
    var c := Chain(scopes, num);
    if name in sc.symbols {
      assert FirstBinder(scopes, c, name, 0);
    } else {
      var p := sc.parent.value;
      FoundIsNearest(scopes, p, name);
      var cp := Chain(scopes, p);
      assert c == [num] + cp;
      var k: nat :| FirstBinder(scopes, cp, name, k) &&
        LookupIn(scopes, p, name) == Some(scopes[cp[k] - 1].symbols[name]);
      assert LookupIn(scopes, num, name) == LookupIn(scopes, p, name);
      FirstBinderStep(scopes, num, cp, name, k);
      assert FirstBinder(scopes, [num] + cp, name, k + 1) && ([num] + cp)[k + 1] == cp[k];
    }
  }

  /** `BinderIn` names the scope whose binding `LookupIn` returns. */
  lemma {:induction false} BinderGivesLookup(scopes: seq<Scope>, num: nat, name: string)
    requires ParentsOlder(scopes) && 1 <= num <= |scopes|
    ensures BinderIn(scopes, num, name).None? <==> LookupIn(scopes, num, name).None?
    ensures BinderIn(scopes, num, name).Some? ==>
      LookupIn(scopes, num, name) == Some(scopes[BinderIn(scopes, num, name).value - 1].symbols[name])
    decreases num
  {
    var sc := scopes[num - 1];
    if name !in sc.symbols && sc.parent.Some? {
      BinderGivesLookup(scopes, sc.parent.value, name);
    }
  }

  /** Scope `k` with the binding of `name` replaced by `s`. */
  function Rebind(scopes: seq<Scope>, k: nat, name: string, s: Symbol): (r: seq<Scope>)
    requires ParentsOlder(scopes) && 1 <= k <= |scopes| && name in scopes[k - 1].symbols
    ensures ParentsOlder(r) && |r| == |scopes|
  {
    scopes[k - 1 := scopes[k - 1].(symbols := scopes[k - 1].symbols[name := s])]
  }

  /** Rebinding a bound name keeps a well-formed list well-formed. */
  lemma RebindKeepsWellFormed(scopes: seq<Scope>, k: nat, name: string, s: Symbol)
    requires WellFormed(scopes) && 1 <= k <= |scopes| && name in scopes[k - 1].symbols
    ensures WellFormed(Rebind(scopes, k, name, s))
  {
    var sc := scopes[k - 1];
    var sc' := sc.(symbols := sc.symbols[name := s]);
    assert OrderMatches(sc');
    RebindKeepsShape(scopes, k - 1, sc');
  }

  /**
   * Rebinding `name` in scope `k` changes what a lookup from `num` returns only when
   * `k` is the scope that lookup stops at; lookups of other names are unchanged.
   */
  lemma {:induction false} LookupAfterRebind(scopes: seq<Scope>, num: nat, n: string, k: nat, name: string, s: Symbol)
    requires ParentsOlder(scopes) && 1 <= num <= |scopes| && 1 <= k <= |scopes| && name in scopes[k - 1].symbols
    ensures var b := Rebind(scopes, k, name, s);
      if n == name && BinderIn(scopes, num, n) == Some(k) then LookupIn(b, num, n) == Some(s)
      else LookupIn(b, num, n) == LookupIn(scopes, num, n)
    decreases num
  {
    var b := Rebind(scopes, k, name, s);
    var sc := scopes[num - 1];
    assert (n in sc.symbols) == (n in b[num - 1].symbols);
    if n !in sc.symbols && sc.parent.Some? {
      LookupAfterRebind(scopes, sc.parent.value, n, k, name, s);
    }
  }

  /** Lookups of other names, from any scope, are the same after `Rebind`. */
  lemma RebindKeepsOtherNames(scopes: seq<Scope>, k: nat, name: string, s: Symbol)
    requires ParentsOlder(scopes) && 1 <= k <= |scopes| && name in scopes[k - 1].symbols
    ensures var b := Rebind(scopes, k, name, s);
      forall num, n :: 1 <= num <= |scopes| && n != name ==> LookupIn(b, num, n) == LookupIn(scopes, num, n)
  {
    forall num, n | 1 <= num <= |scopes| && n != name
      ensures LookupIn(Rebind(scopes, k, name, s), num, n) == LookupIn(scopes, num, n)
    {
      LookupAfterRebind(scopes, num, n, k, name, s);
    }
  }

  /** What `SetIrName` makes of the list: the binding `name` resolves to from scope `num` gets the IR name `ir`. */
  function Renamed(scopes: seq<Scope>, num: nat, name: string, ir: string): (r: seq<Scope>)
    requires ParentsOlder(scopes) && 1 <= num <= |scopes|
    ensures ParentsOlder(r) && |r| == |scopes|
  {
    match BinderIn(scopes, num, name)
    case None => scopes
    case Some(k) => Rebind(scopes, k, name, scopes[k - 1].symbols[name].(irName := Some(ir)))
  }

  /** After renaming, `name` looks up to the same symbol with its new IR name, and every other name as before. */
  lemma LookupAfterRenamed(scopes: seq<Scope>, num: nat, name: string, ir: string, n: string)
    requires ParentsOlder(scopes) && 1 <= num <= |scopes|
    ensures LookupIn(Renamed(scopes, num, name, ir), num, n) ==
      if n != name then LookupIn(scopes, num, n)
      else match LookupIn(scopes, num, n) case None => None case Some(s) => Some(s.(irName := Some(ir)))
  {
    BinderGivesLookup(scopes, num, name);
    var b := BinderIn(scopes, num, name);
    if b.Some? {
      LookupAfterRebind(scopes, num, n, b.value, name, scopes[b.value - 1].symbols[name].(irName := Some(ir)));
    }
  }

  /**
   * The scope array `symbolTableList`, the current scope (0 stands for `null`) and
   * the counter `symbolTableCount`, as one object.
   */
  class SymbolTable {
    var scopes: seq<Scope>
    var current: nat
    var count: nat

    ghost predicate Valid()
      reads this
    {
      |scopes| == count && WellFormed(scopes) && current <= count
    }

    /** The static initialiser: one root scope numbered 1, without parent or return type, current. */
    constructor ()
      ensures Valid()
      ensures scopes == [EmptyScope(1, None, None)] && current == 1 && count == 1
    {
      scopes := [EmptyScope(1, None, None)];
      current := 1;
      count := 1;
    }

    function Current(): (sc: Scope)
      reads this
      requires Valid() && current != 0
      ensures sc.num == current
    {
      scopes[current - 1]
    }

    /** `getCurrentSymbolTable().searchSymbol(name)`. */
    function Lookup(name: string): Option<Symbol>
      reads this
      requires Valid() && current != 0
    {
      LookupIn(scopes, current, name)
    }

    /**
     * `insertSymbol(symbol)`: refuses a name already bound in the current scope;
     * otherwise binds it and appends it to the ordered list. It returns the symbol.
     */
    method InsertSymbol(s: Symbol) returns (r: Option<Symbol>)
      requires Valid() && current != 0
      modifies this
      ensures Valid() && current == old(current) && count == old(count)
      ensures r.Some? <==> s.name !in old(Current()).symbols
      ensures r.Some? ==> r.value == s
      ensures |scopes| == |old(scopes)|
      ensures forall i :: 0 <= i < |scopes| && i != current - 1 ==> scopes[i] == old(scopes[i])
      ensures Current() == if r.None? then old(Current())
        else old(Current()).(symbols := old(Current()).symbols[s.name := s], order := old(Current()).order + [s.name])
    {
      var sc := scopes[current - 1];
      if s.name in sc.symbols {
        return None;
      }
      var sc' := sc.(symbols := sc.symbols[s.name := s], order := sc.order + [s.name]);
      BindKeepsOrder(sc, s);
      RebindKeepsShape(scopes, current - 1, sc');
      scopes := scopes[current - 1 := sc'];
      return Some(s);
    }

    /**
     * `insertSymbol(name, type, line)`: as `InsertSymbol` for a new symbol that gets this
     * scope's number and no recorded values.
     */
    method InsertNew(name: string, t: SymbolType, defLine: int) returns (r: Option<Symbol>)
      requires Valid() && current != 0
      modifies this
      ensures Valid() && current == old(current) && count == old(count)
      ensures r.Some? <==> name !in old(Current()).symbols
      ensures r.Some? ==> r.value == Symbol(name, t, current, defLine, [], None)
      ensures |scopes| == |old(scopes)|
      ensures forall i :: 0 <= i < |scopes| && i != current - 1 ==> scopes[i] == old(scopes[i])
      ensures Current() == if r.None? then old(Current())
        else old(Current()).(symbols := old(Current()).symbols[name := r.value], order := old(Current()).order + [name])
    {
      r := InsertSymbol(Symbol(name, t, current, defLine, [], None));
    }

    /**
     * `newSymbolTable(returnType)`: a scope numbered `count + 1`, child of the current
     * one, appended to the list, and made current.
     */
    method NewScope(returnType: Option<ReturnType>)
      requires Valid() && current != 0
      modifies this
      ensures Valid()
      ensures count == old(count) + 1 && current == count
      ensures scopes == old(scopes)[old(current) - 1 := old(Current()).(children := old(Current()).children + {count})]
                        + [EmptyScope(count, Some(old(current)), returnType)]
    {
      AddChildKeepsShape(scopes, current, returnType);
      scopes := WithChild(scopes, current, returnType);
      count := count + 1;
      current := count;
    }

    /** `newSymbolTable()`: a nested block's scope, with its parent's return type. */
    method NewBlockScope()
      requires Valid() && current != 0
      modifies this
      ensures Valid()
      ensures count == old(count) + 1 && current == count
      ensures scopes == old(scopes)[old(current) - 1 := old(Current()).(children := old(Current()).children + {count})]
                        + [EmptyScope(count, Some(old(current)), old(Current()).returnType)]
    {
      NewScope(scopes[current - 1].returnType);
    }

    /** `backToUpperScope`: the parent becomes current (`null` above the root). */
    method BackToUpperScope()
      requires Valid() && current != 0
      modifies this`current
      ensures Valid()
      ensures current == match old(Current()).parent case Some(p) => p case None => 0
    {
      current := match scopes[current - 1].parent case Some(p) => p case None => 0;
    }

    /** `jumpToSymbolTableByScopeNum(n)`: moves into `n` only when it is a child of the current scope. */
    method JumpToChild(n: int)
      requires Valid() && current != 0
      modifies this`current
      ensures Valid()
      ensures current == if n >= 0 && n in old(Current()).children then n else old(current)
    {
      if n >= 0 && n in scopes[current - 1].children {
        current := n;
      }
    }

    /**
     * Gives the nearest binding of `name` the IR name `ir` (the generator's
     * `getSymbol(name).llvmIRSymbol = ir`); `false` when nothing binds it, where Java
     * dereferences `null`. `LookupAfterRenamed` says what every lookup then answers.
     */
    method SetIrName(name: string, ir: string) returns (found: bool)
      requires Valid() && current != 0
      modifies this`scopes
      ensures Valid()
      ensures found == old(Lookup(name)).Some?
      ensures scopes == Renamed(old(scopes), current, name, ir)
    {
      var b := BinderIn(scopes, current, name);
      BinderGivesLookup(scopes, current, name);
      if b.None? {
        return false;
      }
      var k := b.value;
      RebindKeepsWellFormed(scopes, k, name, scopes[k - 1].symbols[name].(irName := Some(ir)));
      scopes := Rebind(scopes, k, name, scopes[k - 1].symbols[name].(irName := Some(ir)));
      return true;
    }
  }
}
