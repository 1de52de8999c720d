/** The built-in tables the compiler consults.  Their contents are data; the model takes
    any tables and keeps the way they are searched. */
module Builtins {
  import opened Syntax

  datatype BuiltinFn = BuiltinFn(name: string, ret: Type, params: seq<Type>, monoOnly: bool)

  /** A constant's type and value; the table only has these four kinds. */
  datatype ConstValue = ConstInt(i: Int64) | ConstFloat(f: Bits64) | ConstString(s: string) | ConstKey(s: string)
  {
    function Ty(): Type {
      match this
      case ConstInt(_) => TInteger
      case ConstFloat(_) => TFloat
      case ConstString(_) => TString
      case ConstKey(_) => TKey
    }
  }

  datatype BuiltinConst = BuiltinConst(name: string, val: ConstValue)
  datatype BuiltinEvent = BuiltinEvent(name: string, params: seq<Type>)

  /** Where the types of the parameters of a user's function come from, from the 17th on,
      for which a symbol has no room.  The language has them as they are declared; the
      program takes what it finds in the memory behind the first sixteen, which may be a
      number that is no type. */
  datatype Beyond = AsDeclared | FromMemory(cell: (string, nat) -> Option<Type>)

  /** The built-in tables, and the above. */
  datatype Tables = Tables(fns: seq<BuiltinFn>, consts: seq<BuiltinConst>, events: seq<BuiltinEvent>, beyond: Beyond)

  /** No function in the table returns the error type or takes it. */
  ghost predicate TablesOk(bi: Tables) {
    forall f :: f in bi.fns ==> f.ret != TError && TError !in f.params
  }

  // -------------------------------------------------------- first matches

  /** The first function called `name`. */
  function FnNamed(fns: seq<BuiltinFn>, name: string): (r: Option<BuiltinFn>)
    ensures r.Some? ==> r.value in fns && r.value.name == name
    ensures r.None? <==> forall f :: f in fns ==> f.name != name
  {
    if fns == [] then None
    else if fns[0].name == name then Some(fns[0])
    else
      assert forall f :: f in fns <==> f == fns[0] || f in fns[1..];
      FnNamed(fns[1..], name)
  }

  /** The first function called `name` that takes `n` arguments. */
  function FnOfArity(fns: seq<BuiltinFn>, name: string, n: nat): (r: Option<BuiltinFn>)
    ensures r.Some? ==> r.value in fns && r.value.name == name && |r.value.params| == n
    ensures r.None? <==> forall f :: f in fns ==> !(f.name == name && |f.params| == n)
  {
    if fns == [] then None
    else if fns[0].name == name && |fns[0].params| == n then Some(fns[0])
    else
      assert forall f :: f in fns <==> f == fns[0] || f in fns[1..];
      FnOfArity(fns[1..], name, n)
  }

  /** The first constant called `name`. */
  function ConstNamed(consts: seq<BuiltinConst>, name: string): (r: Option<ConstValue>)
    ensures r.Some? ==> BuiltinConst(name, r.value) in consts
    ensures r.None? <==> forall c :: c in consts ==> c.name != name
  {
    if consts == [] then None
    else if consts[0].name == name then Some(consts[0].val)
    else
      assert forall c :: c in consts <==> c == consts[0] || c in consts[1..];
      ConstNamed(consts[1..], name)
  }

  /** The first event called `name` that takes `n` parameters. */
  function EventOfArity(events: seq<BuiltinEvent>, name: string, n: nat): (r: Option<BuiltinEvent>)
    ensures r.Some? ==> r.value in events && r.value.name == name && |r.value.params| == n
    ensures r.None? <==> forall v :: v in events ==> !(v.name == name && |v.params| == n)
  {
    if events == [] then None
    else if events[0].name == name && |events[0].params| == n then Some(events[0])
    else
      assert forall v :: v in events <==> v == events[0] || v in events[1..];
      EventOfArity(events[1..], name, n)
  }

  /** The signature a call of `name` with `n` arguments is checked against: an overload
      of that arity if there is one, else the first function of that name. */
  function FnFor(fns: seq<BuiltinFn>, name: string, n: nat): Option<BuiltinFn> {
    var f := FnOfArity(fns, name, n);
    if f.Some? then f else FnNamed(fns, name)
  }
}
