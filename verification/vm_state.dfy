/** The executor's state and the statement handlers that only touch
    variables and the statement index: operand resolution, assignment,
    arithmetic, comparison and the two jumps. */
module VmState {
  import opened Results
  import opened GoInt
  import opened Numerals
  import opened Tokens
  import opened Ast

  /** The closed set of builtins the executor knows; Go keeps a closure per
      registration, the model keeps which handler it is. */
  datatype Builtin =
    | ShowC | ShowN | Input | MemSet | MemGet | Debug | NoInputBuffering | ReadFile | WriteFile

  /** A registry entry: the exact argument count (-1 for any count), whether
      variable operands must exist before the handler runs, and the handler. */
  datatype ExternalFunc = ExternalFunc(argCount: int, argValidate: bool, fn: Builtin)

  /** What the builtins print, recorded instead of formatted. */
  datatype Event =
    | Char(code: int)
    | Number(value: int)
    | DebugValue(text: string, vtype: ValueType, value: int)
    | DebugString(text: string)

  /** Everything outside the interpreter the builtins touch: the bytes still
      unread on standard input, the files by name, and the output so far. */
  datatype World = World(stdin: seq<int>, files: map<string, seq<int>>, output: seq<Event>)

  /** The VM record: memory cells and variables hold int64 values; `jumps`
      maps label names to statement indices. */
  datatype Machine = Machine(
    memory: seq<int>,
    variables: map<string, int>,
    funcs: map<string, ExternalFunc>,
    program: seq<Stmt>,
    jumps: map<string, int>,
    index: int,
    world: World)

  /** A Go panic carries no source position; its error is placed here. */
  const Nowhere: Context := Context(0, 0, 0, "")

  /** The variable `New` sets to the memory size. */
  const MemSizeVariable: string := "__memsize"

  const DivideByZero: string := "runtime error: integer divide by zero"

  /** Go's message for an index past the end of a slice. */
  function IndexPanic(i: int, n: nat): string {
    "runtime error: index out of range [" + FormatInt(i) + "] with length " + FormatInt(n)
  }

  /** A handler left the program, the jump table and the registry as they
      were. */
  predicate Keeps(m: Machine, r: Result<Machine, Error>) {
    r.Success? ==> r.value.program == m.program && r.value.jumps == m.jumps && r.value.funcs == m.funcs
  }

  /** Adds or replaces a registry entry. */
  function RegisterFunc(m: Machine, name: string, argCount: int, argValidate: bool, fn: Builtin): (r: Machine)
    ensures name in r.funcs && r.funcs[name] == ExternalFunc(argCount, argValidate, fn)
    ensures forall n :: n != name ==> (n in r.funcs <==> n in m.funcs)
    ensures forall n :: n != name && n in m.funcs ==> r.funcs[n] == m.funcs[n]
    ensures r == m.(funcs := r.funcs)
  {
    m.(funcs := m.funcs[name := ExternalFunc(argCount, argValidate, fn)])
  }

  /** The registry `New` builds by registering each builtin in turn; the
      names are distinct, so no registration replaces another. */
  const Registry: map<string, ExternalFunc> := map[
    "showc" := ExternalFunc(1, true, ShowC),
    "shown" := ExternalFunc(1, true, ShowN),
    "input" := ExternalFunc(1, false, Builtin.Input),
    "memset" := ExternalFunc(2, true, MemSet),
    "memget" := ExternalFunc(2, false, MemGet),
    "debug" := ExternalFunc(-1, true, Debug),
    "vm_no_input_buffering" := ExternalFunc(0, false, NoInputBuffering),
    "read_file" := ExternalFunc(3, false, ReadFile),
    "write_file" := ExternalFunc(3, false, WriteFile)]

  /** A fresh VM: `memsize` zeroed cells, only the memory-size variable, the
      nine builtins, no program and no jumps. A negative size is the panic
      `make` raises. */
  function New(memsize: int, world: World): (r: Result<Machine, Error>)
    requires IsInt64(memsize)
    ensures r.Failure? <==> memsize < 0
    ensures r.Failure? ==> r.error.phase == Panic
    ensures r.Success? ==>
      |r.value.memory| == memsize && (forall a :: 0 <= a < memsize ==> r.value.memory[a] == 0)
      && r.value.variables == map[MemSizeVariable := memsize]
      && r.value.funcs == Registry
      && r.value.program == [] && r.value.jumps == map[] && r.value.index == 0
      && r.value.world == world
  {
    if memsize < 0 then
      Failure(PanicError("runtime error: makeslice: len out of range", Nowhere))
    else
      Success(Machine(seq(memsize, _ => 0), map[MemSizeVariable := memsize], Registry, [], map[], 0, world))
  }

  /** A map read as Go does it: an absent key reads as zero. */
  function ReadOrZero(vars: map<string, int>, name: string): (v: int)
    ensures name in vars ==> v == vars[name]
    ensures name !in vars ==> v == 0
  {
    if name in vars then vars[name] else 0
  }

  /** The value an operand stands for: an integer literal's digits read in
      base 10, anything else the variable of that name, which must exist. */
  function Resolve(vars: map<string, int>, v: Value): (r: Result<int, Error>)
    ensures r.Success? <==> v.vtype == Int || v.text in vars
    ensures r.Success? && v.vtype == Int ==> r.value == ParseInt(v.text, 10)
    ensures r.Success? && v.vtype != Int ==> r.value == vars[v.text]
    ensures r.Failure? ==> r.error == RuntimeError("variable does not exist", v.token.ctx)
  {
    if v.vtype == Int then
      Success(ParseInt(v.text, 10))
    else if v.text in vars then
      Success(vars[v.text])
    else
      Failure(RuntimeError("variable does not exist", v.token.ctx))
  }

  /** `name = value`. */
  function SetValue(m: Machine, name: string, value: Value): (r: Result<Machine, Error>)
    ensures r.Success? <==> Resolve(m.variables, value).Success?
    ensures r.Success? ==>
      r.value == m.(variables := m.variables[name := Resolve(m.variables, value).value])
    ensures r.Failure? ==> r.error == Resolve(m.variables, value).error
  {
    var v :- Resolve(m.variables, value);
    Success(m.(variables := m.variables[name := v]))
  }

  /** The arithmetic operators on int64 operands: `+ - *` wrap around, `/`
      truncates, `%` takes the dividend's sign, a zero divisor panics and any
      other operator reaches the panic in the default case. */
  function Arith(op: string, lhs: int, rhs: int): (r: Result<int, Error>)
    ensures r.Success? <==> op in {"+", "-", "*", "/", "%"} && !(op in {"/", "%"} && rhs == 0)
    ensures r.Success? ==> IsInt64(r.value)
    ensures r.Failure? ==> r.error.phase == Panic
    ensures r.Failure? && op in {"/", "%"} ==> r.error.message == DivideByZero
    ensures op !in {"+", "-", "*", "/", "%"} ==> r == Failure(PanicError("invalid operator: " + op, Nowhere))
  {
    match op
    case "+" => Success(Wrap(lhs + rhs))
    case "-" => Success(Wrap(lhs - rhs))
    case "*" => Success(Wrap(lhs * rhs))
    case "/" =>
      if rhs == 0 then Failure(PanicError(DivideByZero, Nowhere)) else Success(Wrap(TruncDiv(lhs, rhs)))
    case "%" =>
      if rhs == 0 then Failure(PanicError(DivideByZero, Nowhere)) else Success(Wrap(TruncMod(lhs, rhs)))
    case _ => Failure(PanicError("invalid operator: " + op, Nowhere))
  }

  /** `name = lhs op rhs`: both operands are resolved, left first, before the
      operator is looked at. */
  function SetValueFromOp(m: Machine, name: string, expr: OpExpr): (r: Result<Machine, Error>)
    ensures r.Success? ==> r.value == m.(variables := r.value.variables)
    ensures r.Success? ==> r.value.variables.Keys == m.variables.Keys + {name}
    ensures r.Success? ==> forall n :: n in m.variables && n != name ==> r.value.variables[n] == m.variables[n]
  {
    var lhs :- Resolve(m.variables, expr.lhs);
    var rhs :- Resolve(m.variables, expr.rhs);
    var v :- Arith(expr.op, lhs, rhs);
    Success(m.(variables := m.variables[name := v]))
  }

  /** The comparison operators; any other operator panics. */
  function Compare(op: string, lhs: int, rhs: int): (r: Result<bool, Error>)
    ensures r.Success? <==> op in {"==", "!=", ">", "<", ">=", "<="}
    ensures r.Failure? ==> r == Failure(PanicError("invalid operator: " + op, Nowhere))
  {
    match op
    case "==" => Success(lhs == rhs)
    case "!=" => Success(lhs != rhs)
    case ">" => Success(lhs > rhs)
    case "<" => Success(lhs < rhs)
    case ">=" => Success(lhs >= rhs)
    case "<=" => Success(lhs <= rhs)
    case _ => Failure(PanicError("invalid operator: " + op, Nowhere))
  }

  /** `goto name`: moves the index to the label's statement, which must be
      in the jump table. */
  function GoTo(m: Machine, jump: Jump): (r: Result<Machine, Error>)
    ensures r.Success? <==> jump.name in m.jumps
    ensures r.Success? ==> r.value == m.(index := m.jumps[jump.name])
    ensures r.Failure? ==> r.error == RuntimeError("label does not exist", jump.token.ctx)
  {
    if jump.name in m.jumps then
      Success(m.(index := m.jumps[jump.name]))
    else
      Failure(RuntimeError("label does not exist", jump.token.ctx))
  }

  /** Whether an `if` condition holds: both operands are resolved, left
      first, before the operator is looked at. */
  function Condition(vars: map<string, int>, cond: OpExpr): (r: Result<bool, Error>)
    ensures r.Success? ==> Resolve(vars, cond.lhs).Success? && Resolve(vars, cond.rhs).Success?
    ensures Resolve(vars, cond.lhs).Failure? ==> r == Failure(Resolve(vars, cond.lhs).error)
    ensures Resolve(vars, cond.lhs).Success? && Resolve(vars, cond.rhs).Failure? ==>
      r == Failure(Resolve(vars, cond.rhs).error)
    ensures Resolve(vars, cond.lhs).Success? && Resolve(vars, cond.rhs).Success? ==>
      r == Compare(cond.op, Resolve(vars, cond.lhs).value, Resolve(vars, cond.rhs).value)
  {
    var lhs :- Resolve(vars, cond.lhs);
    var rhs :- Resolve(vars, cond.rhs);
    Compare(cond.op, lhs, rhs)
  }

  /** `if lhs op rhs goto name`: the label is looked up only when the
      condition holds; otherwise nothing changes. */
  function IfStmt(m: Machine, cond: OpExpr, jump: Jump): (r: Result<Machine, Error>)
    ensures r.Success? ==> r.value == m || (jump.name in m.jumps && r.value == m.(index := m.jumps[jump.name]))
  {
    var holds :- Condition(m.variables, cond);
    if holds then GoTo(m, jump) else Success(m)
  }
}
