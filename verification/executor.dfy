/** The executor: builtin calls, the jump-table pre-pass and the dispatch
    loop over the statement index. */
module Executor {
  import opened Results
  import opened Numerals
  import opened Tokens
  import opened Ast
  import opened VmState
  import opened Builtins

  /** The first variable operand that names no variable. */
  function FirstMissing(vars: map<string, int>, values: seq<Value>): (r: Option<Value>)
    ensures r.None? <==> forall k :: 0 <= k < |values| && values[k].vtype == Var ==> values[k].text in vars
    ensures r.Some? ==>
      exists k :: 0 <= k < |values| && values[k] == r.value && r.value.vtype == Var && r.value.text !in vars
        && forall j :: 0 <= j < k && values[j].vtype == Var ==> values[j].text in vars
  {
    if |values| == 0 then
      None
    else if values[0].vtype == Var && values[0].text !in vars then
      Some(values[0])
    else
      var r := FirstMissing(vars, values[1..]);
      assert forall k :: 1 <= k < |values| ==> values[k] == values[1..][k - 1];
      if r.Some? then
        var k :| 0 <= k < |values[1..]| && values[1..][k] == r.value && r.value.vtype == Var
          && r.value.text !in vars
          && forall j :: 0 <= j < k && values[1..][j].vtype == Var ==> values[1..][j].text in vars;
        assert values[k + 1] == values[1..][k];
        r
      else
        r
  }

  /** `call name operands...`: the name must be registered, the operand count
      must match unless the entry takes any count, a validating entry needs
      every variable operand to exist, and only then does the handler run. */
  function CallFunction(m: Machine, name: string, values: seq<Value>, token: Token): (r: Result<Machine, Error>)
    ensures Keeps(m, r)
  {
    if name !in m.funcs then
      Failure(RuntimeError("function does not exist", token.ctx))
    else
      var f := m.funcs[name];
      if |values| != f.argCount && f.argCount != -1 then
        Failure(RuntimeError("incorrect number of arguments", token.ctx))
      else if f.argValidate && FirstMissing(m.variables, values).Some? then
        Failure(RuntimeError("variable does not exist", FirstMissing(m.variables, values).value.token.ctx))
      else
        Invoke(f.fn, m, token.ctx, values)
  }

  /** The jump-table pre-pass from statement i on: each label records its
      index, so a later label of the same name replaces an earlier one. */
  function BuildJumps(jumps: map<string, int>, stmts: seq<Stmt>, i: nat): (r: map<string, int>)
    requires i <= |stmts|
    ensures jumps.Keys <= r.Keys
    decreases |stmts| - i
  {
    if i == |stmts| then
      jumps
    else if stmts[i].Label? then
      BuildJumps(jumps[stmts[i].name := i], stmts, i + 1)
    else
      BuildJumps(jumps, stmts, i + 1)
  }

  /** One statement's effect, before the index moves on. Label, ShowNum,
      ShowChar and Input statements have no case in the dispatch. */
  function Execute(m: Machine, s: Stmt): (r: Result<Machine, Error>)
    ensures Keeps(m, r)
  {
    match s
    case VarDeclValue(name, value) => SetValue(m, name, value)
    case VarDeclExpr(name, expr) => SetValueFromOp(m, name, expr)
    case If(cond, jump) => IfStmt(m, cond, jump)
    case Goto(jump) => GoTo(m, jump)
    case Call(name, values, token) => CallFunction(m, name, values, token)
    case _ => Success(m)
  }

  /** One iteration of the dispatch loop: the statement at the index runs,
      then the index moves on by one (past the label after a jump). */
  function Step(m: Machine): (r: Result<Machine, Error>)
    requires 0 <= m.index < |m.program|
    ensures r.Success? ==> r.value.program == m.program && r.value.jumps == m.jumps && r.value.funcs == m.funcs
  {
    var next :- Execute(m, m.program[m.index]);
    Success(next.(index := next.index + 1))
  }

  /** How a run ends: the index left the program, a statement failed, or the
      step budget ran out first. */
  datatype Halt = Finished(final: Machine) | Failed(error: Error) | OutOfFuel(last: Machine)

  /** The panic the statement lookup raises for a negative index. */
  function NegativeIndex(i: int): Error {
    PanicError("runtime error: index out of range [" + FormatInt(i) + "]", Nowhere)
  }

  /** The dispatch loop, for at most `fuel` steps. */
  function Exec(m: Machine, fuel: nat): (h: Halt)
    ensures h.Finished? ==> h.final.index >= |h.final.program| && h.final.program == m.program
    decreases fuel
  {
    if m.index >= |m.program| then
      Finished(m)
    else if m.index < 0 then
      Failed(NegativeIndex(m.index))
    else if fuel == 0 then
      OutOfFuel(m)
    else
      match Step(m)
      case Failure(e) => Failed(e)
      case Success(next) => Exec(next, fuel - 1)
  }

  /** `Run`: installs the program, adds its labels to the jump table, and
      runs the loop from the current index. */
  function Run(m: Machine, program: Program, fuel: nat): (h: Halt)
  {
    Exec(m.(program := program.stmts, jumps := BuildJumps(m.jumps, program.stmts, 0)), fuel)
  }
}
