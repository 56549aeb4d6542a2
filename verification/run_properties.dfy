/** What a run guarantees: the machine stays well formed from `New` on, the
    step budget only decides how far a run gets, and parsed programs never
    hand a string literal to a builtin. */
module RunProperties {
  import opened Results
  import opened GoInt
  import opened Tokens
  import opened Ast
  import opened Parser
  import opened ParserProperties
  import opened VmState
  import opened Builtins
  import opened Executor

  /** Standard input and every file hold bytes. */
  predicate Bytewise(w: World) {
    (forall i :: 0 <= i < |w.stdin| ==> 0 <= w.stdin[i] < 256)
    && forall f, i :: f in w.files && 0 <= i < |w.files[f]| ==> 0 <= w.files[f][i] < 256
  }

  /** Every cell holds an int64. */
  predicate CellsFit(memory: seq<int>) {
    |memory| <= MaxInt64 && forall a :: 0 <= a < |memory| ==> IsInt64(memory[a])
  }

  /** Every variable holds an int64. */
  predicate VarsFit(vars: map<string, int>) {
    forall n :: n in vars ==> IsInt64(vars[n])
  }

  /** Every jump target is a statement index, never negative. */
  predicate JumpsFit(jumps: map<string, int>) {
    forall n :: n in jumps ==> 0 <= jumps[n]
  }

  /** The machine's values fit the Go types that hold them, and the index
      has not gone below the first statement. */
  predicate Sane(m: Machine) {
    CellsFit(m.memory) && VarsFit(m.variables) && JumpsFit(m.jumps) && 0 <= m.index && Bytewise(m.world)
  }

  /** A fresh machine over a byte-valued world is well formed. */
  lemma NewSane(memsize: int, world: World)
    requires IsInt64(memsize) && Bytewise(world)
    ensures New(memsize, world).Success? ==> Sane(New(memsize, world).value)
  {
  }

  /** Under well-formed variables every operand reads as an int64. */
  lemma OperandFits(vars: map<string, int>, v: Value)
    requires VarsFit(vars)
    ensures IsInt64(Operand(vars, v))
    ensures Resolve(vars, v).Success? ==> IsInt64(Resolve(vars, v).value)
  {
  }

  /** `input` keeps the machine well formed: the byte it stores fits. */
  lemma InputSane(m: Machine, args: seq<Value>)
    requires Sane(m)
    ensures InputBuiltin(m, args).Success? ==> Sane(InputBuiltin(m, args).value)
  {
    if InputBuiltin(m, args).Success? {
      var r := InputBuiltin(m, args).value;
      assert forall i :: 0 <= i < |r.world.stdin| ==> r.world.stdin[i] == m.world.stdin[i + 1];
    }
  }

  /** `memset` keeps the machine well formed. */
  lemma MemSetSane(m: Machine, ctx: Context, args: seq<Value>)
    requires Sane(m)
    ensures MemSetBuiltin(m, ctx, args).Success? ==> Sane(MemSetBuiltin(m, ctx, args).value)
  {
    if 2 <= |args| {
      OperandFits(m.variables, args[1]);
    }
  }

  /** `memget` keeps the machine well formed. */
  lemma MemGetSane(m: Machine, ctx: Context, args: seq<Value>)
    requires Sane(m)
    ensures MemGetBuiltin(m, ctx, args).Success? ==> Sane(MemGetBuiltin(m, ctx, args).value)
  {
  }

  /** `read_file` keeps the machine well formed: the cells receive bytes and
      the length fits because the file fits in memory. */
  lemma ReadFileSane(m: Machine, ctx: Context, args: seq<Value>)
    requires Sane(m)
    ensures Builtins.ReadFile(m, ctx, args).Success? ==> Sane(Builtins.ReadFile(m, ctx, args).value)
  {
    var r := Builtins.ReadFile(m, ctx, args);
    if r.Success? {
      var data := m.world.files[args[0].text];
      assert forall i :: 0 <= i < |data| ==> 0 <= data[i] < 256;
      assert CellsFit(r.value.memory);
    }
  }

  /** `write_file` keeps the machine well formed: the file receives bytes. */
  lemma WriteFileSane(m: Machine, ctx: Context, args: seq<Value>)
    requires Sane(m)
    ensures Builtins.WriteFile(m, ctx, args).Success? ==> Sane(Builtins.WriteFile(m, ctx, args).value)
  {
  }

  /** Every builtin keeps the machine well formed. */
  lemma InvokeSane(b: Builtin, m: Machine, ctx: Context, args: seq<Value>)
    requires Sane(m)
    ensures Invoke(b, m, ctx, args).Success? ==> Sane(Invoke(b, m, ctx, args).value)
  {
    match b
    case Input => InputSane(m, args);
    case MemSet => MemSetSane(m, ctx, args);
    case MemGet => MemGetSane(m, ctx, args);
    case ReadFile => ReadFileSane(m, ctx, args);
    case WriteFile => WriteFileSane(m, ctx, args);
    case _ =>
  }

  /** Every statement keeps the machine well formed. */
  lemma ExecuteSane(m: Machine, s: Stmt)
    requires Sane(m)
    ensures Execute(m, s).Success? ==> Sane(Execute(m, s).value)
  {
    match s
    case VarDeclValue(_, value) => OperandFits(m.variables, value);
    case VarDeclExpr(_, _) =>
    case Call(name, values, token) =>
      if name in m.funcs {
        InvokeSane(m.funcs[name].fn, m, token.ctx, values);
      }
    case _ =>
  }

  /** One step of the loop keeps the machine well formed. */
  lemma StepSane(m: Machine)
    requires Sane(m) && m.index < |m.program|
    ensures Step(m).Success? ==> Sane(Step(m).value)
  {
    ExecuteSane(m, m.program[m.index]);
  }

  /** The pre-pass only adds statement indices to the jump table. */
  lemma {:induction false} BuildJumpsFit(jumps: map<string, int>, stmts: seq<Stmt>, i: nat)
    requires i <= |stmts| && JumpsFit(jumps)
    ensures JumpsFit(BuildJumps(jumps, stmts, i))
    decreases |stmts| - i
  {
    if i < |stmts| {
      BuildJumpsFit(if stmts[i].Label? then jumps[stmts[i].name := i] else jumps, stmts, i + 1);
    }
  }

  /** A step function defined wherever the index names a statement. */
  ghost predicate Total(step: Machine --> Result<Machine, Error>) {
    forall s: Machine :: 0 <= s.index < |s.program| ==> step.requires(s)
  }

  /** The dispatch loop over an arbitrary step function. */
  ghost function Drive(step: Machine --> Result<Machine, Error>, m: Machine, fuel: nat): Halt
    requires Total(step)
    decreases fuel
  {
    if m.index >= |m.program| then Finished(m)
    else if m.index < 0 then Failed(NegativeIndex(m.index))
    else if fuel == 0 then OutOfFuel(m)
    else
      match step(m)
      case Failure(e) => Failed(e)
      case Success(next) => Drive(step, next, fuel - 1)
  }

  /** The executor's own step. */
  ghost const Stepper: Machine --> Result<Machine, Error> :=
    (s: Machine) requires 0 <= s.index < |s.program| => Step(s)

  /** The dispatch loop is the loop over the executor's step. */
  lemma {:induction false} ExecIsDrive(m: Machine, fuel: nat)
    ensures Total(Stepper) && Exec(m, fuel) == Drive(Stepper, m, fuel)
    decreases fuel
  {
    if 0 <= m.index < |m.program| && fuel > 0 && Step(m).Success? {
      ExecIsDrive(Step(m).value, fuel - 1);
    }
  }

  /** The step keeps machines well formed. */
  ghost predicate KeepsSane(step: Machine --> Result<Machine, Error>)
    requires Total(step)
  {
    forall s: Machine :: Sane(s) && s.index < |s.program| && step(s).Success? ==> Sane(step(s).value)
  }

  lemma {:induction false} DriveSane(step: Machine --> Result<Machine, Error>, m: Machine, fuel: nat)
    requires Total(step) && KeepsSane(step) && Sane(m)
    ensures Drive(step, m, fuel).Finished? ==> Sane(Drive(step, m, fuel).final)
    ensures Drive(step, m, fuel).OutOfFuel? ==> Sane(Drive(step, m, fuel).last)
    ensures Drive(step, m, fuel).Failed? ==>
      exists s :: Sane(s) && s.index < |s.program| && step(s) == Failure(Drive(step, m, fuel).error)
    decreases fuel
  {
    if m.index < |m.program| && fuel > 0 && step(m).Success? {
      DriveSane(step, step(m).value, fuel - 1);
    }
  }

  /** From a well-formed machine the loop never reaches the negative-index
      panic: it finishes or runs out of budget in a well-formed state, or
      fails with the error of a step taken from a well-formed state. */
  lemma ExecSane(m: Machine, fuel: nat)
    requires Sane(m)
    ensures Exec(m, fuel).Finished? ==> Sane(Exec(m, fuel).final)
    ensures Exec(m, fuel).OutOfFuel? ==> Sane(Exec(m, fuel).last)
    ensures Exec(m, fuel).Failed? ==>
      exists s :: Sane(s) && s.index < |s.program| && Step(s) == Failure(Exec(m, fuel).error)
  {
    ExecIsDrive(m, fuel);
    forall s: Machine | Sane(s) && s.index < |s.program|
      ensures Stepper(s).Success? ==> Sane(Stepper(s).value)
    {
      StepSane(s);
    }
    DriveSane(Stepper, m, fuel);
  }

  /** Installing a program keeps a machine well formed. */
  lemma RunSane(m: Machine, program: Program, fuel: nat)
    requires Sane(m)
    ensures Run(m, program, fuel).Finished? ==> Sane(Run(m, program, fuel).final)
    ensures Run(m, program, fuel).Failed? ==>
      exists s :: Sane(s) && s.index < |s.program| && Step(s) == Failure(Run(m, program, fuel).error)
  {
    BuildJumpsFit(m.jumps, program.stmts, 0);
    ExecSane(m.(program := program.stmts, jumps := BuildJumps(m.jumps, program.stmts, 0)), fuel);
  }

  lemma {:induction false} DriveFuelMonotone(step: Machine --> Result<Machine, Error>, m: Machine, fuel: nat, more: nat)
    requires Total(step) && !Drive(step, m, fuel).OutOfFuel?
    ensures Drive(step, m, fuel + more) == Drive(step, m, fuel)
    decreases fuel
  {
    if 0 <= m.index < |m.program| && step(m).Success? {
      DriveFuelMonotone(step, step(m).value, fuel - 1, more);
    }
  }

  /** More budget never changes a run that ended within the budget. */
  lemma ExecFuelMonotone(m: Machine, fuel: nat, more: nat)
    requires !Exec(m, fuel).OutOfFuel?
    ensures Exec(m, fuel + more) == Exec(m, fuel)
  {
    ExecIsDrive(m, fuel);
    ExecIsDrive(m, fuel + more);
    DriveFuelMonotone(Stepper, m, fuel, more);
  }

  lemma {:induction false} DriveResumes(step: Machine --> Result<Machine, Error>, m: Machine, fuel: nat, more: nat)
    requires Total(step) && Drive(step, m, fuel).OutOfFuel?
    ensures Drive(step, m, fuel + more) == Drive(step, Drive(step, m, fuel).last, more)
    decreases fuel
  {
    if fuel > 0 {
      DriveResumes(step, step(m).value, fuel - 1, more);
    }
  }

  /** A run that ran out of budget after `fuel` steps continues from where
      it stopped. */
  lemma ExecResumes(m: Machine, fuel: nat, more: nat)
    requires Exec(m, fuel).OutOfFuel?
    ensures Exec(m, fuel + more) == Exec(Exec(m, fuel).last, more)
  {
    ExecIsDrive(m, fuel);
    ExecIsDrive(m, fuel + more);
    ExecIsDrive(Exec(m, fuel).last, more);
    DriveResumes(Stepper, m, fuel, more);
  }

  /** No statement of a parsed program holds a string literal, so no builtin
      it calls rejects an operand as one. */
  lemma ParsedOperandsAccepted(toks: seq<Token>)
    requires Parse(toks).Success?
    ensures forall k :: 0 <= k < |Parse(toks).value.stmts| && Parse(toks).value.stmts[k].Call? ==>
      DenyStringType(Parse(toks).value.stmts[k].values).Success?
  {
    ParseResult(toks);
    var stmts := Parse(toks).value.stmts;
    forall k | 0 <= k < |stmts| && stmts[k].Call?
      ensures DenyStringType(stmts[k].values).Success?
    {
      assert OperandsTyped(stmts[k]);
      assert Operands(stmts[k]) == stmts[k].values;
    }
  }

  /** The file builtins want a string literal first, which no parsed
      program can supply: without one they always fail. */
  lemma FileBuiltinsNeedStrings(m: Machine, ctx: Context, args: seq<Value>)
    requires forall k :: 0 <= k < |args| ==> args[k].vtype != Str
    ensures Builtins.ReadFile(m, ctx, args).Failure?
    ensures Builtins.WriteFile(m, ctx, args).Failure?
  {
  }
}
