/** What the executor guarantees: the jump table, jumps, assignment and
    arithmetic, the order of a call's checks, and the memory builtins. */
module VmProperties {
  import opened Results
  import opened GoInt
  import opened Tokens
  import opened Ast
  import opened VmState
  import opened Builtins
  import opened Executor

  /** Statement i is the last label named `name`. */
  predicate LastLabel(stmts: seq<Stmt>, name: string, i: int) {
    0 <= i < |stmts| && stmts[i] == Stmt.Label(name)
    && forall j :: i < j < |stmts| ==> stmts[j] != Stmt.Label(name)
  }

  /** Some statement from i on is a label named `name`. */
  predicate LabelFrom(stmts: seq<Stmt>, name: string, i: nat) {
    exists k :: i <= k < |stmts| && stmts[k] == Stmt.Label(name)
  }

  /** The pre-pass adds exactly the label names it passes. */
  lemma {:induction false} BuildJumpsKeys(jumps: map<string, int>, stmts: seq<Stmt>, i: nat)
    requires i <= |stmts|
    ensures forall n :: n in BuildJumps(jumps, stmts, i) <==> n in jumps || LabelFrom(stmts, n, i)
    decreases |stmts| - i
  {
    if i < |stmts| {
      var next := if stmts[i].Label? then jumps[stmts[i].name := i] else jumps;
      BuildJumpsKeys(next, stmts, i + 1);
      forall n | LabelFrom(stmts, n, i)
        ensures n in next || LabelFrom(stmts, n, i + 1)
      {
        var k :| i <= k < |stmts| && stmts[k] == Stmt.Label(n);
        if k > i {
          assert LabelFrom(stmts, n, i + 1);
        }
      }
    }
  }

  /** A name labelled from i on maps to its last label; any other name keeps
      the entry it had. */
  lemma {:induction false} BuildJumpsValues(jumps: map<string, int>, stmts: seq<Stmt>, i: nat)
    requires i <= |stmts|
    ensures forall n, k :: i <= k && LastLabel(stmts, n, k) ==> n in BuildJumps(jumps, stmts, i) && BuildJumps(jumps, stmts, i)[n] == k
    ensures forall n :: n in jumps && !LabelFrom(stmts, n, i) ==> n in BuildJumps(jumps, stmts, i) && BuildJumps(jumps, stmts, i)[n] == jumps[n]
    decreases |stmts| - i
  {
    if i < |stmts| {
      var next := if stmts[i].Label? then jumps[stmts[i].name := i] else jumps;
      BuildJumpsValues(next, stmts, i + 1);
      BuildJumpsKeys(next, stmts, i + 1);
      forall n, k | i <= k && LastLabel(stmts, n, k)
        ensures BuildJumps(jumps, stmts, i)[n] == k
      {
        if k == i {
          assert !LabelFrom(stmts, n, i + 1);
        }
      }
      forall n | n in jumps && !LabelFrom(stmts, n, i)
        ensures BuildJumps(jumps, stmts, i)[n] == jumps[n]
      {
        assert !LabelFrom(stmts, n, i + 1);
        assert stmts[i] != Stmt.Label(n);
      }
    }
  }

  /** Every label name has a last occurrence. */
  lemma {:induction false} LastLabelExists(stmts: seq<Stmt>, name: string, i: nat)
    requires LabelFrom(stmts, name, i)
    ensures exists k :: i <= k && LastLabel(stmts, name, k)
    decreases |stmts| - i
  {
    if LabelFrom(stmts, name, i + 1) {
      LastLabelExists(stmts, name, i + 1);
    } else {
      var k :| i <= k < |stmts| && stmts[k] == Stmt.Label(name);
      assert LastLabel(stmts, name, k);
    }
  }

  /** The jump table of a program, built from an empty table: its names are
      exactly the program's labels, and each maps to the index of the last
      label of that name. */
  lemma JumpTable(stmts: seq<Stmt>)
    ensures forall n :: n in BuildJumps(map[], stmts, 0) <==> LabelFrom(stmts, n, 0)
    ensures forall n :: n in BuildJumps(map[], stmts, 0) ==> LastLabel(stmts, n, BuildJumps(map[], stmts, 0)[n])
  {
    BuildJumpsKeys(map[], stmts, 0);
    BuildJumpsValues(map[], stmts, 0);
    forall n | n in BuildJumps(map[], stmts, 0)
      ensures LastLabel(stmts, n, BuildJumps(map[], stmts, 0)[n])
    {
      LastLabelExists(stmts, n, 0);
    }
  }

  /** A `goto` step moves to the statement after the label, or fails when
      the label is not in the table. */
  lemma GotoStep(m: Machine)
    requires 0 <= m.index < |m.program| && m.program[m.index].Goto?
    ensures var jump := m.program[m.index].jump;
      (Step(m).Success? <==> jump.name in m.jumps)
      && (Step(m).Success? ==> Step(m).value == m.(index := m.jumps[jump.name] + 1))
      && (Step(m).Failure? ==> Step(m).error == RuntimeError("label does not exist", jump.token.ctx))
  {
  }

  /** An `if` step jumps exactly when its condition holds and otherwise
      moves on to the next statement; a missing label is an error only when
      the jump is taken. */
  lemma IfStep(m: Machine)
    requires 0 <= m.index < |m.program| && m.program[m.index].If?
    ensures var s := m.program[m.index];
      var c := Condition(m.variables, s.cond);
      (Step(m).Success? <==> c.Success? && (c.value ==> s.jump.name in m.jumps))
      && (Step(m).Success? && c.value ==> Step(m).value == m.(index := m.jumps[s.jump.name] + 1))
      && (Step(m).Success? && !c.value ==> Step(m).value == m.(index := m.index + 1))
      && (c.Failure? ==> Step(m) == Failure(c.error))
      && (c.Success? && c.value && s.jump.name !in m.jumps ==>
            Step(m).error == RuntimeError("label does not exist", s.jump.token.ctx))
  {
  }

  /** After a jump through the table of the running program, the statement
      just before the new index is the label jumped to. */
  lemma JumpLandsAfterLabel(m: Machine)
    requires 0 <= m.index < |m.program| && m.jumps == BuildJumps(map[], m.program, 0)
    requires m.program[m.index].Goto? || m.program[m.index].If?
    ensures Step(m).Success? && Step(m).value.index != m.index + 1 ==>
      var n := m.program[m.index].jump.name;
      0 < Step(m).value.index <= |m.program| && m.program[Step(m).value.index - 1] == Stmt.Label(n)
  {
    JumpTable(m.program);
    if m.program[m.index].Goto? {
      GotoStep(m);
    } else {
      IfStep(m);
    }
  }

  /** Statements the dispatch has no case for only move the index on. */
  lemma PassiveStep(m: Machine)
    requires 0 <= m.index < |m.program|
    requires m.program[m.index].Label? || m.program[m.index].ShowNum? || m.program[m.index].ShowChar?
      || m.program[m.index].Input?
    ensures Step(m) == Success(m.(index := m.index + 1))
  {
  }

  /** An assignment step changes only the target variable, to the operand's
      value, or fails on a missing variable without changing anything. */
  lemma AssignStep(m: Machine)
    requires 0 <= m.index < |m.program| && m.program[m.index].VarDeclValue?
    ensures var s := m.program[m.index];
      (Step(m).Success? <==> s.value.vtype == Int || s.value.text in m.variables)
      && (Step(m).Success? ==>
            Step(m).value == m.(variables := m.variables[s.name := Resolve(m.variables, s.value).value],
                                index := m.index + 1))
      && (Step(m).Failure? ==> Step(m).error == RuntimeError("variable does not exist", s.value.token.ctx))
  {
  }

  /** An arithmetic assignment: the left operand is resolved first, then the
      right, then the operator is applied; only the target variable
      changes. */
  lemma ArithStep(m: Machine)
    requires 0 <= m.index < |m.program| && m.program[m.index].VarDeclExpr?
    ensures var s := m.program[m.index];
      var l := Resolve(m.variables, s.expr.lhs);
      var r := Resolve(m.variables, s.expr.rhs);
      (l.Failure? ==> Step(m) == Failure(l.error))
      && (l.Success? && r.Failure? ==> Step(m) == Failure(r.error))
      && (l.Success? && r.Success? ==>
            match Arith(s.expr.op, l.value, r.value)
            case Failure(e) => Step(m) == Failure(e)
            case Success(v) => Step(m) == Success(m.(variables := m.variables[s.name := v], index := m.index + 1)))
  {
  }

  /** `^` lexes and parses as an arithmetic operator but the executor has no
      case for it. */
  lemma PowPanics(l: int, r: int)
    ensures Arith("^", l, r) == Failure(PanicError("invalid operator: ^", Nowhere))
  {
    assert forall op :: op in {"+", "-", "*", "/", "%"} ==> op[0] != '^';
    assert "invalid operator: " + "^" == "invalid operator: ^";
  }

  /** `+`, `-` and `*` give the exact result modulo 2^64, and the exact
      result itself when it fits. */
  lemma ArithWraps(op: string, l: int, r: int)
    requires op in {"+", "-", "*"}
    ensures var exact := if op == "+" then l + r else if op == "-" then l - r else l * r;
      Arith(op, l, r).Success?
      && (exists k: int :: Arith(op, l, r).value == exact + k * TwoTo64)
      && (IsInt64(exact) ==> Arith(op, l, r).value == exact)
  {
  }

  /** On int64 operands `/` and `%` satisfy Go's division identity: the
      remainder is smaller than the divisor and zero or of the dividend's
      sign; the one quotient that overflows, MinInt64 / -1, wraps to
      MinInt64 with remainder 0. */
  lemma ArithDivision(l: int, r: int)
    requires IsInt64(l) && IsInt64(r) && r != 0
    ensures Arith("/", l, r).Success? && Arith("%", l, r).Success?
    ensures var q, m := Arith("/", l, r).value, Arith("%", l, r).value;
      (l == MinInt64 && r == -1 ==> q == MinInt64 && m == 0)
      && (!(l == MinInt64 && r == -1) ==> l == r * q + m)
      && Abs(m) < Abs(r) && (m == 0 || (m < 0 <==> l < 0))
  {
    WrappedQuotient(l, r);
    TruncModInRange(l, r);
    TruncDivision(l, r);
  }

  /** `<` and `==` decide as the integers' order and equality; the other
      comparisons come in complementary pairs and `>` is `<` turned round,
      so all six are fixed. */
  lemma CompareDuals(l: int, r: int)
    ensures Compare("<", l, r) == Success(l < r)
    ensures Compare("==", l, r) == Success(l == r)
    ensures Compare("!=", l, r).value == !Compare("==", l, r).value
    ensures Compare(">=", l, r).value == !Compare("<", l, r).value
    ensures Compare("<=", l, r).value == !Compare(">", l, r).value
    ensures Compare(">", l, r).value == Compare("<", r, l).value
    ensures Compare("==", l, r).value == Compare("==", r, l).value
  {
  }

  /** The registry has an entry for the name and the operand count suits it. */
  predicate ArityOk(m: Machine, name: string, values: seq<Value>) {
    name in m.funcs && (|values| == m.funcs[name].argCount || m.funcs[name].argCount == -1)
  }

  /** Operand k is the first variable operand naming no variable. */
  predicate FirstMissingAt(vars: map<string, int>, values: seq<Value>, k: int) {
    0 <= k < |values| && values[k].vtype == Var && values[k].text !in vars
    && forall j :: 0 <= j < k && values[j].vtype == Var ==> values[j].text in vars
  }

  /** A call's checks, in order: the name must be registered, the operand
      count must match unless the entry takes any count, and a validating
      entry reports the first variable operand that does not exist. Only a
      call that passes all three runs its handler. */
  lemma CallChecks(m: Machine, name: string, values: seq<Value>, token: Token)
    ensures name !in m.funcs ==>
      CallFunction(m, name, values, token) == Failure(RuntimeError("function does not exist", token.ctx))
    ensures name in m.funcs && !ArityOk(m, name, values) ==>
      CallFunction(m, name, values, token) == Failure(RuntimeError("incorrect number of arguments", token.ctx))
    ensures forall k :: ArityOk(m, name, values) && m.funcs[name].argValidate && FirstMissingAt(m.variables, values, k) ==>
      CallFunction(m, name, values, token) == Failure(RuntimeError("variable does not exist", values[k].token.ctx))
    ensures CallFunction(m, name, values, token).Success? ==>
      ArityOk(m, name, values)
      && (m.funcs[name].argValidate ==>
            forall k :: 0 <= k < |values| && values[k].vtype == Var ==> values[k].text in m.variables)
      && CallFunction(m, name, values, token) == Invoke(m.funcs[name].fn, m, token.ctx, values)
  {
    if name in m.funcs {
      var miss := FirstMissing(m.variables, values);
      if miss.Some? {
        forall k | FirstMissingAt(m.variables, values, k)
          ensures miss.value == values[k]
        {
          var w :| 0 <= w < |values| && values[w] == miss.value && miss.value.vtype == Var
            && miss.value.text !in m.variables
            && forall j :: 0 <= j < w && values[j].vtype == Var ==> values[j].text in m.variables;
          if w < k {
          } else if k < w {
          }
        }
      }
    }
  }

  /** Once a validating call's checks pass, every integer or variable
      operand resolves, so the handlers' unchecked reads see the variables'
      values. */
  lemma ValidatedReads(vars: map<string, int>, values: seq<Value>)
    requires FirstMissing(vars, values).None?
    ensures forall k :: 0 <= k < |values| && values[k].vtype in {Int, Var} ==>
      Resolve(vars, values[k]).Success? && Operand(vars, values[k]) == Resolve(vars, values[k]).value
  {
  }

  /** `memset` succeeds exactly when neither operand is a string and the
      address is a cell; it then changes that cell alone, to the value. */
  lemma MemSetEffect(m: Machine, ctx: Context, args: seq<Value>)
    requires |args| == 2
    ensures var addr := Operand(m.variables, args[0]);
      var r := MemSetBuiltin(m, ctx, args);
      (r.Success? <==> args[0].vtype != Str && args[1].vtype != Str && InMemory(m, addr))
      && (r.Success? ==> r.value == m.(memory := m.memory[addr := Operand(m.variables, args[1])]))
      && (args[0].vtype != Str && args[1].vtype != Str && !InMemory(m, addr) ==>
            r == Failure(RuntimeError("invalid memory address", ctx)))
  {
  }

  /** `memget` succeeds exactly when neither operand is a string, the
      address resolves to a cell and the target is a variable; it then sets
      that variable alone, to the cell's value. */
  lemma MemGetEffect(m: Machine, ctx: Context, args: seq<Value>)
    requires |args| == 2
    ensures var a := Resolve(m.variables, args[0]);
      var r := MemGetBuiltin(m, ctx, args);
      (r.Success? <==>
        args[0].vtype != Str && args[1].vtype != Str && a.Success? && InMemory(m, a.value) && args[1].vtype == Var)
      && (r.Success? ==> r.value == m.(variables := m.variables[args[1].text := m.memory[a.value]]))
  {
  }

  /** Reading back a cell just written gives the value written. */
  lemma MemRoundTrip(m: Machine, ctx: Context, addr: Value, v: Value, x: Value)
    requires addr.vtype != Str && x.vtype == Var && Resolve(m.variables, addr).Success?
    ensures MemSetBuiltin(m, ctx, [addr, v]).Success? ==>
      var m1 := MemSetBuiltin(m, ctx, [addr, v]).value;
      var r := MemGetBuiltin(m1, ctx, [addr, x]);
      r.Success? && r.value.variables[x.text] == Operand(m.variables, v) && r.value.memory == m1.memory
  {
    MemSetEffect(m, ctx, [addr, v]);
    if MemSetBuiltin(m, ctx, [addr, v]).Success? {
      MemGetEffect(MemSetBuiltin(m, ctx, [addr, v]).value, ctx, [addr, x]);
    }
  }
}
