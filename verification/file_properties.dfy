/** What the file builtins guarantee, and where the slice checks as written
    part from the intended ones. */
module FileProperties {
  import opened Results
  import opened GoInt
  import opened Numerals
  import opened Tokens
  import opened Ast
  import opened VmState
  import opened Builtins

  /** The operand shape `read_file` accepts: a string naming the file, a
      resolvable address inside memory, and a variable for the length. */
  predicate ReadArgs(m: Machine, file: Value, addr: Value, length: Value) {
    file.vtype == Str && addr.vtype != Str && length.vtype == Var
    && Resolve(m.variables, addr).Success? && InMemory(m, Resolve(m.variables, addr).value)
  }

  /** With the right operands, `read_file` fails only for a missing file or
      one that runs past the end of memory; otherwise the file's bytes land
      in consecutive cells from the address, the length variable holds their
      count, and nothing else changes. */
  lemma ReadFileEffect(m: Machine, ctx: Context, file: Value, addr: Value, length: Value)
    requires ReadArgs(m, file, addr, length)
    ensures var r := Builtins.ReadFile(m, ctx, [file, addr, length]);
      file.text !in m.world.files ==>
        r == Failure(RuntimeError("open " + file.text + ": no such file or directory", file.token.ctx))
    ensures var r := Builtins.ReadFile(m, ctx, [file, addr, length]);
      var a := Resolve(m.variables, addr).value;
      file.text in m.world.files ==>
        var data := m.world.files[file.text];
        (r.Success? <==> a + |data| <= |m.memory|)
        && (r.Failure? ==> r.error == RuntimeError("file too large", ctx))
        && (r.Success? ==>
              |r.value.memory| == |m.memory|
              && (forall i :: 0 <= i < |data| ==> r.value.memory[a + i] == data[i])
              && (forall i :: 0 <= i < |m.memory| && !(a <= i < a + |data|) ==> r.value.memory[i] == m.memory[i])
              && r.value.variables == m.variables[length.text := |data|]
              && r.value == m.(memory := r.value.memory, variables := r.value.variables))
  {
    assert [file, addr, length][1..] == [addr, length];
  }

  /** The as-written check differs from the intended one only for a file
      that ends exactly at the last cell: the handler as written rejects it
      as too large, the intended one copies it. */
  lemma ReadFileChecksDiffer(m: Machine, ctx: Context, args: seq<Value>)
    ensures ReadFileAsWritten(m, ctx, args) == Builtins.ReadFile(m, ctx, args)
      || (3 <= |args| && ReadArgs(m, args[0], args[1], args[2]) && args[0].text in m.world.files
          && Resolve(m.variables, args[1]).value + |m.world.files[args[0].text]| == |m.memory|
          && ReadFileAsWritten(m, ctx, args) == Failure(RuntimeError("file too large", ctx))
          && Builtins.ReadFile(m, ctx, args).Success?)
  {
  }

  /** A four-cell memory and a four-byte file copied to address 0. */
  const FourCells: Machine :=
    Machine([0, 0, 0, 0], map[], map[], [], map[], 0, World([], map["f" := [1, 2, 3, 4]], []))

  const Spot: Token := Token(Identifier, 1, "f", Nowhere)
  const FourArgs: seq<Value> := [Value(Str, "f", Spot), Value(Int, "0", Spot), Value(Var, "n", Spot)]

  /** Operands writing four cells from address 0 to the file `g`. */
  const FourLengthArgs: seq<Value> := [Value(Str, "g", Spot), Value(Int, "0", Spot), Value(Int, "4", Spot)]

  /** A file exactly as large as memory cannot be read at address 0 as
      written, though it fits. */
  lemma ReadFileExactFit()
    ensures ReadFileAsWritten(FourCells, Nowhere, FourArgs) == Failure(RuntimeError("file too large", Nowhere))
    ensures Builtins.ReadFile(FourCells, Nowhere, FourArgs).Success?
    ensures Builtins.ReadFile(FourCells, Nowhere, FourArgs).value.memory == [1, 2, 3, 4]
  {
    ParseDecimalZero();
    ReadFileEffect(FourCells, Nowhere, FourArgs[0], FourArgs[1], FourArgs[2]);
    assert FourArgs == [FourArgs[0], FourArgs[1], FourArgs[2]];
  }

  /** The literal `0` reads as zero. */
  lemma ParseDecimalZero()
    ensures Resolve(map[], Value(Int, "0", Spot)) == Success(0)
  {
    ParseDecimalString(0);
    assert DecimalString(0) == "0";
  }

  /** The operand shape `write_file` accepts: a string naming the file, a
      resolvable address inside memory, and a resolvable length. */
  predicate WriteArgs(m: Machine, file: Value, addr: Value, length: Value) {
    file.vtype == Str && addr.vtype != Str && length.vtype != Str
    && Resolve(m.variables, addr).Success? && InMemory(m, Resolve(m.variables, addr).value)
    && Resolve(m.variables, length).Success?
  }

  /** With the right operands, `write_file` succeeds exactly when the range
      lies inside memory; the file then holds the low bytes of those cells,
      and nothing but the file system changes. */
  lemma WriteFileEffect(m: Machine, ctx: Context, file: Value, addr: Value, length: Value)
    requires WriteArgs(m, file, addr, length)
    ensures var r := Builtins.WriteFile(m, ctx, [file, addr, length]);
      var a := Resolve(m.variables, addr).value;
      var n := Resolve(m.variables, length).value;
      (r.Success? <==> 0 <= n && a + n <= |m.memory|)
      && (r.Failure? ==> r.error.phase == Runtime && r.error.pos == ctx)
      && (r.Success? ==>
            r.value == m.(world := m.world.(files := m.world.files[file.text := r.value.world.files[file.text]]))
            && |r.value.world.files[file.text]| == n
            && forall i :: 0 <= i < n ==> r.value.world.files[file.text][i] == LowByte(m.memory[a + i]))
  {
    assert [file, addr, length][1..] == [addr, length];
  }

  /** Whenever the handler as written writes a file, the intended one writes
      the same; the intended one also writes a range ending at the last
      cell, which the one as written reports out of bounds. */
  lemma WriteFileChecksDiffer(m: Machine, ctx: Context, args: seq<Value>)
    requires |m.memory| <= MaxInt64
    ensures WriteFileAsWritten(m, ctx, args).Success? ==> Builtins.WriteFile(m, ctx, args) == WriteFileAsWritten(m, ctx, args)
    ensures Builtins.WriteFile(m, ctx, args).Success? && WriteFileAsWritten(m, ctx, args).Failure? ==>
      3 <= |args| && WriteArgs(m, args[0], args[1], args[2])
      && Resolve(m.variables, args[1]).value + Resolve(m.variables, args[2]).value == |m.memory|
      && WriteFileAsWritten(m, ctx, args).error.message == "memory out of bounds (" + FormatInt(|m.memory|) + ")"
  {
  }

  /** Writing all four cells of a four-cell memory from address 0 is
      reported out of bounds as written, though the range fits. */
  lemma WriteFileExactFit()
    ensures WriteFileAsWritten(FourCells, Nowhere, FourLengthArgs)
      == Failure(RuntimeError("memory out of bounds (4)", Nowhere))
    ensures Builtins.WriteFile(FourCells, Nowhere, FourLengthArgs).Success?
    ensures Builtins.WriteFile(FourCells, Nowhere, FourLengthArgs).value.world.files["g"] == [0, 0, 0, 0]
  {
    FourLengthOperands();
    ExactFitRefused();
    ExactFitWritten();
  }

  /** The operands of the example: the file name, address 0 and length 4. */
  lemma FourLengthOperands()
    ensures FourLengthArgs == [FourLengthArgs[0], FourLengthArgs[1], FourLengthArgs[2]]
    ensures FourLengthArgs[1..] == [FourLengthArgs[1], FourLengthArgs[2]]
    ensures Resolve(FourCells.variables, FourLengthArgs[1]) == Success(0)
    ensures Resolve(FourCells.variables, FourLengthArgs[2]) == Success(4)
  {
    ParseDecimalZero();
    ParseDecimalString(4);
    assert DecimalString(4) == "4";
  }

  /** The check as written refuses the example. */
  lemma ExactFitRefused()
    requires Resolve(FourCells.variables, FourLengthArgs[1]) == Success(0)
    requires Resolve(FourCells.variables, FourLengthArgs[2]) == Success(4)
    requires FourLengthArgs == [FourLengthArgs[0], FourLengthArgs[1], FourLengthArgs[2]]
    ensures WriteFileAsWritten(FourCells, Nowhere, FourLengthArgs)
      == Failure(RuntimeError("memory out of bounds (4)", Nowhere))
  {
    assert FormatInt(4) == "4" by {
      assert DecimalString(4) == "4";
    }
    assert "memory out of bounds (" + "4" + ")" == "memory out of bounds (4)";
  }

  /** The intended check writes the example's four zero cells. */
  lemma ExactFitWritten()
    requires Resolve(FourCells.variables, FourLengthArgs[1]) == Success(0)
    requires Resolve(FourCells.variables, FourLengthArgs[2]) == Success(4)
    requires FourLengthArgs == [FourLengthArgs[0], FourLengthArgs[1], FourLengthArgs[2]]
    ensures Builtins.WriteFile(FourCells, Nowhere, FourLengthArgs).Success?
    ensures Builtins.WriteFile(FourCells, Nowhere, FourLengthArgs).value.world.files["g"] == [0, 0, 0, 0]
  {
    WriteFileEffect(FourCells, Nowhere, FourLengthArgs[0], FourLengthArgs[1], FourLengthArgs[2]);
    var g := Builtins.WriteFile(FourCells, Nowhere, FourLengthArgs).value.world.files["g"];
    assert |g| == 4 && forall i :: 0 <= i < 4 ==> g[i] == LowByte(0);
    assert LowByte(0) == 0;
  }

  /** A negative length gets past the check as written and reaches the panic
      of making a buffer of that length; the intended check reports it. */
  lemma WriteFileNegativeLength(m: Machine, ctx: Context, file: Value, addr: Value, length: Value)
    requires WriteArgs(m, file, addr, length) && IsInt64(Resolve(m.variables, length).value)
    requires Resolve(m.variables, length).value < 0 && |m.memory| <= MaxInt64
    ensures WriteFileAsWritten(m, ctx, [file, addr, length])
      == Failure(PanicError("runtime error: makeslice: len out of range", Nowhere))
    ensures Builtins.WriteFile(m, ctx, [file, addr, length]).Failure?
      && Builtins.WriteFile(m, ctx, [file, addr, length]).error.phase == Runtime
  {
    assert [file, addr, length][1..] == [addr, length];
    var a := Resolve(m.variables, addr).value;
    var n := Resolve(m.variables, length).value;
    assert IsInt64(a + n);
  }
}
