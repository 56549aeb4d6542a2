/** The builtin handlers `New` registers. Each receives the position of the
    call's name and the call's operands. */
module Builtins {
  import opened Results
  import opened GoInt
  import opened Numerals
  import opened Tokens
  import opened Ast
  import opened VmState

  const NotStr: string := "expected identifier or literal int not literal str"
  const NotVar: string := "expected identifier not literal"

  /** Rejects the first string-literal operand, at its own position. */
  function DenyStringType(args: seq<Value>): (r: Result<(), Error>)
    ensures r.Success? <==> forall k :: 0 <= k < |args| ==> args[k].vtype != Str
    ensures r.Failure? ==>
      exists k :: 0 <= k < |args| && args[k].vtype == Str
        && (forall j :: 0 <= j < k ==> args[j].vtype != Str)
        && r.error == RuntimeError(NotStr, args[k].token.ctx)
  {
    if |args| == 0 then
      Success(())
    else if args[0].vtype == Str then
      Failure(RuntimeError(NotStr, args[0].token.ctx))
    else
      var r := DenyStringType(args[1..]);
      assert forall k :: 1 <= k < |args| ==> args[k] == args[1..][k - 1];
      if r.Failure? then
        var k :| 0 <= k < |args[1..]| && args[1..][k].vtype == Str
          && (forall j :: 0 <= j < k ==> args[1..][j].vtype != Str)
          && r.error == RuntimeError(NotStr, args[1..][k].token.ctx);
        assert args[k + 1] == args[1..][k];
        r
      else
        r
  }

  /** `args[i]`, which panics past the end. */
  function Arg(args: seq<Value>, i: nat): (r: Result<Value, Error>)
    ensures r.Success? <==> i < |args|
    ensures r.Success? ==> r.value == args[i]
    ensures r.Failure? ==> r.error.phase == Panic
  {
    if i < |args| then Success(args[i]) else Failure(PanicError(IndexPanic(i, |args|), Nowhere))
  }

  /** An operand read without the existence check: an absent variable reads
      as zero. */
  function Operand(vars: map<string, int>, v: Value): (x: int)
    ensures Resolve(vars, v).Success? ==> x == Resolve(vars, v).value
    ensures v.vtype != Int && v.text !in vars ==> x == 0
  {
    if v.vtype == Int then ParseInt(v.text, 10) else ReadOrZero(vars, v.text)
  }

  /** Appends to the output. */
  function Emit(m: Machine, e: Event): (r: Machine)
    ensures r.world.output == m.world.output + [e]
    ensures r == m.(world := m.world.(output := r.world.output))
  {
    m.(world := m.world.(output := m.world.output + [e]))
  }

  /** What `showc` and `shown` share: the string check comes first, then the
      missing operand panics, then the operand must resolve; on success only
      the output changes, by one event. */
  predicate ShowsFirst(m: Machine, args: seq<Value>, r: Result<Machine, Error>) {
    && (r.Success? <==> DenyStringType(args).Success? && 0 < |args| && Resolve(m.variables, args[0]).Success?)
    && (r.Success? ==> r.value == m.(world := m.world.(output := r.value.world.output)))
    && (DenyStringType(args).Failure? ==> r == Failure(DenyStringType(args).error))
    && (DenyStringType(args).Success? && |args| == 0 ==> r == Failure(PanicError(IndexPanic(0, 0), Nowhere)))
    && (DenyStringType(args).Success? && 0 < |args| && Resolve(m.variables, args[0]).Failure? ==>
          r == Failure(Resolve(m.variables, args[0]).error))
  }

  /** `call showc v`: prints the low byte of the operand as a character. */
  function ShowCharBuiltin(m: Machine, args: seq<Value>): (r: Result<Machine, Error>)
    ensures Keeps(m, r)
    ensures ShowsFirst(m, args, r)
    ensures r.Success? ==> r.value.world.output == m.world.output + [Char(LowByte(Resolve(m.variables, args[0]).value))]
  {
    var _ :- DenyStringType(args);
    var a :- Arg(args, 0);
    var v :- Resolve(m.variables, a);
    Success(Emit(m, Char(LowByte(v))))
  }

  /** `call shown v`: prints the operand in decimal. */
  function ShowNumBuiltin(m: Machine, args: seq<Value>): (r: Result<Machine, Error>)
    ensures Keeps(m, r)
    ensures ShowsFirst(m, args, r)
    ensures r.Success? ==> r.value.world.output == m.world.output + [Number(Resolve(m.variables, args[0]).value)]
  {
    var _ :- DenyStringType(args);
    var a :- Arg(args, 0);
    var v :- Resolve(m.variables, a);
    Success(Emit(m, Number(v)))
  }

  /** `call input x`: reads one byte of standard input into the variable;
      reading past the end is the panic the handler raises on a read error. */
  function InputBuiltin(m: Machine, args: seq<Value>): (r: Result<Machine, Error>)
    ensures Keeps(m, r)
    ensures r.Success? <==>
      DenyStringType(args).Success? && 0 < |args| && args[0].vtype == Var && 0 < |m.world.stdin|
    ensures r.Success? ==>
      && r.value.variables.Keys == m.variables.Keys + {args[0].text}
      && m.world.stdin == [r.value.variables[args[0].text]] + r.value.world.stdin
      && r.value == m.(variables := r.value.variables, world := m.world.(stdin := r.value.world.stdin))
      && forall n :: n in m.variables && n != args[0].text ==> r.value.variables[n] == m.variables[n]
    ensures DenyStringType(args).Failure? ==> r == Failure(DenyStringType(args).error)
    ensures DenyStringType(args).Success? && |args| == 0 ==> r == Failure(PanicError(IndexPanic(0, 0), Nowhere))
    ensures DenyStringType(args).Success? && 0 < |args| && args[0].vtype != Var ==>
      r == Failure(RuntimeError(NotVar, args[0].token.ctx))
    ensures DenyStringType(args).Success? && 0 < |args| && args[0].vtype == Var && |m.world.stdin| == 0 ==>
      r == Failure(PanicError("EOF", Nowhere))
  {
    var _ :- DenyStringType(args);
    var a :- Arg(args, 0);
    if a.vtype != Var then
      Failure(RuntimeError(NotVar, a.token.ctx))
    else if |m.world.stdin| == 0 then
      Failure(PanicError("EOF", Nowhere))
    else
      Success(m.(variables := m.variables[a.text := m.world.stdin[0]],
                 world := m.world.(stdin := m.world.stdin[1..])))
  }

  /** An address that names a memory cell. */
  predicate InMemory(m: Machine, addr: int) {
    0 <= addr < |m.memory|
  }

  /** `call memset addr value`: stores the value in the addressed cell. The
      operands are read without the existence check (`memset` validates its
      variables before the handler runs). */
  function MemSetBuiltin(m: Machine, ctx: Context, args: seq<Value>): (r: Result<Machine, Error>)
    ensures Keeps(m, r)
  {
    var _ :- DenyStringType(args);
    var a :- Arg(args, 0);
    var addr := Operand(m.variables, a);
    if !InMemory(m, addr) then
      Failure(RuntimeError("invalid memory address", ctx))
    else
      var b :- Arg(args, 1);
      var v := Operand(m.variables, b);
      Success(m.(memory := m.memory[addr := v]))
  }

  /** `call memget addr x`: loads the addressed cell into the variable. */
  function MemGetBuiltin(m: Machine, ctx: Context, args: seq<Value>): (r: Result<Machine, Error>)
    ensures Keeps(m, r)
  {
    var _ :- DenyStringType(args);
    var a :- Arg(args, 0);
    var addr :- Resolve(m.variables, a);
    if !InMemory(m, addr) then
      Failure(RuntimeError("invalid memory address", ctx))
    else
      var b :- Arg(args, 1);
      if b.vtype != Var then
        Failure(RuntimeError(NotVar, b.token.ctx))
      else
        Success(m.(variables := m.variables[b.text := m.memory[addr]]))
  }

  /** The line `debug` prints for one operand. */
  function DebugEvent(vars: map<string, int>, v: Value): Event {
    if v.vtype == Str then DebugString(v.text) else DebugValue(v.text, v.vtype, Operand(vars, v))
  }

  /** `call debug ...`: prints every operand, strings included. */
  function DebugBuiltin(m: Machine, args: seq<Value>): (r: Result<Machine, Error>)
    ensures r.Success? && r.value == m.(world := m.world.(output := r.value.world.output))
    ensures |r.value.world.output| == |m.world.output| + |args|
    ensures r.value.world.output[..|m.world.output|] == m.world.output
    ensures forall k :: 0 <= k < |args| ==> r.value.world.output[|m.world.output| + k] == DebugEvent(m.variables, args[k])
  {
    var events := seq(|args|, k requires 0 <= k < |args| => DebugEvent(m.variables, args[k]));
    Success(m.(world := m.world.(output := m.world.output + events)))
  }

  /** `memory` with the cells from `at` on replaced by `data`. */
  function Overwrite(memory: seq<int>, at: nat, data: seq<int>): (r: seq<int>)
    requires at + |data| <= |memory|
    ensures |r| == |memory|
    ensures forall i :: 0 <= i < |data| ==> r[at + i] == data[i]
    ensures forall i :: 0 <= i < |memory| && !(at <= i < at + |data|) ==> r[i] == memory[i]
  {
    memory[..at] + data + memory[at + |data|..]
  }

  /** The slice check `read_file` makes before copying a file of n bytes to
      `address`, as written: an end offset equal to the memory size is
      rejected. */
  predicate FitsAsWritten(address: int, n: int, size: int) {
    !(address + n >= size)
  }

  /** The slice check `read_file` evidently intends: the copy's last cell is
      inside memory. */
  predicate Fits(address: int, n: int, size: int) {
    0 <= n && address + n <= size
  }

  /** `call read_file "name" addr len`: copies the file's bytes into memory
      from the address on and stores their count in the variable; `exact`
      chooses the evidently intended slice check over the one written. */
  function ReadFileWith(m: Machine, ctx: Context, args: seq<Value>, exact: bool): (r: Result<Machine, Error>)
    ensures Keeps(m, r)
  {
    if |args| == 0 then
      Failure(PanicError("runtime error: slice bounds out of range [1:0]", Nowhere))
    else
      var _ :- DenyStringType(args[1..]);
      var file := args[0];
      var addr :- Arg(args, 1);
      var length :- Arg(args, 2);
      if file.vtype != Str then
        Failure(RuntimeError("expected string literal", file.token.ctx))
      else if length.vtype != Var then
        Failure(RuntimeError("expected identifier", length.token.ctx))
      else
        var address :- Resolve(m.variables, addr);
        if !InMemory(m, address) then
          Failure(RuntimeError("invalid memory address", ctx))
        else if file.text !in m.world.files then
          Failure(RuntimeError("open " + file.text + ": no such file or directory", file.token.ctx))
        else
          var data := m.world.files[file.text];
          var size := |m.memory|;
          if exact && !Fits(address, |data|, size) then
            Failure(RuntimeError("file too large", ctx))
          else if !exact && !FitsAsWritten(address, |data|, size) then
            Failure(RuntimeError("file too large", ctx))
          else
            Success(m.(memory := Overwrite(m.memory, address, data),
                       variables := m.variables[length.text := |data|]))
  }

  /** `read_file` as written. */
  function ReadFileAsWritten(m: Machine, ctx: Context, args: seq<Value>): (r: Result<Machine, Error>)
    ensures r.Success? ==> r.value.world == m.world && |r.value.memory| == |m.memory|
  {
    ReadFileWith(m, ctx, args, false)
  }

  /** `read_file` with the intended check: a file that ends exactly at the
      end of memory is accepted. */
  function ReadFile(m: Machine, ctx: Context, args: seq<Value>): (r: Result<Machine, Error>)
    ensures r.Success? ==> r.value.world == m.world && |r.value.memory| == |m.memory|
  {
    ReadFileWith(m, ctx, args, true)
  }

  /** The bytes of `n` cells from `address` on, each truncated to its low byte. */
  function Bytes(memory: seq<int>, address: nat, n: nat): (data: seq<int>)
    requires address + n <= |memory|
    ensures |data| == n
    ensures forall i :: 0 <= i < n ==> 0 <= data[i] < 256
  {
    var data := seq(n, i requires 0 <= i < n => LowByte(memory[address + i]));
    assert forall i :: 0 <= i < n ==> data[i] == LowByte(memory[address + i]);
    data
  }

  /** `call write_file "name" addr len`: writes the low bytes of `len` cells
      from the address on to the file. As written, the end offset wraps
      around, an end equal to the memory size is rejected, and a negative
      length (or one whose end wrapped) passes the check and panics when the
      buffer is made; `exact` chooses the evidently intended check instead. */
  function WriteFileWith(m: Machine, ctx: Context, args: seq<Value>, exact: bool): (r: Result<Machine, Error>)
    ensures Keeps(m, r)
  {
    if |args| == 0 then
      Failure(PanicError("runtime error: slice bounds out of range [1:0]", Nowhere))
    else
      var _ :- DenyStringType(args[1..]);
      var file := args[0];
      var addr :- Arg(args, 1);
      var length :- Arg(args, 2);
      if file.vtype != Str then
        Failure(RuntimeError("expected string literal", file.token.ctx))
      else
        var address :- Resolve(m.variables, addr);
        if !InMemory(m, address) then
          Failure(RuntimeError("invalid memory address", ctx))
        else
          var n :- Resolve(m.variables, length);
          var size := |m.memory|;
          if exact then
            if !Fits(address, n, size) then
              Failure(RuntimeError("memory out of bounds (" + FormatInt(address + n) + ")", ctx))
            else
              Success(m.(world := m.world.(files := m.world.files[file.text := Bytes(m.memory, address, n)])))
          else
            var end := Wrap(address + n);
            if end >= size then
              Failure(RuntimeError("memory out of bounds (" + FormatInt(end) + ")", ctx))
            else if !Fits(address, n, size) then
              Failure(PanicError("runtime error: makeslice: len out of range", Nowhere))
            else
              Success(m.(world := m.world.(files := m.world.files[file.text := Bytes(m.memory, address, n)])))
  }

  /** `write_file` as written. */
  function WriteFileAsWritten(m: Machine, ctx: Context, args: seq<Value>): (r: Result<Machine, Error>)
    ensures r.Success? ==> r.value == m.(world := m.world.(files := r.value.world.files))
  {
    WriteFileWith(m, ctx, args, false)
  }

  /** `write_file` with the intended check: a negative length is rejected
      like an overlong one, and a range ending exactly at the end of memory
      is accepted. */
  function WriteFile(m: Machine, ctx: Context, args: seq<Value>): (r: Result<Machine, Error>)
    ensures r.Success? ==> r.value == m.(world := m.world.(files := r.value.world.files))
  {
    WriteFileWith(m, ctx, args, true)
  }

  /** Runs a builtin's handler. `read_file` and `write_file` use the
      intended slice checks. */
  function Invoke(b: Builtin, m: Machine, ctx: Context, args: seq<Value>): (r: Result<Machine, Error>)
    ensures Keeps(m, r)
  {
    match b
    case ShowC => ShowCharBuiltin(m, args)
    case ShowN => ShowNumBuiltin(m, args)
    case Input => InputBuiltin(m, args)
    case MemSet => MemSetBuiltin(m, ctx, args)
    case MemGet => MemGetBuiltin(m, ctx, args)
    case Debug => DebugBuiltin(m, args)
    case NoInputBuffering => Success(m)
    case ReadFile => ReadFile(m, ctx, args)
    case WriteFile => WriteFile(m, ctx, args)
  }
}
