/** The abstract syntax the parser builds: operand values, expressions and
    the statement forms of a program. */
module Ast {
  import opened Tokens

  /** The kind of an operand. `Untyped` is Go's empty `ValueType`, given to
      any token that is neither an integer literal nor an identifier. `Str`
      is the kind the executor's string checks look for; no parsed operand
      has it. */
  datatype ValueType = Int | Var | Str | Untyped

  /** The operand kind a token gives: integer literals are `int`, identifiers
      are `var`, everything else is untyped. */
  function ValueTypeFromToken(k: TokenKind): (t: ValueType)
    ensures t == Int <==> k == LiteralInt
    ensures t == Var <==> k == Identifier
    ensures t != Str
  {
    match k
    case LiteralInt => Int
    case Identifier => Var
    case _ => Untyped
  }

  /** An operand: its kind, its text (the literal's decimal digits or the
      variable's name) and the token it came from. */
  datatype Value = Value(vtype: ValueType, text: string, token: Token)

  /** The operand a token stands for. */
  function ValueOf(t: Token): (v: Value)
    ensures v.vtype == ValueTypeFromToken(t.kind) && v.text == t.data && v.token == t
  {
    Value(ValueTypeFromToken(t.kind), t.data, t)
  }

  /** A binary operation: the operator's text and its two operands. */
  datatype OpExpr = OpExpr(op: string, lhs: Value, rhs: Value)

  /** A jump to a label by name, with the token naming it. */
  datatype Jump = Jump(name: string, token: Token)

  /** The statement forms. `ShowNum`, `ShowChar` and `Input` are built by the
      parser but have no case in the executor. */
  datatype Stmt =
    | VarDeclValue(name: string, value: Value)
    | VarDeclExpr(name: string, expr: OpExpr)
    | If(cond: OpExpr, jump: Jump)
    | Label(name: string)
    | Goto(jump: Jump)
    | Call(name: string, values: seq<Value>, token: Token)
    | ShowNum(value: Value)
    | ShowChar(value: Value)
    | Input(name: string)

  /** The tags the executor dispatches on. */
  datatype StmtType =
    | VarDeclValueType | VarDeclExprType | IfType | LabelType | GotoType | CallType
    | ShowNumType | ShowCharType | InputType

  /** Each statement's `Type()`. */
  function TypeOf(s: Stmt): StmtType {
    match s
    case VarDeclValue(_, _) => VarDeclValueType
    case VarDeclExpr(_, _) => VarDeclExprType
    case If(_, _) => IfType
    case Label(_) => LabelType
    case Goto(_) => GotoType
    case Call(_, _, _) => CallType
    case ShowNum(_) => ShowNumType
    case ShowChar(_) => ShowCharType
    case Input(_) => InputType
  }

  /** The string constant of each tag. The last three have no constant in
      the program definitions; they are named after their keywords. */
  function TypeName(t: StmtType): string {
    match t
    case VarDeclValueType => "var_decl_value"
    case VarDeclExprType => "var_decl_expr"
    case IfType => "if"
    case LabelType => "label"
    case GotoType => "goto"
    case CallType => "call"
    case ShowNumType => "shownum"
    case ShowCharType => "showchar"
    case InputType => "input"
  }

  /** Dispatch on `Type()` is unambiguous: the tag constants are pairwise
      distinct, and a statement's tag names its own form. */
  lemma TypeDispatch(s: Stmt, t: StmtType, u: StmtType)
    ensures TypeName(t) == TypeName(u) ==> t == u
    ensures TypeOf(s) == VarDeclValueType <==> s.VarDeclValue?
    ensures TypeOf(s) == VarDeclExprType <==> s.VarDeclExpr?
    ensures TypeOf(s) == IfType <==> s.If?
    ensures TypeOf(s) == LabelType <==> s.Label?
    ensures TypeOf(s) == GotoType <==> s.Goto?
    ensures TypeOf(s) == CallType <==> s.Call?
    ensures TypeOf(s) == ShowNumType <==> s.ShowNum?
    ensures TypeOf(s) == ShowCharType <==> s.ShowChar?
    ensures TypeOf(s) == InputType <==> s.Input?
  {
  }

  /** The operands a statement holds. */
  function Operands(s: Stmt): seq<Value> {
    match s
    case VarDeclValue(_, v) => [v]
    case VarDeclExpr(_, e) => [e.lhs, e.rhs]
    case If(c, _) => [c.lhs, c.rhs]
    case Call(_, vs, _) => vs
    case ShowNum(v) => [v]
    case ShowChar(v) => [v]
    case _ => []
  }

  /** Every operand is an integer literal or a variable. */
  predicate OperandsTyped(s: Stmt) {
    forall k :: 0 <= k < |Operands(s)| ==> Operands(s)[k].vtype in {Int, Var}
  }

  /** A program: its statements, in source order; a statement's index is its
      position here. */
  datatype Program = Program(stmts: seq<Stmt>)
}
