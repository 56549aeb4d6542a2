/** The parser: fixed-shape token windows matched against patterns tried in
    a fixed order, plus the variable-length `call` form. */
module Parser {
  import opened Results
  import opened Tokens
  import opened Ast

  /** A token pattern: the token kinds allowed at each position. */
  type Pattern = seq<set<TokenKind>>

  const OperandKinds: set<TokenKind> := {LiteralInt, Identifier}
  const ArithmeticKinds: set<TokenKind> := {OpAdd, OpSub, OpMul, OpDiv, OpMod, OpPow}
  const ComparisonKinds: set<TokenKind> := {OpLt, OpGt, OpLte, OpGte, OpEq, OpNeq}

  const VarDeclValuePattern: Pattern := [{Identifier}, {OpAssign}, OperandKinds, {EndStmt}]
  const VarDeclExprPattern: Pattern :=
    [{Identifier}, {OpAssign}, OperandKinds, ArithmeticKinds, OperandKinds, {EndStmt}]
  const IfPattern: Pattern :=
    [{KeywordIf}, OperandKinds, ComparisonKinds, OperandKinds, {KeywordGoto}, {Identifier}, {EndStmt}]
  const LabelPattern: Pattern := [{TokenKind.Label}, {EndStmt}]
  const ShowNumPattern: Pattern := [{KeywordShownum}, OperandKinds, {EndStmt}]
  const ShowCharPattern: Pattern := [{KeywordShowchar}, OperandKinds, {EndStmt}]
  const InputPattern: Pattern := [{KeywordInput}, {Identifier}, {EndStmt}]
  const GotoPattern: Pattern := [{KeywordGoto}, {Identifier}, {EndStmt}]

  /** The window's tokens from position i on have kinds the pattern allows;
      the first position that does not stops the match. */
  function MatchFrom(pattern: Pattern, toks: seq<Token>, i: nat): (b: bool)
    requires |pattern| <= |toks| && i <= |pattern|
    ensures b <==> forall k :: i <= k < |pattern| ==> toks[k].kind in pattern[k]
    decreases |pattern| - i
  {
    if i == |pattern| then true
    else if toks[i].kind !in pattern[i] then false
    else MatchFrom(pattern, toks, i + 1)
  }

  /** A window matches a pattern when it is at least as long and each of its
      first tokens has a kind allowed at its position. */
  function MatchTokenPattern(pattern: Pattern, toks: seq<Token>): (b: bool)
    ensures b <==> |pattern| <= |toks| && forall k :: 0 <= k < |pattern| ==> toks[k].kind in pattern[k]
  {
    if |toks| < |pattern| then false else MatchFrom(pattern, toks, 0)
  }

  /** The end of the run of operand tokens starting at i. */
  function OperandRun(toks: seq<Token>, i: nat): (j: nat)
    requires i <= |toks|
    ensures i <= j <= |toks|
    ensures forall k :: i <= k < j ==> toks[k].kind in OperandKinds
    ensures j == |toks| || toks[j].kind !in OperandKinds
    decreases |toks| - i
  {
    if i < |toks| && toks[i].kind in OperandKinds then OperandRun(toks, i + 1) else i
  }

  /** The shape of a `call` statement: the keyword, a name, operands, and an
      end of statement. */
  predicate CallShape(toks: seq<Token>) {
    2 <= |toks| && toks[0].kind == KeywordCall && toks[1].kind == Identifier
    && (exists j ::
          2 <= j < |toks| && toks[j].kind == EndStmt && forall k :: 2 <= k < j ==> toks[k].kind in OperandKinds)
  }

  /** An operand run ends exactly where an end of statement follows operands. */
  lemma {:induction false} OperandRunEnds(toks: seq<Token>, i: nat, j: nat)
    requires i <= j < |toks| && toks[j].kind == EndStmt
    requires forall k :: i <= k < j ==> toks[k].kind in OperandKinds
    ensures OperandRun(toks, i) == j
    decreases j - i
  {
    if i < j {
      OperandRunEnds(toks, i + 1, j);
    }
  }

  /** The `call` recogniser, with the length check the window needs before its
      second token is read. */
  function MatchCall(toks: seq<Token>): (b: bool)
    ensures b <==> CallShape(toks)
    ensures b ==> OperandRun(toks, 2) < |toks| && toks[OperandRun(toks, 2)].kind == EndStmt
  {
    if |toks| < 2 || toks[0].kind != KeywordCall || toks[1].kind != Identifier then
      false
    else
      var j := OperandRun(toks, 2);
      assert CallShape(toks) ==> j < |toks| && toks[j].kind == EndStmt by {
        if CallShape(toks) {
          var w :| 2 <= w < |toks| && toks[w].kind == EndStmt
            && forall k :: 2 <= k < w ==> toks[k].kind in OperandKinds;
          OperandRunEnds(toks, 2, w);
        }
      }
      j < |toks| && toks[j].kind == EndStmt
  }

  /** The `call` recogniser as written: it reads the second token unchecked,
      so a window holding only the `call` keyword is an index-out-of-range
      panic, here `None`. Every other window gets the guarded answer. */
  function MatchCallAsWritten(toks: seq<Token>): (r: Option<bool>)
    requires 0 < |toks|
    ensures r.None? <==> |toks| == 1 && toks[0].kind == KeywordCall
    ensures r.Some? ==> r.value == MatchCall(toks)
  {
    if toks[0].kind != KeywordCall then Some(false)
    else if |toks| < 2 then None
    else if toks[1].kind != Identifier then Some(false)
    else
      var j := OperandRun(toks, 2);
      Some(j < |toks| && toks[j].kind == EndStmt)
  }

  /** A program whose last token is `call` makes the unguarded recogniser
      read past the end of the tokens. */
  lemma LoneCallPanics(t: Token)
    requires t.kind == KeywordCall
    ensures MatchCallAsWritten([t]).None?
    ensures !MatchCall([t])
  {
  }

  function ParseVarDeclValue(toks: seq<Token>): (s: Stmt)
    requires 3 <= |toks|
  {
    VarDeclValue(toks[0].data, ValueOf(toks[2]))
  }

  function ParseVarDeclExpr(toks: seq<Token>): (s: Stmt)
    requires 5 <= |toks|
  {
    VarDeclExpr(toks[0].data, OpExpr(toks[3].data, ValueOf(toks[2]), ValueOf(toks[4])))
  }

  function ParseIf(toks: seq<Token>): (s: Stmt)
    requires 6 <= |toks|
  {
    If(OpExpr(toks[2].data, ValueOf(toks[1]), ValueOf(toks[3])), Jump(toks[5].data, toks[5]))
  }

  function ParseLabel(toks: seq<Token>): (s: Stmt)
    requires 1 <= |toks|
  {
    Stmt.Label(toks[0].data)
  }

  function ParseShowNum(toks: seq<Token>): (s: Stmt)
    requires 2 <= |toks|
  {
    ShowNum(ValueOf(toks[1]))
  }

  function ParseShowChar(toks: seq<Token>): (s: Stmt)
    requires 2 <= |toks|
  {
    ShowChar(ValueOf(toks[1]))
  }

  function ParseInput(toks: seq<Token>): (s: Stmt)
    requires 2 <= |toks|
  {
    Input(toks[1].data)
  }

  function ParseGoto(toks: seq<Token>): (s: Stmt)
    requires 2 <= |toks|
  {
    Goto(Jump(toks[1].data, toks[1]))
  }

  /** Some token from i on ends a statement. */
  predicate EndAhead(toks: seq<Token>, i: nat) {
    exists j :: i <= j < |toks| && toks[j].kind == EndStmt
  }

  /** The operands of a call from position i up to the next end of
      statement, one per token, in order. */
  function CollectValues(toks: seq<Token>, i: nat): (vs: seq<Value>)
    requires i <= |toks| && EndAhead(toks, i)
    ensures i + |vs| < |toks| && toks[i + |vs|].kind == EndStmt
    ensures forall k :: i <= k < i + |vs| ==> toks[k].kind != EndStmt && vs[k - i] == ValueOf(toks[k])
    decreases |toks| - i
  {
    if toks[i].kind == EndStmt then []
    else
      var rest := CollectValues(toks, i + 1);
      var vs := [ValueOf(toks[i])] + rest;
      assert forall k {:trigger toks[k]} :: i < k < i + |vs| ==> vs[k - i] == rest[k - (i + 1)];
      vs
  }

  /** A call statement: the name token and the operands up to the end of the
      statement. */
  function ParseCall(toks: seq<Token>): (s: Stmt)
    requires 2 <= |toks| && EndAhead(toks, 2)
  {
    Call(toks[1].data, CollectValues(toks, 2), toks[1])
  }

  /** Collecting operands up to the end of statement takes exactly the
      operand run when an end of statement closes it. */
  lemma {:induction false} CollectOperandRun(toks: seq<Token>, i: nat)
    requires i <= |toks| && OperandRun(toks, i) < |toks| && toks[OperandRun(toks, i)].kind == EndStmt
    ensures EndAhead(toks, i) && i + |CollectValues(toks, i)| == OperandRun(toks, i)
    decreases |toks| - i
  {
    assert toks[OperandRun(toks, i)].kind == EndStmt;
    if toks[i].kind in OperandKinds {
      CollectOperandRun(toks, i + 1);
    }
  }

  /** The operands of a matched call are exactly its operand run, which the
      end of statement follows. */
  lemma CallOperands(toks: seq<Token>)
    requires MatchCall(toks)
    ensures var vs := ParseCall(toks).values;
      2 + |vs| == OperandRun(toks, 2) && toks[2 + |vs|].kind == EndStmt
      && forall k :: 2 <= k < 2 + |vs| ==> toks[k].kind in OperandKinds && vs[k - 2] == ValueOf(toks[k])
  {
    CollectOperandRun(toks, 2);
  }

  /** What the parser does at one position: build a statement from a window
      of `width` tokens, skip an end of statement, or give up. */
  datatype Outcome = Parsed(stmt: Stmt, width: nat) | Skip | Invalid

  /** The patterns in the order they are tried; the first match wins. */
  function ParseAt(rest: seq<Token>): (o: Outcome)
    requires 0 < |rest|
    ensures o.Parsed? ==> 0 < o.width <= |rest|
  {
    if MatchTokenPattern(VarDeclValuePattern, rest) then
      Parsed(ParseVarDeclValue(rest), 4)
    else if MatchTokenPattern(VarDeclExprPattern, rest) then
      Parsed(ParseVarDeclExpr(rest), 6)
    else if MatchTokenPattern(IfPattern, rest) then
      Parsed(ParseIf(rest), 7)
    else if MatchTokenPattern(LabelPattern, rest) then
      Parsed(ParseLabel(rest), 2)
    else if MatchTokenPattern(ShowNumPattern, rest) then
      Parsed(ParseShowNum(rest), 3)
    else if MatchTokenPattern(ShowCharPattern, rest) then
      Parsed(ParseShowChar(rest), 3)
    else if MatchTokenPattern(InputPattern, rest) then
      Parsed(ParseInput(rest), 3)
    else if MatchTokenPattern(GotoPattern, rest) then
      Parsed(ParseGoto(rest), 3)
    else if MatchCall(rest) then
      var s := ParseCall(rest);
      CallOperands(rest);
      Parsed(s, 2 + |s.values|)
    else if rest[0].kind == EndStmt then
      Skip
    else
      Invalid
  }

  /** A parsing step at every position of an n-token list is defined and
      moves forward within the list. */
  ghost predicate Advances(step: nat --> Outcome, n: nat) {
    forall i: nat :: i < n ==> step.requires(i) && (step(i).Parsed? ==> 0 < step(i).width <= n - i)
  }

  /** The parsing loop from position `index` over any step function:
      statements in order, blank lines skipped, and the first position that
      starts no statement is an error. */
  function Loop(step: nat --> Outcome, toks: seq<Token>, index: nat): (r: Result<seq<Stmt>, Error>)
    requires Advances(step, |toks|) && index <= |toks|
    decreases |toks| - index
  {
    if index == |toks| then
      Success([])
    else
      match step(index)
      case Parsed(s, w) =>
        var rest :- Loop(step, toks, index + w);
        Success([s] + rest)
      case Skip =>
        Loop(step, toks, index + 1)
      case Invalid =>
        Failure(Error(Parsing, "Invalid statement", "", toks[index].ctx))
  }

  /** `ParseAt` at each position of a token list, as a step of the loop. */
  function Stepper(toks: seq<Token>): nat --> Outcome {
    (i: nat) requires i < |toks| => ParseAt(toks[i..])
  }

  /** Every parsing step moves the cursor forward and stays within the
      tokens, so the loop terminates. */
  lemma StepperAdvances(toks: seq<Token>)
    ensures Advances(Stepper(toks), |toks|)
  {
  }

  /** The parsing loop from position `index`, stepping with `ParseAt`. */
  function ParseFrom(toks: seq<Token>, index: nat): (r: Result<seq<Stmt>, Error>)
    requires index <= |toks|
  {
    StepperAdvances(toks);
    Loop(Stepper(toks), toks, index)
  }

  /** Parses a whole token list into a program. */
  function Parse(toks: seq<Token>): (r: Result<Program, Error>)
  {
    var stmts :- ParseFrom(toks, 0);
    Success(Program(stmts))
  }
}
