/** What the parser's pattern table and loop guarantee. */
module ParserProperties {
  import opened Results
  import opened Tokens
  import opened Ast
  import opened Parser

  /** Whether recogniser i accepts the window, the recognisers numbered in
      the order they are tried. */
  predicate Recognised(rest: seq<Token>, i: nat) {
    match i
    case 0 => MatchTokenPattern(VarDeclValuePattern, rest)
    case 1 => MatchTokenPattern(VarDeclExprPattern, rest)
    case 2 => MatchTokenPattern(IfPattern, rest)
    case 3 => MatchTokenPattern(LabelPattern, rest)
    case 4 => MatchTokenPattern(ShowNumPattern, rest)
    case 5 => MatchTokenPattern(ShowCharPattern, rest)
    case 6 => MatchTokenPattern(InputPattern, rest)
    case 7 => MatchTokenPattern(GotoPattern, rest)
    case 8 => MatchCall(rest)
    case _ => false
  }

  /** The first token kind each recogniser insists on. */
  const Leads: seq<TokenKind> :=
    [Identifier, Identifier, KeywordIf, TokenKind.Label, KeywordShownum, KeywordShowchar, KeywordInput, KeywordGoto, KeywordCall]

  lemma PatternAt(pattern: Pattern, rest: seq<Token>, k: nat)
    requires MatchTokenPattern(pattern, rest) && k < |pattern|
    ensures k < |rest| && rest[k].kind in pattern[k]
  {
  }

  lemma RecognisedLead(rest: seq<Token>, i: nat)
    requires i < 9 && Recognised(rest, i)
    ensures 0 < |rest| && rest[0].kind == Leads[i]
    ensures i == 0 ==> rest[3].kind == EndStmt
    ensures i == 1 ==> rest[3].kind != EndStmt
  {
    match i
    case 0 => PatternAt(VarDeclValuePattern, rest, 0); PatternAt(VarDeclValuePattern, rest, 3);
    case 1 => PatternAt(VarDeclExprPattern, rest, 0); PatternAt(VarDeclExprPattern, rest, 3);
    case 2 => PatternAt(IfPattern, rest, 0);
    case 3 => PatternAt(LabelPattern, rest, 0);
    case 4 => PatternAt(ShowNumPattern, rest, 0);
    case 5 => PatternAt(ShowCharPattern, rest, 0);
    case 6 => PatternAt(InputPattern, rest, 0);
    case 7 => PatternAt(GotoPattern, rest, 0);
    case 8 =>
  }

  lemma PatternsExclusive(rest: seq<Token>)
    ensures forall i, j :: 0 <= i < j < 9 ==> !(Recognised(rest, i) && Recognised(rest, j))
  {
    forall i, j | 0 <= i < j < 9 && Recognised(rest, i)
      ensures !Recognised(rest, j)
    {
      RecognisedLead(rest, i);
      if Recognised(rest, j) {
        RecognisedLead(rest, j);
      }
    }
  }

  /** The operands of the window's tokens from 2 up to e, one per token. */
  function OperandsFrom(rest: seq<Token>, e: nat): (vs: seq<Value>)
    requires 2 <= e <= |rest|
  {
    seq(e - 2, k requires 0 <= k < e - 2 => ValueOf(rest[k + 2]))
  }

  /** The outcome recogniser i stands for, written by token role: the
      target or label name, the operands and the operator are read from the
      positions the pattern fixes. It is the builders' result unfolded, so
      that the lemmas about it can speak of each role without going through
      `ParseAt`. */
  function Built(rest: seq<Token>, i: nat): (o: Outcome)
    requires i < 9 && Recognised(rest, i)
  {
    RecognisedLead(rest, i);
    match i
    case 0 => PatternAt(VarDeclValuePattern, rest, 3); Parsed(VarDeclValue(rest[0].data, ValueOf(rest[2])), 4)
    case 1 =>
      PatternAt(VarDeclExprPattern, rest, 5);
      Parsed(VarDeclExpr(rest[0].data, OpExpr(rest[3].data, ValueOf(rest[2]), ValueOf(rest[4]))), 6)
    case 2 =>
      PatternAt(IfPattern, rest, 6);
      Parsed(If(OpExpr(rest[2].data, ValueOf(rest[1]), ValueOf(rest[3])), Jump(rest[5].data, rest[5])), 7)
    case 3 => PatternAt(LabelPattern, rest, 1); Parsed(Stmt.Label(rest[0].data), 2)
    case 4 => PatternAt(ShowNumPattern, rest, 2); Parsed(ShowNum(ValueOf(rest[1])), 3)
    case 5 => PatternAt(ShowCharPattern, rest, 2); Parsed(ShowChar(ValueOf(rest[1])), 3)
    case 6 => PatternAt(InputPattern, rest, 2); Parsed(Input(rest[1].data), 3)
    case 7 => PatternAt(GotoPattern, rest, 2); Parsed(Goto(Jump(rest[1].data, rest[1])), 3)
    case 8 =>
      var e := OperandRun(rest, 2);
      Parsed(Call(rest[1].data, OperandsFrom(rest, e), rest[1]), e)
  }

  /** Two patterns that allow no common kind at some position never both
      accept a window. */
  lemma PatternsDiffer(p: Pattern, q: Pattern, rest: seq<Token>, k: nat)
    requires MatchTokenPattern(p, rest) && k < |p| && k < |q| && p[k] !! q[k]
    ensures !MatchTokenPattern(q, rest)
  {
    PatternAt(p, rest, k);
  }

  /** A pattern that does not start with `call` never accepts a window the
      `call` recogniser accepts. */
  lemma CallDiffers(p: Pattern, rest: seq<Token>)
    requires MatchCall(rest) && 0 < |p| && KeywordCall !in p[0]
    ensures !MatchTokenPattern(p, rest)
  {
  }

  /* The ParseAt lemmas below each take a window one pattern accepts.
     Their content is that every recogniser tried before that pattern
     rejects the window, so `ParseAt` uses that pattern's builder and width;
     the builder itself is the one `ParseAt` calls. */

  lemma ParseAtVarDeclValue(rest: seq<Token>)
    requires MatchTokenPattern(VarDeclValuePattern, rest)
    ensures 0 < |rest| && ParseAt(rest) == Parsed(ParseVarDeclValue(rest), 4)
  {
  }

  lemma ParseAtVarDeclExpr(rest: seq<Token>)
    requires MatchTokenPattern(VarDeclExprPattern, rest)
    ensures 0 < |rest| && ParseAt(rest) == Parsed(ParseVarDeclExpr(rest), 6)
  {
    PatternsDiffer(VarDeclExprPattern, VarDeclValuePattern, rest, 3);
  }

  lemma ParseAtIf(rest: seq<Token>)
    requires MatchTokenPattern(IfPattern, rest)
    ensures 0 < |rest| && ParseAt(rest) == Parsed(ParseIf(rest), 7)
  {
    PatternsDiffer(IfPattern, VarDeclValuePattern, rest, 0);
    PatternsDiffer(IfPattern, VarDeclExprPattern, rest, 0);
  }

  lemma ParseAtLabel(rest: seq<Token>)
    requires MatchTokenPattern(LabelPattern, rest)
    ensures 0 < |rest| && ParseAt(rest) == Parsed(ParseLabel(rest), 2)
  {
    PatternsDiffer(LabelPattern, VarDeclValuePattern, rest, 0);
    PatternsDiffer(LabelPattern, VarDeclExprPattern, rest, 0);
    PatternsDiffer(LabelPattern, IfPattern, rest, 0);
  }

  lemma ParseAtShowNum(rest: seq<Token>)
    requires MatchTokenPattern(ShowNumPattern, rest)
    ensures 0 < |rest| && ParseAt(rest) == Parsed(ParseShowNum(rest), 3)
  {
    PatternsDiffer(ShowNumPattern, VarDeclValuePattern, rest, 0);
    PatternsDiffer(ShowNumPattern, VarDeclExprPattern, rest, 0);
    PatternsDiffer(ShowNumPattern, IfPattern, rest, 0);
    PatternsDiffer(ShowNumPattern, LabelPattern, rest, 0);
  }

  lemma ParseAtShowChar(rest: seq<Token>)
    requires MatchTokenPattern(ShowCharPattern, rest)
    ensures 0 < |rest| && ParseAt(rest) == Parsed(ParseShowChar(rest), 3)
  {
    PatternsDiffer(ShowCharPattern, VarDeclValuePattern, rest, 0);
    PatternsDiffer(ShowCharPattern, VarDeclExprPattern, rest, 0);
    PatternsDiffer(ShowCharPattern, IfPattern, rest, 0);
    PatternsDiffer(ShowCharPattern, LabelPattern, rest, 0);
    PatternsDiffer(ShowCharPattern, ShowNumPattern, rest, 0);
  }

  lemma ParseAtInput(rest: seq<Token>)
    requires MatchTokenPattern(InputPattern, rest)
    ensures 0 < |rest| && ParseAt(rest) == Parsed(ParseInput(rest), 3)
  {
    PatternsDiffer(InputPattern, VarDeclValuePattern, rest, 0);
    PatternsDiffer(InputPattern, VarDeclExprPattern, rest, 0);
    PatternsDiffer(InputPattern, IfPattern, rest, 0);
    PatternsDiffer(InputPattern, LabelPattern, rest, 0);
    PatternsDiffer(InputPattern, ShowNumPattern, rest, 0);
    PatternsDiffer(InputPattern, ShowCharPattern, rest, 0);
  }

  lemma ParseAtGoto(rest: seq<Token>)
    requires MatchTokenPattern(GotoPattern, rest)
    ensures 0 < |rest| && ParseAt(rest) == Parsed(ParseGoto(rest), 3)
  {
    PatternsDiffer(GotoPattern, VarDeclValuePattern, rest, 0);
    PatternsDiffer(GotoPattern, VarDeclExprPattern, rest, 0);
    PatternsDiffer(GotoPattern, IfPattern, rest, 0);
    PatternsDiffer(GotoPattern, LabelPattern, rest, 0);
    PatternsDiffer(GotoPattern, ShowNumPattern, rest, 0);
    PatternsDiffer(GotoPattern, ShowCharPattern, rest, 0);
    PatternsDiffer(GotoPattern, InputPattern, rest, 0);
  }

  lemma CallValues(rest: seq<Token>)
    requires MatchCall(rest)
    ensures ParseCall(rest).values == OperandsFrom(rest, OperandRun(rest, 2))
  {
    CallOperands(rest);
  }

  lemma ParseAtCall(rest: seq<Token>)
    requires MatchCall(rest)
    ensures 0 < |rest| && ParseAt(rest) == Parsed(ParseCall(rest), OperandRun(rest, 2))
  {
    CallDiffers(VarDeclValuePattern, rest);
    CallDiffers(VarDeclExprPattern, rest);
    CallDiffers(IfPattern, rest);
    CallDiffers(LabelPattern, rest);
    CallDiffers(ShowNumPattern, rest);
    CallDiffers(ShowCharPattern, rest);
    CallDiffers(InputPattern, rest);
    CallDiffers(GotoPattern, rest);
    CallOperands(rest);
  }

  /** Whatever the order the recognisers are tried in, the window gets the
      statement of the one recogniser that accepts it. */
  lemma ParseAtRecognised(rest: seq<Token>, i: nat)
    requires i < 9 && Recognised(rest, i)
    ensures 0 < |rest| && ParseAt(rest) == Built(rest, i)
  {
    match i
    case 0 => ParseAtVarDeclValue(rest);
    case 1 => ParseAtVarDeclExpr(rest);
    case 2 => ParseAtIf(rest);
    case 3 => ParseAtLabel(rest);
    case 4 => ParseAtShowNum(rest);
    case 5 => ParseAtShowChar(rest);
    case 6 => ParseAtInput(rest);
    case 7 => ParseAtGoto(rest);
    case 8 => ParseAtCall(rest); CallValues(rest);
  }

  /** A window is parsed exactly when some recogniser accepts it; otherwise
      an end of statement is skipped and anything else is invalid. */
  lemma ParseAtOutcome(rest: seq<Token>)
    requires 0 < |rest|
    ensures ParseAt(rest).Parsed? <==> exists i :: 0 <= i < 9 && Recognised(rest, i)
    ensures ParseAt(rest).Skip? <==> rest[0].kind == EndStmt
    ensures ParseAt(rest).Invalid? <==>
      rest[0].kind != EndStmt && forall i :: 0 <= i < 9 ==> !Recognised(rest, i)
  {
    if exists i :: 0 <= i < 9 && Recognised(rest, i) {
      var i :| 0 <= i < 9 && Recognised(rest, i);
      ParseAtRecognised(rest, i);
      RecognisedLead(rest, i);
      PatternsExclusive(rest);
    } else {
      assert !Recognised(rest, 0) && !Recognised(rest, 1) && !Recognised(rest, 2);
      assert !Recognised(rest, 3) && !Recognised(rest, 4) && !Recognised(rest, 5);
      assert !Recognised(rest, 6) && !Recognised(rest, 7) && !Recognised(rest, 8);
    }
  }

  /** The window's first end of statement is at offset e. */
  predicate EndsLine(rest: seq<Token>, e: nat) {
    e < |rest| && rest[e].kind == EndStmt && forall k :: 0 <= k < e ==> rest[k].kind != EndStmt
  }

  /** A pattern whose only end of statement is its last position matches a
      window whose first end of statement is there. */
  lemma PatternLine(p: Pattern, rest: seq<Token>)
    requires MatchTokenPattern(p, rest) && 0 < |p| && p[|p| - 1] == {EndStmt}
    requires forall k :: 0 <= k < |p| - 1 ==> EndStmt !in p[k]
    ensures EndsLine(rest, |p| - 1)
  {
  }

  /** An operand position of a pattern gives an integer or variable operand. */
  lemma PatternOperand(p: Pattern, rest: seq<Token>, k: nat)
    requires MatchTokenPattern(p, rest) && k < |p| && p[k] <= OperandKinds
    ensures ValueOf(rest[k]).vtype in {Int, Var}
  {
    PatternAt(p, rest, k);
  }

  /** What a parsed statement looks like: operands that are integers or
      variables, and a window reaching exactly to the end of its line (the
      end of statement included, except after a call, which leaves it to be
      skipped). */
  predicate WellFormed(rest: seq<Token>, o: Outcome)
    requires o.Parsed?
  {
    OperandsTyped(o.stmt)
    && if o.stmt.Call? then EndsLine(rest, o.width) else 0 < o.width && EndsLine(rest, o.width - 1)
  }

  lemma BuiltWellFormed0(rest: seq<Token>)
    requires Recognised(rest, 0)
    ensures Built(rest, 0).Parsed? && WellFormed(rest, Built(rest, 0))
  {
    PatternLine(VarDeclValuePattern, rest);
    PatternOperand(VarDeclValuePattern, rest, 2);
  }

  lemma BuiltWellFormed1(rest: seq<Token>)
    requires Recognised(rest, 1)
    ensures Built(rest, 1).Parsed? && WellFormed(rest, Built(rest, 1))
  {
    PatternLine(VarDeclExprPattern, rest);
    PatternOperand(VarDeclExprPattern, rest, 2);
    PatternOperand(VarDeclExprPattern, rest, 4);
  }

  lemma BuiltWellFormed2(rest: seq<Token>)
    requires Recognised(rest, 2)
    ensures Built(rest, 2).Parsed? && WellFormed(rest, Built(rest, 2))
  {
    PatternLine(IfPattern, rest);
    PatternOperand(IfPattern, rest, 1);
    PatternOperand(IfPattern, rest, 3);
  }

  lemma BuiltWellFormed3(rest: seq<Token>)
    requires Recognised(rest, 3)
    ensures Built(rest, 3).Parsed? && WellFormed(rest, Built(rest, 3))
  {
    PatternLine(LabelPattern, rest);
  }

  lemma BuiltWellFormed4(rest: seq<Token>)
    requires Recognised(rest, 4)
    ensures Built(rest, 4).Parsed? && WellFormed(rest, Built(rest, 4))
  {
    PatternLine(ShowNumPattern, rest);
    PatternOperand(ShowNumPattern, rest, 1);
  }

  lemma BuiltWellFormed5(rest: seq<Token>)
    requires Recognised(rest, 5)
    ensures Built(rest, 5).Parsed? && WellFormed(rest, Built(rest, 5))
  {
    PatternLine(ShowCharPattern, rest);
    PatternOperand(ShowCharPattern, rest, 1);
  }

  lemma BuiltWellFormed6(rest: seq<Token>)
    requires Recognised(rest, 6)
    ensures Built(rest, 6).Parsed? && WellFormed(rest, Built(rest, 6))
  {
    PatternLine(InputPattern, rest);
  }

  lemma BuiltWellFormed7(rest: seq<Token>)
    requires Recognised(rest, 7)
    ensures Built(rest, 7).Parsed? && WellFormed(rest, Built(rest, 7))
  {
    PatternLine(GotoPattern, rest);
  }

  lemma BuiltWellFormed8(rest: seq<Token>)
    requires Recognised(rest, 8)
    ensures Built(rest, 8).Parsed? && WellFormed(rest, Built(rest, 8))
  {
  }

  lemma BuiltWellFormed(rest: seq<Token>, i: nat)
    requires i < 9 && Recognised(rest, i)
    ensures Built(rest, i).Parsed? && WellFormed(rest, Built(rest, i))
  {
    match i
    case 0 => BuiltWellFormed0(rest);
    case 1 => BuiltWellFormed1(rest);
    case 2 => BuiltWellFormed2(rest);
    case 3 => BuiltWellFormed3(rest);
    case 4 => BuiltWellFormed4(rest);
    case 5 => BuiltWellFormed5(rest);
    case 6 => BuiltWellFormed6(rest);
    case 7 => BuiltWellFormed7(rest);
    case 8 => BuiltWellFormed8(rest);
  }

  /** Every statement the parser builds is well formed. */
  lemma ParseAtWellFormed(rest: seq<Token>)
    requires 0 < |rest|
    ensures ParseAt(rest).Parsed? ==> WellFormed(rest, ParseAt(rest))
  {
    ParseAtOutcome(rest);
    if ParseAt(rest).Parsed? {
      var i :| 0 <= i < 9 && Recognised(rest, i);
      ParseAtRecognised(rest, i);
      BuiltWellFormed(rest, i);
    }
  }

  /** Every operand of every statement is an integer or a variable. */
  predicate AllTyped(stmts: seq<Stmt>) {
    forall k :: 0 <= k < |stmts| ==> OperandsTyped(stmts[k])
  }

  /** Every statement a step builds has integer and variable operands. */
  ghost predicate StepTyped(step: nat --> Outcome, n: nat) {
    forall i: nat :: i < n && step.requires(i) && step(i).Parsed? ==> OperandsTyped(step(i).stmt)
  }

  lemma {:induction false} LoopTyped(step: nat --> Outcome, toks: seq<Token>, index: nat)
    requires Advances(step, |toks|) && StepTyped(step, |toks|) && index <= |toks|
    ensures Loop(step, toks, index).Success? ==> AllTyped(Loop(step, toks, index).value)
    decreases |toks| - index
  {
    if index < |toks| {
      match step(index)
      case Parsed(s, w) => LoopTyped(step, toks, index + w);
      case Skip => LoopTyped(step, toks, index + 1);
      case Invalid =>
    }
  }

  /** The cursor positions the loop visits from `index`: `index` itself,
      then the position after each statement or skipped line, stopping at
      the first position that starts no statement. */
  ghost predicate Reaches(step: nat --> Outcome, toks: seq<Token>, index: nat, p: nat)
    requires Advances(step, |toks|) && index <= |toks|
    decreases |toks| - index
  {
    p == index
    || (index < |toks| &&
        match step(index)
        case Parsed(_, w) => Reaches(step, toks, index + w, p)
        case Skip => Reaches(step, toks, index + 1, p)
        case Invalid => false)
  }

  /** The loop fails exactly when it reaches a position the step finds
      invalid: the error names that position, every position visited before
      it starts a statement or a blank line, and none is visited after it.
      When the loop succeeds it reaches the end and visits no invalid
      position. */
  lemma {:induction false} LoopError(step: nat --> Outcome, toks: seq<Token>, index: nat)
    requires Advances(step, |toks|) && index <= |toks|
    ensures Loop(step, toks, index).Failure? ==>
      exists p: nat :: index <= p < |toks| && Reaches(step, toks, index, p) && step(p).Invalid?
        && Loop(step, toks, index).error == Error(Parsing, "Invalid statement", "", toks[p].ctx)
        && (forall q: nat :: Reaches(step, toks, index, q) ==> q <= p && (q < p ==> !step(q).Invalid?))
    ensures Loop(step, toks, index).Success? ==>
      Reaches(step, toks, index, |toks|)
      && forall q: nat :: Reaches(step, toks, index, q) && q < |toks| ==> !step(q).Invalid?
    decreases |toks| - index
  {
    if index < |toks| {
      match step(index)
      case Parsed(_, w) => LoopErrorAfter(step, toks, index, index + w);
      case Skip => LoopErrorAfter(step, toks, index, index + 1);
      case Invalid => assert Reaches(step, toks, index, index);
    }
  }

  /** The inductive step of `LoopError`: when the loop moves from `index` to
      `next`, what holds from `next` holds from `index`. */
  lemma {:induction false} LoopErrorAfter(step: nat --> Outcome, toks: seq<Token>, index: nat, next: nat)
    requires Advances(step, |toks|) && index < next <= |toks|
    requires match step(index) case Parsed(_, w) => next == index + w case Skip => next == index + 1 case Invalid => false
    ensures Loop(step, toks, index).Failure? ==>
      exists p: nat :: index <= p < |toks| && Reaches(step, toks, index, p) && step(p).Invalid?
        && Loop(step, toks, index).error == Error(Parsing, "Invalid statement", "", toks[p].ctx)
        && (forall q: nat :: Reaches(step, toks, index, q) ==> q <= p && (q < p ==> !step(q).Invalid?))
    ensures Loop(step, toks, index).Success? ==>
      Reaches(step, toks, index, |toks|)
      && forall q: nat :: Reaches(step, toks, index, q) && q < |toks| ==> !step(q).Invalid?
    decreases |toks| - index, 0
  {
    LoopError(step, toks, next);
    LoopNext(step, toks, index, next);
    var tail := Loop(step, toks, next);
    if tail.Failure? {
      var p: nat :| next <= p < |toks| && Reaches(step, toks, next, p) && step(p).Invalid?
        && tail.error == Error(Parsing, "Invalid statement", "", toks[p].ctx)
        && (forall q: nat :: Reaches(step, toks, next, q) ==> q <= p && (q < p ==> !step(q).Invalid?));
      ReachesNext(step, toks, index, next, p);
      forall q: nat | Reaches(step, toks, index, q)
        ensures q <= p && (q < p ==> !step(q).Invalid?)
      {
        ReachesNext(step, toks, index, next, q);
      }
    } else {
      ReachesNext(step, toks, index, next, |toks|);
      forall q: nat | Reaches(step, toks, index, q) && q < |toks|
        ensures !step(q).Invalid?
      {
        ReachesNext(step, toks, index, next, q);
      }
    }
  }

  /** After a statement or a blank line the loop goes on from `next`. */
  lemma LoopNext(step: nat --> Outcome, toks: seq<Token>, index: nat, next: nat)
    requires Advances(step, |toks|) && index < next <= |toks|
    requires match step(index) case Parsed(_, w) => next == index + w case Skip => next == index + 1 case Invalid => false
    ensures Loop(step, toks, index).Failure? <==> Loop(step, toks, next).Failure?
    ensures Loop(step, toks, index).Failure? ==> Loop(step, toks, index).error == Loop(step, toks, next).error
  {
  }

  /** The positions visited from `index` are `index` and those visited from
      the position the loop moves on to. */
  lemma ReachesNext(step: nat --> Outcome, toks: seq<Token>, index: nat, next: nat, q: nat)
    requires Advances(step, |toks|) && index < next <= |toks|
    requires match step(index) case Parsed(_, w) => next == index + w case Skip => next == index + 1 case Invalid => false
    ensures Reaches(step, toks, index, q) <==> q == index || Reaches(step, toks, next, q)
  {
  }

  /** The position at which a failing loop stops. */
  lemma StopPosition(step: nat --> Outcome, toks: seq<Token>, index: nat) returns (p: nat)
    requires Advances(step, |toks|) && index <= |toks| && Loop(step, toks, index).Failure?
    ensures index <= p < |toks| && Reaches(step, toks, index, p) && step(p).Invalid?
    ensures Loop(step, toks, index).error == Error(Parsing, "Invalid statement", "", toks[p].ctx)
    ensures forall q: nat :: Reaches(step, toks, index, q) ==> q <= p && (q < p ==> !step(q).Invalid?)
  {
    LoopError(step, toks, index);
    p :| index <= p < |toks| && Reaches(step, toks, index, p) && step(p).Invalid?
      && Loop(step, toks, index).error == Error(Parsing, "Invalid statement", "", toks[p].ctx)
      && (forall q: nat :: Reaches(step, toks, index, q) ==> q <= p && (q < p ==> !step(q).Invalid?));
  }

  /** The positions from `from` on that the loop started at `index` visits
      and where the step builds a statement, in increasing order. */
  ghost function Spots(step: nat --> Outcome, toks: seq<Token>, index: nat, from: nat): seq<nat>
    requires Advances(step, |toks|) && index <= |toks| && from <= |toks|
    decreases |toks| - from
  {
    if from == |toks| then []
    else
      (if Reaches(step, toks, index, from) && step(from).Parsed? then [from] else [])
      + Spots(step, toks, index, from + 1)
  }

  /** `Spots` holds exactly the visited statement positions from `from` on,
      each once and in increasing order. */
  lemma {:induction false} SpotsMembers(step: nat --> Outcome, toks: seq<Token>, index: nat, from: nat)
    requires Advances(step, |toks|) && index <= |toks| && from <= |toks|
    ensures var r := Spots(step, toks, index, from);
      forall q: nat :: q in r <==> from <= q < |toks| && Reaches(step, toks, index, q) && step(q).Parsed?
    ensures var r := Spots(step, toks, index, from);
      forall a, b :: 0 <= a < b < |r| ==> r[a] < r[b]
    decreases |toks| - from
  {
    if from < |toks| {
      SpotsMembers(step, toks, index, from + 1);
      var rest := Spots(step, toks, index, from + 1);
      assert forall k :: 0 <= k < |rest| ==> from < rest[k] by {
        forall k | 0 <= k < |rest| ensures from < rest[k] {
          assert rest[k] in rest;
        }
      }
    }
  }

  /** The loop never visits a position before its start. */
  lemma {:induction false} ReachesFloor(step: nat --> Outcome, toks: seq<Token>, index: nat, q: nat)
    requires Advances(step, |toks|) && index <= |toks|
    ensures Reaches(step, toks, index, q) ==> index <= q
    decreases |toks| - index
  {
    if q != index && index < |toks| {
      match step(index)
      case Parsed(_, w) => ReachesFloor(step, toks, index + w, q);
      case Skip => ReachesFloor(step, toks, index + 1, q);
      case Invalid =>
    }
  }

  /** Two starts that visit the same positions from `from` on pick the same
      statement positions there. */
  lemma {:induction false} SpotsAgree(step: nat --> Outcome, toks: seq<Token>, i: nat, j: nat, from: nat)
    requires Advances(step, |toks|) && i <= |toks| && j <= |toks| && from <= |toks|
    requires forall q: nat :: from <= q < |toks| ==> (Reaches(step, toks, i, q) <==> Reaches(step, toks, j, q))
    ensures Spots(step, toks, i, from) == Spots(step, toks, j, from)
    decreases |toks| - from
  {
    if from < |toks| {
      SpotsAgree(step, toks, i, j, from + 1);
    }
  }

  /** Positions the loop does not visit contribute nothing. */
  lemma {:induction false} SpotsGap(step: nat --> Outcome, toks: seq<Token>, index: nat, from: nat, to: nat)
    requires Advances(step, |toks|) && index <= |toks| && from <= to <= |toks|
    requires forall q: nat :: from <= q < to ==> !Reaches(step, toks, index, q)
    ensures Spots(step, toks, index, from) == Spots(step, toks, index, to)
    decreases |toks| - from
  {
    if from < to {
      SpotsGap(step, toks, index, from + 1, to);
    }
  }

  /** After a turn that moves on, the statement positions still to come are
      those visited from the next position. */
  lemma SpotsNext(step: nat --> Outcome, toks: seq<Token>, index: nat, next: nat)
    requires Advances(step, |toks|) && index < next <= |toks|
    requires match step(index) case Parsed(_, w) => next == index + w case Skip => next == index + 1 case Invalid => false
    ensures Spots(step, toks, index, index + 1) == Spots(step, toks, next, next)
  {
    forall q: nat | index + 1 <= q < next
      ensures !Reaches(step, toks, index, q)
    {
      ReachesNext(step, toks, index, next, q);
      ReachesFloor(step, toks, next, q);
    }
    SpotsGap(step, toks, index, index + 1, next);
    forall q: nat | next <= q < |toks|
      ensures Reaches(step, toks, index, q) <==> Reaches(step, toks, next, q)
    {
      ReachesNext(step, toks, index, next, q);
    }
    SpotsAgree(step, toks, index, next, next);
  }

  /** A loop that succeeds builds one statement per position it visits where
      the step builds one, in order, and that statement is the step's. */
  lemma {:induction false} LoopStatements(step: nat --> Outcome, toks: seq<Token>, index: nat)
    requires Advances(step, |toks|) && index <= |toks|
    ensures var r := Loop(step, toks, index); var spots := Spots(step, toks, index, index);
      r.Success? ==> |r.value| == |spots| && forall k :: 0 <= k < |spots| ==>
        spots[k] < |toks| && step(spots[k]).Parsed? && step(spots[k]).stmt == r.value[k]
    decreases |toks| - index
  {
    if index < |toks| {
      var spots := Spots(step, toks, index, index);
      match step(index)
      case Parsed(s, w) =>
        LoopStatements(step, toks, index + w);
        SpotsNext(step, toks, index, index + w);
        assert spots == [index] + Spots(step, toks, index + w, index + w);
      case Skip =>
        LoopStatements(step, toks, index + 1);
        SpotsNext(step, toks, index, index + 1);
        assert spots == Spots(step, toks, index + 1, index + 1);
      case Invalid =>
    }
  }

  /** The positions the parser visits in a token list, from the start. */
  ghost predicate Reached(toks: seq<Token>, p: nat) {
    StepperAdvances(toks);
    Reaches(Stepper(toks), toks, 0, p)
  }

  /** The positions the parser visits where a statement starts, in
      increasing order: `Reached` filtered by `ParseAt` building a statement. */
  ghost function ParsedPositions(toks: seq<Token>): (ps: seq<nat>)
    ensures forall q: nat :: q in ps <==> q < |toks| && Reached(toks, q) && ParseAt(toks[q..]).Parsed?
    ensures forall a, b :: 0 <= a < b < |ps| ==> ps[a] < ps[b]
  {
    StepperAdvances(toks);
    SpotsMembers(Stepper(toks), toks, 0, 0);
    Spots(Stepper(toks), toks, 0, 0)
  }

  /** A parsed program holds one statement per visited statement position,
      in order, each the statement `ParseAt` builds there. */
  lemma ParseStatements(toks: seq<Token>)
    ensures Parse(toks).Success? ==>
      var ps := ParsedPositions(toks); var stmts := Parse(toks).value.stmts;
      |stmts| == |ps| && forall k :: 0 <= k < |ps| ==>
        ps[k] < |toks| && ParseAt(toks[ps[k]..]).Parsed? && ParseAt(toks[ps[k]..]).stmt == stmts[k]
  {
    StepperAdvances(toks);
    var step := Stepper(toks);
    LoopStatements(step, toks, 0);
    assert ParseFrom(toks, 0) == Loop(step, toks, 0);
    assert ParsedPositions(toks) == Spots(step, toks, 0, 0);
  }

  /** A whole program parses to statements with integer and variable
      operands, visiting only positions that start a statement or a blank
      line up to the end; or it fails at the first visited position that
      starts no statement, and that position is in the error. */
  lemma ParseResult(toks: seq<Token>)
    ensures Parse(toks).Success? ==>
      AllTyped(Parse(toks).value.stmts)
      && Reached(toks, |toks|)
      && forall q: nat :: Reached(toks, q) && q < |toks| ==> !ParseAt(toks[q..]).Invalid?
    ensures Parse(toks).Success? ==>
      var ps := ParsedPositions(toks); var stmts := Parse(toks).value.stmts;
      |stmts| == |ps| && forall k :: 0 <= k < |ps| ==>
        ps[k] < |toks| && ParseAt(toks[ps[k]..]).Parsed? && ParseAt(toks[ps[k]..]).stmt == stmts[k]
    ensures Parse(toks).Failure? ==>
      exists p: nat :: 0 <= p < |toks| && Reached(toks, p) && ParseAt(toks[p..]).Invalid?
        && Parse(toks).error == Error(Parsing, "Invalid statement", "", toks[p].ctx)
        && forall q: nat :: Reached(toks, q) ==> q <= p && (q < p ==> !ParseAt(toks[q..]).Invalid?)
  {
    StepperAdvances(toks);
    var step := Stepper(toks);
    ParseTyped(toks);
    ParseStatements(toks);
    LoopError(step, toks, 0);
    var r := Loop(step, toks, 0);
    assert ParseFrom(toks, 0) == r;
    assert Parse(toks).Success? <==> r.Success?;
    assert Parse(toks).Failure? ==> Parse(toks).error == r.error;
    forall q: nat
      ensures Reached(toks, q) == Reaches(step, toks, 0, q)
      ensures q < |toks| ==> step(q) == ParseAt(toks[q..])
    {
    }
    if r.Failure? {
      var p := StopPosition(step, toks, 0);
      assert Reached(toks, p);
    }
  }

  /** The statements of a parsed program have integer and variable
      operands. */
  lemma ParseTyped(toks: seq<Token>)
    ensures Parse(toks).Success? ==> AllTyped(Parse(toks).value.stmts)
  {
    StepperAdvances(toks);
    var step := Stepper(toks);
    forall i: nat | i < |toks| && step(i).Parsed?
      ensures OperandsTyped(step(i).stmt)
    {
      ParseAtWellFormed(toks[i..]);
    }
    LoopTyped(step, toks, 0);
  }
}
