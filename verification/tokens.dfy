/** Token kinds, the keyword and operator tables, token records and the
    structured error every phase reports. */
module Tokens {

  datatype TokenKind =
    | KeywordIf | KeywordEnd | KeywordGoto | KeywordShownum | KeywordShowchar | KeywordInput
    | KeywordCall
    | Identifier | LiteralInt | LiteralStr
    | OpAssign
    | OpLt | OpGt | OpLte | OpGte | OpEq | OpNeq
    | OpAdd | OpSub | OpMul | OpDiv | OpMod | OpPow
    | Label
    | EndStmt

  /** Reserved words and the token kind each one lexes to. `call` introduces the
      generic builtin-call statement. */
  const Keywords: map<string, TokenKind> := map[
    "if" := KeywordIf,
    "end" := KeywordEnd,
    "goto" := KeywordGoto,
    "shown" := KeywordShownum,
    "showc" := KeywordShowchar,
    "input" := KeywordInput,
    "call" := KeywordCall
  ]

  predicate IsKeyword(word: string) {
    word in Keywords
  }

  const Operators: map<string, TokenKind> := map[
    "=" := OpAssign,
    "<" := OpLt,
    ">" := OpGt,
    "<=" := OpLte,
    ">=" := OpGte,
    "==" := OpEq,
    "!=" := OpNeq,
    "+" := OpAdd,
    "-" := OpSub,
    "*" := OpMul,
    "/" := OpDiv,
    "%" := OpMod,
    "^" := OpPow
  ]

  predicate IsOperator(op: string) {
    op in Operators
  }

  /** The order in which the lexer tries operators: every two-character operator
      comes before its one-character prefix. */
  const OrderedOperators: seq<string> :=
    ["<=", ">=", "==", "!=", "=", "<", ">", "+", "-", "*", "/", "%", "^"]

  /** The characters that send the lexer to operator recognition: the first
      characters of the operators. A lone `!` is one of them but no operator. */
  const OperatorCharacters: set<char> := {'=', '<', '>', '!', '+', '-', '*', '/', '%', '^'}

  predicate IsOperatorCharacter(c: char) {
    c in OperatorCharacters
  }

  /** The families of token kinds. */
  datatype KindClass = EndClass | IntClass | StrClass | IdentClass | LabelClass | KeywordClass | OperatorClass

  function ClassOf(k: TokenKind): KindClass {
    match k
    case EndStmt => EndClass
    case LiteralInt => IntClass
    case LiteralStr => StrClass
    case Identifier => IdentClass
    case Label => LabelClass
    case KeywordIf | KeywordEnd | KeywordGoto | KeywordShownum | KeywordShowchar | KeywordInput | KeywordCall =>
      KeywordClass
    case _ => OperatorClass
  }

  predicate IsKeywordKind(k: TokenKind) {
    ClassOf(k) == KeywordClass
  }

  predicate IsOperatorKind(k: TokenKind) {
    ClassOf(k) == OperatorClass
  }

  /** Where a token starts: 1-based line and column, 0-based offset, file name. */
  datatype Context = Context(line: int, column: int, index: int, file: string)

  /** A token. `length` is the number of source characters it covers, except for
      `EndStmt`, whose length is 0 although it stands for one newline. */
  datatype Token = Token(kind: TokenKind, length: nat, data: string, ctx: Context)

  /** The phase an error comes from; `Panic` stands for a Go runtime panic. */
  datatype Phase = Lexing | Parsing | Runtime | Panic

  /** A diagnostic: its phase, message, optional hint ("" when absent) and position. */
  datatype Error = Error(phase: Phase, message: string, hint: string, pos: Context)

  function RuntimeError(message: string, pos: Context): (e: Error)
    ensures e.phase == Runtime && e.message == message && e.pos == pos
  {
    Error(Runtime, message, "", pos)
  }

  function PanicError(message: string, pos: Context): (e: Error)
    ensures e.phase == Panic && e.message == message && e.pos == pos
  {
    Error(Panic, message, "", pos)
  }

  /** The keywords are exactly the seven reserved words. */
  lemma KeywordSet(word: string)
    ensures IsKeyword(word) <==> word in {"if", "end", "goto", "shown", "showc", "input", "call"}
  {
  }

  /** The keyword table is injective, maps only to keyword kinds, and `shown` and
      `showc` lex to the show-number and show-character kinds. */
  lemma KeywordTable()
    ensures forall a, b :: a in Keywords && b in Keywords && Keywords[a] == Keywords[b] ==> a == b
    ensures forall w :: w in Keywords ==> IsKeywordKind(Keywords[w])
    ensures Keywords["shown"] == KeywordShownum && Keywords["showc"] == KeywordShowchar
  {
  }

  /** The text of each operator kind: the inverse of the operator table. */
  function OperatorSpelling(k: TokenKind): string
    requires IsOperatorKind(k)
  {
    match k
    case OpAssign => "="
    case OpLt => "<"
    case OpGt => ">"
    case OpLte => "<="
    case OpGte => ">="
    case OpEq => "=="
    case OpNeq => "!="
    case OpAdd => "+"
    case OpSub => "-"
    case OpMul => "*"
    case OpDiv => "/"
    case OpMod => "%"
    case OpPow => "^"
  }

  /** Spelling the kind an operator lexes to gives the operator back. */
  lemma SpellingAfterTable()
    ensures forall op :: op in Operators ==> IsOperatorKind(Operators[op]) && OperatorSpelling(Operators[op]) == op
  {
    forall op | op in Operators
      ensures IsOperatorKind(Operators[op]) && OperatorSpelling(Operators[op]) == op
    {
      assert op in OrderedOperators;
    }
  }

  /** Every operator kind is spelled by an operator that lexes back to it. */
  lemma TableAfterSpelling()
    ensures forall k :: IsOperatorKind(k) ==> OperatorSpelling(k) in Operators && Operators[OperatorSpelling(k)] == k
  {
  }

  /** The operator table is a bijection between the operators and the operator
      kinds, so distinct operators lex to distinct kinds. */
  lemma OperatorTableBijective()
    ensures forall op :: op in Operators ==> IsOperatorKind(Operators[op]) && OperatorSpelling(Operators[op]) == op
    ensures forall k :: IsOperatorKind(k) ==> OperatorSpelling(k) in Operators && Operators[OperatorSpelling(k)] == k
    ensures forall a, b :: a in Operators && b in Operators && Operators[a] == Operators[b] ==> a == b
  {
    SpellingAfterTable();
    TableAfterSpelling();
  }

  /** Operators have one or two characters, the two-character ones are exactly
      `<=`, `>=`, `==`, `!=`, and a lone `!` is not an operator. */
  lemma OperatorLengths()
    ensures forall op :: op in Operators ==> 1 <= |op| <= 2
    ensures forall op :: op in Operators && |op| == 2 <==> op in {"<=", ">=", "==", "!="}
    ensures !IsOperator("!")
  {
  }

  /** The ordered list is the operator table without repetition, no entry is a
      proper prefix of a later one, and the operator characters are exactly the
      first characters of operators plus `!`. */
  lemma OrderedOperatorsShape()
    ensures forall i :: 0 <= i < |OrderedOperators| ==> OrderedOperators[i] in Operators
    ensures forall op :: op in Operators ==> op in OrderedOperators
    ensures forall i, j :: 0 <= i < j < |OrderedOperators| ==> OrderedOperators[i] != OrderedOperators[j]
    ensures forall i, j :: 0 <= i < j < |OrderedOperators| ==>
      !(|OrderedOperators[i]| < |OrderedOperators[j]| && OrderedOperators[i] == OrderedOperators[j][..|OrderedOperators[i]|])
    ensures forall op :: op in Operators ==> IsOperatorCharacter(op[0])
  {
  }

  /** Every character of every operator is an operator character. */
  lemma OperatorCharacterSet()
    ensures forall op, k :: op in Operators && 0 <= k < |op| ==> op[k] in OperatorCharacters
  {
    forall op, k | op in Operators && 0 <= k < |op|
      ensures op[k] in OperatorCharacters
    {
      assert op in OrderedOperators;
    }
  }
}
