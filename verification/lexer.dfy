/** The lexer: source text to position-tagged tokens. Go's anchored regular
    expressions are replaced by recognisers over the remaining input. */
module Lexer {
  import opened Results
  import opened GoInt
  import opened Numerals
  import opened Tokens
  import opened Lexical

  const Step: string := "lexing"

  /** The length of the longest prefix of s whose characters all satisfy p. */
  function RunLength(s: string, p: char -> bool): (n: nat)
    ensures n <= |s|
    decreases |s|
  {
    if |s| > 0 && p(s[0]) then 1 + RunLength(s[1..], p) else 0
  }

  /** Every character of the run satisfies p, and the character after it,
      if any, does not. */
  lemma {:induction false} RunLengthSpec(s: string, p: char -> bool)
    ensures forall k :: 0 <= k < RunLength(s, p) ==> p(s[k])
    ensures RunLength(s, p) == |s| || !p(s[RunLength(s, p)])
    decreases |s|
  {
    if |s| > 0 && p(s[0]) {
      RunLengthSpec(s[1..], p);
      forall k | 1 <= k < RunLength(s, p)
        ensures p(s[k])
      {
        assert s[k] == s[1..][k - 1];
      }
    }
  }

  /** No prefix whose characters all satisfy p is longer than the run. */
  lemma RunIsLongest(s: string, p: char -> bool, n: nat)
    requires n <= |s| && forall k :: 0 <= k < n ==> p(s[k])
    ensures n <= RunLength(s, p)
  {
    RunLengthSpec(s, p);
  }

  /** The number of leading spaces and tabs. */
  function SkipWhitespace(code: string): (n: nat)
    ensures n <= |code|
  {
    RunLength(code, IsBlank)
  }

  /** The skipped characters are blanks and the one after them is not. */
  lemma SkipWhitespaceSpec(code: string)
    ensures forall k :: 0 <= k < SkipWhitespace(code) ==> IsBlank(code[k])
    ensures SkipWhitespace(code) == |code| || !IsBlank(code[SkipWhitespace(code)])
  {
    RunLengthSpec(code, IsBlank);
  }

  /** `^\d+\b`: the digit run, provided it ends at a word boundary. */
  function MatchDecimalInt(code: string): (m: Option<string>)
    ensures m.Some? ==> IsPrefix(m.value, code) && IsNumeral(m.value, 10) && AtBoundary(code, |m.value|)
    ensures forall n :: 0 < n <= |code| && IsNumeral(code[..n], 10) && AtBoundary(code, n) ==>
      m.Some? && |m.value| == n
  {
    var n := RunLength(code, IsDigit);
    RunLengthSpec(code, IsDigit);
    forall n' | 0 < n' <= |code| && IsNumeral(code[..n'], 10) && AtBoundary(code, n')
      ensures n' == n
    {
      assert forall k :: 0 <= k < n' ==> IsDigit(code[..n'][k]);
      RunIsLongest(code, IsDigit, n');
    }
    if n > 0 && AtBoundary(code, n) then Some(code[..n]) else None
  }

  /** A hex literal ending at a word boundary takes the whole hex-digit run
      after `0x`. */
  lemma HexLiteralIsRun(code: string, n: nat)
    requires 0 < n <= |code| && IsHexLiteral(code[..n]) && AtBoundary(code, n)
    ensures n == 2 + RunLength(code[2..], IsHexDigit)
  {
    var run := RunLength(code[2..], IsHexDigit);
    RunLengthSpec(code[2..], IsHexDigit);
    assert forall k :: 0 <= k < n - 2 ==> IsHexDigit(code[..n][2..][k]);
    RunIsLongest(code[2..], IsHexDigit, n - 2);
  }

  /** `^0x[0-9a-fA-F]+\b`: `0x`, then the hex-digit run, provided it ends at a word boundary. */
  function MatchHexInt(code: string): (m: Option<string>)
    ensures m.Some? ==> IsPrefix(m.value, code) && IsHexLiteral(m.value) && AtBoundary(code, |m.value|)
    ensures forall n :: 0 < n <= |code| && IsHexLiteral(code[..n]) && AtBoundary(code, n) ==>
      m.Some? && |m.value| == n
  {
    if |code| >= 2 && code[0] == '0' && code[1] == 'x' then
      var n := RunLength(code[2..], IsHexDigit);
      RunLengthSpec(code[2..], IsHexDigit);
      forall n' | 0 < n' <= |code| && IsHexLiteral(code[..n']) && AtBoundary(code, n')
        ensures n' == 2 + n
      {
        HexLiteralIsRun(code, n');
      }
      assert code[..2 + n][2..] == code[2..][..n];
      if n > 0 && AtBoundary(code, 2 + n) then Some(code[..2 + n]) else None
    else
      None
  }

  /** `^[a-zA-Z_][a-zA-Z0-9_]*\b`: the whole word-character run after an identifier start. */
  function MatchIdentifier(code: string): (m: Option<string>)
    ensures m.Some? ==> IsPrefix(m.value, code) && IsIdent(m.value) && AtBoundary(code, |m.value|)
    ensures m.None? <==> |code| == 0 || !IsIdentStart(code[0])
    ensures forall n :: 0 < n <= |code| && IsIdent(code[..n]) && AtBoundary(code, n) ==>
      m.Some? && |m.value| == n
  {
    var n := RunLength(code, IsWordChar);
    RunLengthSpec(code, IsWordChar);
    forall n' | 0 < n' <= |code| && IsIdent(code[..n']) && AtBoundary(code, n')
      ensures n' == n
    {
      assert forall k :: 0 <= k < n' ==> IsWordChar(code[..n'][k]);
      RunIsLongest(code, IsWordChar, n');
    }
    if |code| > 0 && IsIdentStart(code[0]) then Some(code[..n]) else None
  }

  /** `^:[a-zA-Z_][a-zA-Z0-9_]*\b`: a colon, then an identifier. */
  function MatchLabel(code: string): (m: Option<string>)
    ensures m.Some? ==>
      IsPrefix(m.value, code) && |m.value| > 1 && m.value[0] == ':' && IsIdent(m.value[1..]) && AtBoundary(code, |m.value|)
    ensures m.None? <==> |code| < 2 || code[0] != ':' || !IsIdentStart(code[1])
  {
    if |code| >= 2 && code[0] == ':' && IsIdentStart(code[1]) then
      var n := RunLength(code[1..], IsWordChar);
      RunLengthSpec(code[1..], IsWordChar);
      assert code[..1 + n][1..] == code[1..][..n];
      Some(code[..1 + n])
    else
      None
  }

  /** The hex conversion as lexer.go:34 writes it: the whole match, `0x` included,
      is handed to `strconv.ParseInt(…, 16, 64)`, whose error is discarded. */
  function HexDataAsWritten(m: string): string
    requires IsHexLiteral(m)
  {
    FormatInt(ParseInt(m, 16))
  }

  /** As written, every hex literal lexes to "0": `x` is not a base-16 digit, so
      `strconv` fails and its zero result is rendered. */
  lemma HexDataAsWrittenIsZero(m: string)
    requires IsHexLiteral(m)
    ensures HexDataAsWritten(m) == "0"
  {
    ParseIntRejectsForeignDigit(m, 16, 1);
  }

  /** `0x1A` lexes to data "0" as written, and to "26" once the prefix is stripped. */
  lemma HexLiteralDiscrepancy()
    ensures HexDataAsWritten("0x1A") == "0"
    ensures HexData("0x1A") == "26"
  {
    HexDataAsWrittenIsZero("0x1A");
    var h := "0x1A"[2..];
    assert h == "1A";
    assert h[..1] == "1";
    assert NumeralValue(h, 16) == 26;
    assert ParseInt(h, 16) == 26;
    assert DecimalString(2) == "2";
    assert DecimalString(26) == "2" + "6";
  }

  /** Within int64 range, a hex literal's token reads back, in decimal, as the
      literal's value. */
  lemma HexDataValue(m: string)
    requires IsHexLiteral(m) && NumeralValue(m[2..], 16) <= MaxInt64
    ensures ParseInt(HexData(m), 10) == NumeralValue(m[2..], 16)
  {
  }

  /** An integer literal: hex is tried first, then decimal; either must end at a
      word boundary, so `12ab` is rejected. */
  function GetIntLiteral(code: string, ctx: Context): (r: Result<Token, Error>)
    ensures r.Success? ==>
      var t := r.value;
      t.kind == LiteralInt && t.ctx == ctx && 0 < t.length <= |code|
      && IntLiteralText(code[..t.length], t.data) && AtBoundary(code, t.length)
    ensures r.Failure? ==>
      r.error == Error(Lexing, "Invalid integer literal", "Integer literals must be in decimal or hexadecimal format", ctx)
    ensures r.Failure? <==> forall n :: 0 < n <= |code| && AtBoundary(code, n) ==>
      !IsNumeral(code[..n], 10) && !IsHexLiteral(code[..n])
  {
    match MatchHexInt(code)
    case Some(m) =>
      Success(Token(LiteralInt, |m|, HexData(m), ctx))
    case None =>
      match MatchDecimalInt(code)
      case Some(m) =>
        Success(Token(LiteralInt, |m|, m, ctx))
      case None =>
        Failure(Error(Lexing, "Invalid integer literal", "Integer literals must be in decimal or hexadecimal format", ctx))
  }

  /** An identifier run: a keyword's own kind when the word is in the keyword
      table, otherwise an identifier; the data is the word. */
  function GetIdentifier(code: string, ctx: Context): (r: Result<Token, Error>)
    ensures r.Success? ==>
      var t := r.value;
      t.ctx == ctx && 0 < t.length <= |code| && t.data == code[..t.length]
      && IsIdent(t.data) && AtBoundary(code, t.length)
      && (if IsKeyword(t.data) then t.kind == Keywords[t.data] else t.kind == Identifier)
    ensures r.Failure? <==> |code| == 0 || !IsIdentStart(code[0])
    ensures r.Failure? ==> r.error == Error(Lexing, "Invalid identifier", "", ctx)
  {
    match MatchIdentifier(code)
    case Some(m) =>
      if IsKeyword(m) then Success(Token(Keywords[m], |m|, m, ctx))
      else Success(Token(Identifier, |m|, m, ctx))
    case None =>
      Failure(Error(Lexing, "Invalid identifier", "", ctx))
  }

  /** The first entry of the ordered operator list, from position i on, that is a
      prefix of the input. */
  function FirstOperatorFrom(code: string, i: nat): (j: Option<nat>)
    requires i <= |OrderedOperators|
    ensures j.Some? ==>
      i <= j.value < |OrderedOperators| && IsPrefix(OrderedOperators[j.value], code)
      && forall k :: i <= k < j.value ==> !IsPrefix(OrderedOperators[k], code)
    ensures j.None? ==> forall k :: i <= k < |OrderedOperators| ==> !IsPrefix(OrderedOperators[k], code)
    decreases |OrderedOperators| - i
  {
    if i == |OrderedOperators| then None
    else if IsPrefix(OrderedOperators[i], code) then Some(i)
    else FirstOperatorFrom(code, i + 1)
  }

  /** Taking the first prefix in list order yields the longest operator that is a
      prefix of the input. */
  lemma FirstOperatorIsLongest(code: string, j: nat, op: string)
    requires j < |OrderedOperators| && IsPrefix(OrderedOperators[j], code)
    requires forall k :: 0 <= k < j ==> !IsPrefix(OrderedOperators[k], code)
    requires op in Operators && IsPrefix(op, code)
    ensures |op| <= |OrderedOperators[j]|
  {
    OrderedOperatorsShape();
    var k :| 0 <= k < |OrderedOperators| && OrderedOperators[k] == op;
  }

  /** An operator: the first entry of the ordered list that prefixes the input,
      which is also the longest operator doing so. */
  function GetOperator(code: string, ctx: Context): (r: Result<Token, Error>)
    ensures r.Success? ==>
      var t := r.value;
      t.ctx == ctx && IsOperator(t.data) && t.kind == Operators[t.data] && t.length == |t.data|
      && IsPrefix(t.data, code)
      && forall op {:trigger IsPrefix(op, code)} :: op in Operators && IsPrefix(op, code) ==> |op| <= t.length
    ensures r.Failure? <==> forall op {:trigger IsPrefix(op, code)} :: op in Operators ==> !IsPrefix(op, code)
    ensures r.Failure? ==> r.error == Error(Lexing, "Invalid operator", "", ctx)
  {
    OrderedOperatorsShape();
    match FirstOperatorFrom(code, 0)
    case Some(j) =>
      var op := OrderedOperators[j];
      forall op' | op' in Operators && IsPrefix(op', code)
        ensures |op'| <= |op|
      {
        FirstOperatorIsLongest(code, j, op');
      }
      Success(Token(Operators[op], |op|, op, ctx))
    case None =>
      Failure(Error(Lexing, "Invalid operator", "", ctx))
  }

  /** A label: its data is the name after the colon; its length includes the colon. */
  function GetLabel(code: string, ctx: Context): (r: Result<Token, Error>)
    ensures r.Success? ==>
      var t := r.value;
      t.kind == Label && t.ctx == ctx && 1 < t.length <= |code| && code[0] == ':'
      && t.data == code[1..t.length] && IsIdent(t.data) && AtBoundary(code, t.length)
    ensures r.Failure? <==> |code| < 2 || code[0] != ':' || !IsIdentStart(code[1])
    ensures r.Failure? ==> r.error == Error(Lexing, "Invalid label", "", ctx)
  {
    match MatchLabel(code)
    case Some(m) =>
      Success(Token(Label, |m|, m[1..], ctx))
    case None =>
      Failure(Error(Lexing, "Invalid label", "", ctx))
  }

  /** Trying hex first loses nothing: when the input starts with `0x` the decimal
      pattern cannot match, since `x` is a word character right after the `0`. */
  lemma HexShadowsNoDecimal(code: string)
    requires IsPrefix("0x", code)
    ensures MatchDecimalInt(code).None?
  {
    assert code[1] == 'x';
    assert !IsDigit(code[1]);
    assert RunLength(code, IsDigit) == 1;
  }

  /** An integer literal spells its text, which holds no newline. */
  lemma IntLiteralSpells(rest: string, ctx: Context)
    requires GetIntLiteral(rest, ctx).Success?
    ensures var t := GetIntLiteral(rest, ctx).value;
      t.kind != EndStmt && NoNewline(rest[..t.length]) && SpellsPrefix(rest, t)
  {
    var t := GetIntLiteral(rest, ctx).value;
    var text := rest[..t.length];
    assert IntLiteralText(text, t.data) && AtBoundary(rest, t.length);
    assert Extent(t) == t.length;
    if IsNumeral(text, 10) {
      NumeralIsWord(text, 10);
    } else {
      HexLiteralIsWord(text);
    }
  }

  /** An identifier or keyword spells its text, which holds no newline. */
  lemma IdentifierSpells(rest: string, ctx: Context)
    requires GetIdentifier(rest, ctx).Success?
    ensures var t := GetIdentifier(rest, ctx).value;
      t.kind != EndStmt && NoNewline(rest[..t.length]) && SpellsPrefix(rest, t)
  {
    KeywordTable();
  }

  /** An operator spells its text, which holds no newline. */
  lemma OperatorSpells(rest: string, ctx: Context)
    requires GetOperator(rest, ctx).Success?
    ensures var t := GetOperator(rest, ctx).value;
      t.kind != EndStmt && 0 < t.length && NoNewline(rest[..t.length]) && SpellsPrefix(rest, t)
  {
    var t := GetOperator(rest, ctx).value;
    assert IsOperatorKind(t.kind) by {
      SpellingAfterTable();
    }
    assert 0 < t.length by {
      OperatorLengths();
    }
    assert rest[..t.length] == t.data;
    assert SpellsOperator(rest, rest[..t.length], t);
    OperatorKindSpells(rest, t);
    OperatorHasNoNewline(t.data);
  }

  lemma OperatorHasNoNewline(op: string)
    requires op in Operators
    ensures NoNewline(op)
  {
    OperatorCharacterSet();
    assert forall k :: 0 <= k < |op| ==> op[k] in OperatorCharacters;
  }

  lemma OperatorKindSpells(rest: string, t: Token)
    requires IsOperatorKind(t.kind) && 0 < t.length <= |rest| && SpellsOperator(rest, rest[..t.length], t)
    ensures SpellsPrefix(rest, t)
  {
  }

  /** A label spells its text, which holds no newline. */
  lemma LabelSpells(rest: string, ctx: Context)
    requires GetLabel(rest, ctx).Success?
    ensures var t := GetLabel(rest, ctx).value;
      t.kind != EndStmt && NoNewline(rest[..t.length]) && SpellsPrefix(rest, t)
  {
    var t := GetLabel(rest, ctx).value;
    var text := rest[..t.length];
    assert text[1..] == t.data;
    assert forall k :: 1 <= k < |text| ==> text[k] == t.data[k - 1];
  }

  /** A token spelling the text at `index`, holding no newline, covers it. */
  lemma EmitCovers(code: string, index: nat, t: Token)
    requires index < |code| && t.ctx.index == index && t.kind != EndStmt && 0 < t.length <= |code| - index
    requires NoNewline(code[index..][..t.length]) && SpellsPrefix(code[index..], t)
    ensures Covers(code, index, Emit(t))
  {
    assert Spells(code, t);
    forall k | index <= k < index + t.length
      ensures code[k] != '\n'
    {
      assert code[index..][..t.length][k - index] == code[k];
    }
    assert NewlineFree(code, index, index + t.length);
  }

  /** A newline is covered by the end-of-statement token at its offset. */
  lemma NewlineCovers(code: string, index: nat, ctx: Context)
    requires index < |code| && code[index] == '\n' && ctx.index == index
    ensures Covers(code, index, Newline(Token(EndStmt, 0, "", ctx)))
  {
    assert code[index..][..1] == "\n";
  }

  /** The token at the start of `rest`, which holds neither a newline nor a
      blank first: the first character selects the recogniser, and a character
      no recogniser starts with is an error. */
  function ScanToken(rest: string, ctx: Context): (r: Scan)
    requires 0 < |rest|
    ensures r.Emit? || r.Stuck?
    ensures r.Emit? ==> r.token.kind != EndStmt && 0 < r.token.length <= |rest| && r.token.ctx == ctx
    ensures r.Stuck? ==> r.error.phase == Lexing && r.error.pos == ctx
    ensures r.Stuck? ==> r.error.message != "Invalid identifier"
  {
    var current := rest[0];
    if IsDigit(current) then
      var r := GetIntLiteral(rest, ctx);
      if r.Success? then Emit(r.value) else Stuck(r.error)
    else if IsIdentStart(current) then
      var r := GetIdentifier(rest, ctx);
      Emit(r.value)
    else if IsOperatorCharacter(current) then
      var r := GetOperator(rest, ctx);
      if r.Success? then Emit(r.value) else Stuck(r.error)
    else if current == ':' then
      var r := GetLabel(rest, ctx);
      if r.Success? then Emit(r.value) else Stuck(r.error)
    else
      Stuck(Error(Lexing, "Unexpected character: " + [current], "", ctx))
  }

  /** A token scanned at `index` covers the text it was read from. */
  lemma ScanTokenCovers(code: string, index: nat, ctx: Context)
    requires index < |code| && ctx.index == index
    ensures var r := ScanToken(code[index..], ctx); r.Emit? ==> Covers(code, index, r)
  {
    var rest := code[index..];
    var current := rest[0];
    if IsDigit(current) {
      if GetIntLiteral(rest, ctx).Success? {
        IntLiteralSpells(rest, ctx);
        EmitCovers(code, index, GetIntLiteral(rest, ctx).value);
      }
    } else if IsIdentStart(current) {
      IdentifierSpells(rest, ctx);
      EmitCovers(code, index, GetIdentifier(rest, ctx).value);
    } else if IsOperatorCharacter(current) {
      if GetOperator(rest, ctx).Success? {
        OperatorSpells(rest, ctx);
        EmitCovers(code, index, GetOperator(rest, ctx).value);
      }
    } else if current == ':' {
      if GetLabel(rest, ctx).Success? {
        LabelSpells(rest, ctx);
        EmitCovers(code, index, GetLabel(rest, ctx).value);
      }
    }
  }

  /** Only a character no recogniser starts with gives the "Unexpected
      character" error, which names that character. */
  lemma UnexpectedCharacter(rest: string, ctx: Context)
    requires 0 < |rest|
    ensures var c := rest[0];
      ScanToken(rest, ctx) == Stuck(Error(Lexing, "Unexpected character: " + [c], "", ctx))
      <==> !IsDigit(c) && !IsIdentStart(c) && !IsOperatorCharacter(c) && c != ':'
  {
    var c := rest[0];
    var unexpected := "Unexpected character: " + [c];
    assert unexpected[0] == 'U';
    if IsDigit(c) || IsIdentStart(c) || IsOperatorCharacter(c) || c == ':' {
      var r := ScanToken(rest, ctx);
      if r.Stuck? {
        assert r.error.message[0] == 'I';
      }
    }
  }

  /** One iteration of the lexing loop at offset `index`: a newline, a run of
      blanks, one token, or the error that stops lexing. */
  function LexStep(code: string, file: string, index: nat, line: int, column: int): (r: Scan)
    requires index < |code|
    ensures r.Blank? ==> 0 < r.width && index + r.width <= |code| && BlankBetween(code, index, index + r.width)
    ensures r.Emit? ==> r.token.kind != EndStmt && 0 < r.token.length && index + r.token.length <= |code|
    ensures r.Newline? <==> code[index] == '\n'
    ensures r.Newline? ==> r.token == Token(EndStmt, 0, "", Context(line, column, index, file))
    ensures r.Blank? ==> index + r.width == |code| || !IsBlank(code[index + r.width])
    ensures r.Emit? ==> r.token.ctx == Context(line, column, index, file)
    ensures r.Stuck? ==> r.error.phase == Lexing && r.error.pos == Context(line, column, index, file)
    ensures r.Stuck? ==> r.error.message != "Invalid identifier"
  {
    var ctx := Context(line, column, index, file);
    var rest := code[index..];
    if code[index] == '\n' then
      Newline(Token(EndStmt, 0, "", ctx))
    else
      var whitespace := SkipWhitespace(rest);
      if whitespace > 0 then
        SkipWhitespaceSpec(rest);
        assert forall k :: index <= k < index + whitespace ==> code[k] == rest[k - index];
        Blank(whitespace)
      else
        ScanToken(rest, ctx)
  }

  /** The loop stops only at a character that is neither a newline nor a
      blank, with the token recogniser's error there. */
  lemma LexStepStuck(code: string, file: string, index: nat, line: int, column: int)
    requires index < |code|
    ensures var s := LexStep(code, file, index, line, column);
      s.Stuck? ==>
        code[index] != '\n' && !IsBlank(code[index])
        && s == ScanToken(code[index..], Context(line, column, index, file))
  {
    SkipWhitespaceSpec(code[index..]);
  }

  /** Every scan covers the text it moves over; an emitted token spells it. */
  lemma LexStepCovers(code: string, file: string, index: nat, line: int, column: int)
    requires index < |code|
    ensures Covers(code, index, LexStep(code, file, index, line, column))
  {
    var ctx := Context(line, column, index, file);
    if code[index] == '\n' {
      NewlineCovers(code, index, ctx);
    } else if SkipWhitespace(code[index..]) == 0 {
      ScanTokenCovers(code, index, ctx);
    }
  }

  /** The result of lexing from a scan on, given the result of lexing after it. */
  function Prepend(s: Scan, rest: Result<seq<Token>, Error>): Result<seq<Token>, Error> {
    match s
    case Newline(t) => if rest.Success? then Success([t] + rest.value) else rest
    case Emit(t) => if rest.Success? then Success([t] + rest.value) else rest
    case Blank(_) => rest
    case Stuck(e) => Failure(e)
  }

  /** A step at every offset of input of length n is defined and, unless it
      stops, advances the cursor within the input. */
  ghost predicate Advances(step: (nat, int, int) --> Scan, n: nat) {
    forall i: nat, l: int, c: int :: i < n ==>
      step.requires(i, l, c) && (!step(i, l, c).Stuck? ==> 0 < Width(step(i, l, c)) <= n - i)
  }

  /** The lexing loop over input of length n from offset `index`, at the
      given line and column, with the iteration abstracted into `step`:
      newlines become end-of-statement tokens and start a new line, blanks
      are skipped, and the first error stops it. */
  function Loop(step: (nat, int, int) --> Scan, n: nat, index: nat, line: int, column: int): (r: Result<seq<Token>, Error>)
    requires Advances(step, n) && index <= n
    decreases n - index
  {
    if index == n then
      Success([])
    else
      var s := step(index, line, column);
      if s.Stuck? then
        Failure(s.error)
      else
        Prepend(s, Loop(step, n, index + Width(s), NextLine(s, line), NextColumn(s, column)))
  }

  /** LexStep over one input, as a step of the loop. */
  function Stepper(code: string, file: string): (nat, int, int) --> Scan {
    (i: nat, l: int, c: int) requires i < |code| => LexStep(code, file, i, l, c)
  }

  /** Every turn of the lexing loop that does not stop moves forward within
      the input, so lexing terminates. */
  lemma StepperAdvances(code: string, file: string)
    ensures Advances(Stepper(code, file), |code|)
  {
    forall i: nat, l: int, c: int | i < |code|
      ensures !LexStep(code, file, i, l, c).Stuck? ==> 0 < Width(LexStep(code, file, i, l, c)) <= |code| - i
    {
    }
  }

  /** The lexing loop from offset `index`, stepping with `LexStep`. */
  function LexFrom(code: string, file: string, index: nat, line: int, column: int): (r: Result<seq<Token>, Error>)
    requires index <= |code|
  {
    StepperAdvances(code, file);
    Loop(Stepper(code, file), |code|, index, line, column)
  }

  /** Lexes a whole file, starting at line 1, column 1. */
  function Lex(code: string, file: string): (r: Result<seq<Token>, Error>)
  {
    LexFrom(code, file, 0, 1, 1)
  }
}
