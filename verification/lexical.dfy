/** The lexical vocabulary: character classes, the shapes Go's regular
    expressions accept, what it means for a token to spell the text it was
    read from, and the outcome of one iteration of the lexing loop. */
module Lexical {
  import opened Results
  import opened GoInt
  import opened Numerals
  import opened Tokens

  predicate IsBlank(c: char) {
    c == ' ' || c == '\t'
  }

  predicate IsIdentStart(c: char) {
    IsLetter(c) || c == '_'
  }

  /** `[a-zA-Z_][a-zA-Z0-9_]*`: a letter or underscore, then word characters. */
  predicate IsIdent(s: string) {
    |s| > 0 && IsIdentStart(s[0]) && forall k :: 0 <= k < |s| ==> IsWordChar(s[k])
  }

  /** `0x[0-9a-fA-F]+`. */
  predicate IsHexLiteral(s: string) {
    |s| > 2 && s[0] == '0' && s[1] == 'x' && IsNumeral(s[2..], 16)
  }

  /** The data of a hex literal's token: the decimal rendering of the digits after
      `0x` read in base 16 (saturating at the int64 maximum, as `strconv` does). */
  function HexData(m: string): (data: string)
    requires IsHexLiteral(m)
    ensures IsNumeral(data, 10)
    ensures ParseInt(data, 10) == Clamp(NumeralValue(m[2..], 16))
  {
    var v := Clamp(NumeralValue(m[2..], 16));
    ParseDecimalString(v);
    FormatInt(v)
  }

  /** The hex data is what `strconv.ParseInt` makes of the digits after `0x`
      in base 16, rendered with `%d`. */
  lemma HexDataIsParseInt(m: string)
    requires IsHexLiteral(m)
    ensures HexData(m) == FormatInt(ParseInt(m[2..], 16))
  {
    assert SignLength(m[2..]) == 0 by {
      assert IsHexDigit(m[2..][0]);
    }
  }

  /** `\b` after a run of word characters ending at offset n: the input ends there
      or the next character is not a word character. */
  predicate AtBoundary(s: string, n: nat)
    requires n <= |s|
  {
    n == |s| || !IsWordChar(s[n])
  }

  predicate IsPrefix(p: string, s: string) {
    |p| <= |s| && s[..|p|] == p
  }

  /** The text an integer-literal token was read from, and the data it carries. */
  predicate IntLiteralText(text: string, data: string) {
    (IsNumeral(text, 10) && data == text) || (IsHexLiteral(text) && data == HexData(text))
  }

  /** The number of source characters a token stands for: a newline for
      `EndStmt`, its length otherwise. */
  function Extent(t: Token): nat {
    if t.kind.EndStmt? then 1 else t.length
  }

  /** What a token says about the source text from its recorded offset on. */
  ghost predicate Spells(code: string, t: Token) {
    0 <= t.ctx.index <= |code| && SpellsPrefix(code[t.ctx.index..], t)
  }

  /** What a token says about the text it was read from, `rest` being the input
      from the token's start. A string-literal token spells nothing: the lexer
      never produces one. */
  ghost predicate SpellsPrefix(rest: string, t: Token) {
    0 < Extent(t) <= |rest| &&
    var text := rest[..Extent(t)];
    match ClassOf(t.kind)
    case EndClass => text == "\n" && t.length == 0 && t.data == ""
    case IntClass => SpellsIntLiteral(rest, text, t.data)
    case IdentClass => SpellsIdentifier(rest, text, t.data)
    case LabelClass => SpellsLabel(rest, text, t.data)
    case KeywordClass => SpellsKeyword(rest, text, t)
    case OperatorClass => SpellsOperator(rest, text, t)
    case StrClass => false
  }

  ghost predicate SpellsIntLiteral(rest: string, text: string, data: string)
    requires |text| <= |rest|
  {
    IntLiteralText(text, data) && AtBoundary(rest, |text|)
  }

  ghost predicate SpellsIdentifier(rest: string, text: string, data: string)
    requires |text| <= |rest|
  {
    IsIdent(text) && !IsKeyword(text) && data == text && AtBoundary(rest, |text|)
  }

  ghost predicate SpellsLabel(rest: string, text: string, data: string)
    requires |text| <= |rest|
  {
    |text| > 1 && text[0] == ':' && data == text[1..] && IsIdent(data) && AtBoundary(rest, |text|)
  }

  ghost predicate SpellsKeyword(rest: string, text: string, t: Token)
    requires |text| <= |rest|
  {
    IsIdent(text) && IsKeyword(text) && Keywords[text] == t.kind && t.data == text && AtBoundary(rest, |text|)
  }

  /** An operator token is the longest operator prefixing the input. */
  ghost predicate SpellsOperator(rest: string, text: string, t: Token) {
    IsOperator(text) && Operators[text] == t.kind && t.data == text
    && forall op {:trigger IsPrefix(op, rest)} :: op in Operators && IsPrefix(op, rest) ==> |op| <= |text|
  }

  /** The outcome of one iteration of the lexing loop. */
  datatype Scan =
    | Newline(token: Token)
    | Blank(width: nat)
    | Emit(token: Token)
    | Stuck(error: Error)

  /** Offsets i up to j lie in the input and hold spaces or tabs. */
  predicate BlankBetween(code: string, i: int, j: int) {
    forall k :: i <= k < j ==> 0 <= k < |code| && IsBlank(code[k])
  }

  /** No character of code[i..j] is a newline. */
  predicate NewlineFree(code: string, i: nat, j: nat)
    requires i <= j <= |code|
  {
    forall k :: i <= k < j ==> code[k] != '\n'
  }

  /** How far a scan moves the cursor. */
  function Width(s: Scan): nat {
    match s
    case Newline(_) => 1
    case Blank(w) => w
    case Emit(t) => t.length
    case Stuck(_) => 0
  }

  /** The line after a scan: a newline starts the next one. */
  function NextLine(s: Scan, line: int): int {
    if s.Newline? then line + 1 else line
  }

  /** The column after a scan: 1 after a newline, otherwise advanced by the
      scan's width. */
  function NextColumn(s: Scan, column: int): int {
    if s.Newline? then 1 else column + Width(s)
  }

  /** A scan at `index` accounts for the text it moves over: a newline is
      the end-of-statement token spelling it, blanks are blanks, and an
      emitted token spells text holding no newline. */
  ghost predicate Covers(code: string, index: nat, s: Scan) {
    match s
    case Newline(t) => t.kind == EndStmt && t.ctx.index == index && index < |code| && Spells(code, t)
    case Blank(w) => 0 < w && index + w <= |code| && BlankBetween(code, index, index + w)
    case Emit(t) =>
      t.kind != EndStmt && t.ctx.index == index && 0 < t.length && index + t.length <= |code|
      && Spells(code, t) && NewlineFree(code, index, index + t.length)
    case Stuck(_) => index <= |code|
  }

  predicate NoNewline(s: string) {
    forall k :: 0 <= k < |s| ==> s[k] != '\n'
  }

  predicate AllWordChars(s: string) {
    forall k :: 0 <= k < |s| ==> IsWordChar(s[k])
  }

  /** A numeral is made of word characters. */
  lemma NumeralIsWord(s: string, base: nat)
    requires IsNumeral(s, base)
    ensures AllWordChars(s)
  {
  }

  /** A hex literal is made of word characters. */
  lemma HexLiteralIsWord(s: string)
    requires IsHexLiteral(s)
    ensures AllWordChars(s)
  {
    NumeralIsWord(s[2..], 16);
    assert forall k :: 2 <= k < |s| ==> s[k] == s[2..][k - 2];
  }

  /** The offset just past the text a token stands for. */
  function End(t: Token): int {
    t.ctx.index + Extent(t)
  }

  /** Where the i-th gap of blanks starts: at `from` before the first token,
      after the previous token otherwise. */
  function GapStart(from: int, toks: seq<Token>, i: nat): int
    requires i <= |toks|
  {
    if i == 0 then from else End(toks[i - 1])
  }

  /** The tokens, in order, cover code[from..] exactly, with only blanks
      between and after them. */
  predicate Tiles(code: string, from: int, toks: seq<Token>) {
    (forall i {:trigger GapStart(from, toks, i)} :: 0 <= i < |toks| ==>
      BlankBetween(code, GapStart(from, toks, i), toks[i].ctx.index)
      && GapStart(from, toks, i) <= toks[i].ctx.index && End(toks[i]) <= |code|)
    && 0 <= GapStart(from, toks, |toks|) <= |code|
    && BlankBetween(code, GapStart(from, toks, |toks|), |code|)
  }

  /** Every token spells the text it covers. */
  ghost predicate AllSpell(code: string, toks: seq<Token>) {
    forall k {:trigger Spells(code, toks[k])} :: 0 <= k < |toks| ==> Spells(code, toks[k])
  }

  /** What the soundness of the lexer says about LexFrom's result. */
  ghost predicate SoundFrom(code: string, index: nat, r: Result<seq<Token>, Error>) {
    match r
    case Success(toks) => Tiles(code, index, toks) && AllSpell(code, toks)
    case Failure(_) => true
  }

  /** The number of newlines before offset i. */
  function NewlinesBefore(code: string, i: nat): nat
    requires i <= |code|
  {
    if i == 0 then 0
    else NewlinesBefore(code, i - 1) + (if code[i - 1] == '\n' then 1 else 0)
  }

  /** The 1-based line of offset i. */
  function LineAt(code: string, i: nat): int
    requires i <= |code|
  {
    1 + NewlinesBefore(code, i)
  }

  /** The 1-based column of offset i: one more than the number of characters
      since the last newline before it. */
  function ColumnAt(code: string, i: nat): int
    requires i <= |code|
  {
    if i == 0 then 1
    else if code[i - 1] == '\n' then 1
    else ColumnAt(code, i - 1) + 1
  }

  /** The position a token or error at offset i of `file` should carry. */
  predicate PlacedAt(code: string, file: string, ctx: Context) {
    0 <= ctx.index <= |code|
    && ctx == Context(LineAt(code, ctx.index), ColumnAt(code, ctx.index), ctx.index, file)
  }

  /** Every token carries its own offset's line and column. */
  predicate AllPlaced(code: string, file: string, toks: seq<Token>) {
    forall k :: 0 <= k < |toks| ==> PlacedAt(code, file, toks[k].ctx)
  }

  /** Tokens on success, and the error on failure, carry the line and column
      of their offset. */
  predicate PlacedFrom(code: string, file: string, r: Result<seq<Token>, Error>) {
    match r
    case Success(toks) => AllPlaced(code, file, toks)
    case Failure(e) => PlacedAt(code, file, e.pos)
  }
}
