/** Properties of the lexing loop as a whole: what the token list says about
    the text it came from. */
module LexerProperties {
  import opened Results
  import opened Tokens
  import opened Lexical
  import opened Lexer

  /** A token at `from` followed by a tiling of the rest tiles from `from`. */
  lemma TilesCons(code: string, from: nat, t: Token, rest: seq<Token>)
    requires t.ctx.index == from && from + Extent(t) <= |code|
    requires Tiles(code, End(t), rest)
    ensures Tiles(code, from, [t] + rest)
  {
    var toks := [t] + rest;
    forall i | 0 < i <= |toks|
      ensures GapStart(from, toks, i) == GapStart(End(t), rest, i - 1)
    {
    }
    forall i | 0 <= i < |toks|
      ensures BlankBetween(code, GapStart(from, toks, i), toks[i].ctx.index)
      ensures GapStart(from, toks, i) <= toks[i].ctx.index && End(toks[i]) <= |code|
    {
      if i > 0 {
        assert toks[i] == rest[i - 1];
      }
    }
  }

  /** A spelling token ahead of spelling tokens. */
  lemma AllSpellCons(code: string, t: Token, rest: seq<Token>)
    requires Spells(code, t) && AllSpell(code, rest)
    ensures AllSpell(code, [t] + rest)
  {
    var all := [t] + rest;
    forall k | 0 <= k < |all|
      ensures Spells(code, all[k])
    {
      if k == 0 {
        assert all[k] == t;
      } else {
        assert all[k] == rest[k - 1];
      }
    }
  }

  /** Blanks before a tiling extend it. */
  lemma TilesAfterBlanks(code: string, from: nat, width: nat, toks: seq<Token>)
    requires BlankBetween(code, from, from + width)
    requires Tiles(code, from + width, toks)
    ensures Tiles(code, from, toks)
  {
    forall i | 0 <= i < |toks|
      ensures BlankBetween(code, GapStart(from, toks, i), toks[i].ctx.index)
      ensures GapStart(from, toks, i) <= toks[i].ctx.index && End(toks[i]) <= |code|
    {
      assert GapStart(from + width, toks, i) <= toks[i].ctx.index;
    }
    assert GapStart(from + width, toks, |toks|) <= |code|;
  }

  /** One scan that did not stop the lexer, followed by a sound result,
      gives a sound result. */
  lemma PrependSound(code: string, index: nat, s: Scan, rest: Result<seq<Token>, Error>, r: Result<seq<Token>, Error>)
    ensures !s.Stuck? && Covers(code, index, s) && SoundFrom(code, index + Width(s), rest) && r == Prepend(s, rest)
      ==> SoundFrom(code, index, r)
  {
    if !s.Stuck? && Covers(code, index, s) && SoundFrom(code, index + Width(s), rest) && r == Prepend(s, rest) && rest.Success? {
      match s
      case Newline(t) =>
        TilesCons(code, index, t, rest.value);
        AllSpellCons(code, t, rest.value);
      case Emit(t) =>
        TilesCons(code, index, t, rest.value);
        AllSpellCons(code, t, rest.value);
      case Blank(w) => TilesAfterBlanks(code, index, w, rest.value);
    }
  }

  /** Every step covers the text it moves over. */
  ghost predicate StepCovers(code: string, step: (nat, int, int) --> Scan) {
    forall i: nat, l: int, c: int :: i < |code| && step.requires(i, l, c) ==> Covers(code, i, step(i, l, c))
  }

  /** A loop whose every step covers its text gives a sound result. */
  lemma {:induction false} LoopSound(code: string, step: (nat, int, int) --> Scan, index: nat, line: int, column: int)
    requires Advances(step, |code|) && StepCovers(code, step) && index <= |code|
    ensures SoundFrom(code, index, Loop(step, |code|, index, line, column))
    decreases |code| - index
  {
    if index < |code| {
      var s := step(index, line, column);
      if !s.Stuck? {
        var next := index + Width(s);
        LoopSound(code, step, next, NextLine(s, line), NextColumn(s, column));
        PrependSound(code, index, s, Loop(step, |code|, next, NextLine(s, line), NextColumn(s, column)),
          Loop(step, |code|, index, line, column));
      }
    }
  }

  /** Every token the lexer returns spells the text it covers, and the tokens
      with the blanks between them make up the whole input from `index` on. */
  lemma LexSound(code: string, file: string, index: nat, line: int, column: int)
    requires index <= |code|
    ensures SoundFrom(code, index, LexFrom(code, file, index, line, column))
  {
    StepperAdvances(code, file);
    forall i: nat, l: int, c: int | i < |code|
      ensures Covers(code, i, Stepper(code, file)(i, l, c))
    {
      LexStepCovers(code, file, i, l, c);
    }
    LoopSound(code, Stepper(code, file), index, line, column);
  }

  /** Over text holding no newline the line stays and the column advances
      by the distance covered. */
  lemma {:induction false} AdvanceNoNewline(code: string, i: nat, j: nat)
    requires i <= j <= |code| && NewlineFree(code, i, j)
    ensures LineAt(code, j) == LineAt(code, i)
    ensures ColumnAt(code, j) == ColumnAt(code, i) + (j - i)
    decreases j - i
  {
    if i < j {
      AdvanceNoNewline(code, i, j - 1);
    }
  }

  /** Blanks are not newlines. */
  lemma BlanksAreNewlineFree(code: string, i: nat, j: nat)
    requires i <= j <= |code| && BlankBetween(code, i, j)
    ensures NewlineFree(code, i, j)
  {
  }

  /** A scan that does not stop the lexer moves the line and column exactly
      as the text it moves over does. */
  lemma ScanAdvances(code: string, index: nat, s: Scan)
    requires !s.Stuck?
    requires s.Newline? ==> index < |code| && code[index] == '\n'
    requires s.Blank? ==> index + s.width <= |code| && BlankBetween(code, index, index + s.width)
    requires s.Emit? ==> index + s.token.length <= |code| && NewlineFree(code, index, index + s.token.length)
    ensures index + Width(s) <= |code|
    ensures NextLine(s, LineAt(code, index)) == LineAt(code, index + Width(s))
    ensures NextColumn(s, ColumnAt(code, index)) == ColumnAt(code, index + Width(s))
  {
    match s
    case Newline(t) =>
    case Blank(w) =>
      BlanksAreNewlineFree(code, index, index + w);
      AdvanceNoNewline(code, index, index + w);
    case Emit(t) =>
      AdvanceNoNewline(code, index, index + t.length);
  }

  /** One scan that did not stop the lexer, placed at its offset, followed by
      a placed result, gives a placed result. */
  lemma PrependPlaced(code: string, file: string, index: nat, s: Scan, rest: Result<seq<Token>, Error>, r: Result<seq<Token>, Error>)
    ensures !s.Stuck? && index <= |code|
      && ((s.Newline? || s.Emit?) ==> PlacedAt(code, file, s.token.ctx))
      && PlacedFrom(code, file, rest) && r == Prepend(s, rest)
      ==> PlacedFrom(code, file, r)
  {
    if !s.Stuck? && index <= |code| && ((s.Newline? || s.Emit?) ==> PlacedAt(code, file, s.token.ctx))
      && PlacedFrom(code, file, rest) && r == Prepend(s, rest) && rest.Success? && !s.Blank?
    {
      var toks := [s.token] + rest.value;
      forall k | 0 <= k < |toks|
        ensures PlacedAt(code, file, toks[k].ctx)
      {
        if k > 0 {
          assert toks[k] == rest.value[k - 1];
        }
      }
    }
  }

  /** A scan at offset i, made at that offset's line and column, carries
      them, and moves the line and column as the text it moves over does. */
  ghost predicate ScanPlaced(code: string, file: string, i: nat, s: Scan)
    requires i <= |code|
  {
    ScanCarries(code, file, s) && (!s.Stuck? ==> ScanMoves(code, i, s))
  }

  /** The token or error of a scan carries its offset's line and column. */
  ghost predicate ScanCarries(code: string, file: string, s: Scan) {
    ((s.Newline? || s.Emit?) ==> PlacedAt(code, file, s.token.ctx))
    && (s.Stuck? ==> PlacedAt(code, file, s.error.pos))
  }

  /** A scan from offset i moves the line and column as the text does. */
  ghost predicate ScanMoves(code: string, i: nat, s: Scan)
    requires i <= |code|
  {
    i + Width(s) <= |code|
    && NextLine(s, LineAt(code, i)) == LineAt(code, i + Width(s))
    && NextColumn(s, ColumnAt(code, i)) == ColumnAt(code, i + Width(s))
  }

  ghost predicate StepPlaces(code: string, file: string, step: (nat, int, int) --> Scan) {
    forall i: nat, l: int, c: int :: i < |code| && step.requires(i, l, c) && l == LineAt(code, i) && c == ColumnAt(code, i)
      ==> ScanPlaced(code, file, i, step(i, l, c))
  }

  /** LexStep, at the line and column of its offset, records them. */
  lemma LexStepCarries(code: string, file: string, index: nat, line: int, column: int)
    requires index < |code| && line == LineAt(code, index) && column == ColumnAt(code, index)
    ensures ScanCarries(code, file, LexStep(code, file, index, line, column))
  {
  }

  /** A token LexStep emits holds no newline. */
  lemma LexStepNewlineFree(code: string, file: string, index: nat, line: int, column: int)
    requires index < |code|
    ensures var s := LexStep(code, file, index, line, column);
      s.Emit? ==> index + s.token.length <= |code| && NewlineFree(code, index, index + s.token.length)
  {
    LexStepCovers(code, file, index, line, column);
  }

  /** LexStep moves the line and column as the text it moves over does. */
  lemma LexStepMoves(code: string, file: string, index: nat, line: int, column: int)
    requires index < |code|
    ensures var s := LexStep(code, file, index, line, column); !s.Stuck? ==> ScanMoves(code, index, s)
  {
    var s := LexStep(code, file, index, line, column);
    LexStepNewlineFree(code, file, index, line, column);
    if !s.Stuck? {
      ScanAdvances(code, index, s);
    }
  }

  /** A loop whose every step places what it returns gives a placed result. */
  lemma {:induction false} LoopPlaced(code: string, file: string, step: (nat, int, int) --> Scan, index: nat, line: int, column: int)
    requires Advances(step, |code|) && StepPlaces(code, file, step)
    requires index <= |code| && line == LineAt(code, index) && column == ColumnAt(code, index)
    ensures PlacedFrom(code, file, Loop(step, |code|, index, line, column))
    decreases |code| - index
  {
    if index < |code| {
      var s := step(index, line, column);
      if !s.Stuck? {
        var next := index + Width(s);
        LoopPlaced(code, file, step, next, NextLine(s, line), NextColumn(s, column));
        PrependPlaced(code, file, index, s, Loop(step, |code|, next, NextLine(s, line), NextColumn(s, column)),
          Loop(step, |code|, index, line, column));
      }
    }
  }

  /** Started at the line and column of its offset, the lexer gives every
      token, and the error it stops with, the line and column of its offset:
      lines count newlines and columns restart after each one. */
  lemma LexPlaced(code: string, file: string, index: nat, line: int, column: int)
    requires index <= |code| && line == LineAt(code, index) && column == ColumnAt(code, index)
    ensures PlacedFrom(code, file, LexFrom(code, file, index, line, column))
  {
    StepperAdvances(code, file);
    forall i: nat, l: int, c: int | i < |code| && l == LineAt(code, i) && c == ColumnAt(code, i)
      ensures ScanPlaced(code, file, i, Stepper(code, file)(i, l, c))
    {
      LexStepCarries(code, file, i, l, c);
      LexStepMoves(code, file, i, l, c);
    }
    LoopPlaced(code, file, Stepper(code, file), index, line, column);
  }

  /** A tiling by spelling tokens starts them at strictly increasing offsets,
      each at or after the end of the one before. */
  lemma {:induction false} TilesOrdered(code: string, from: int, toks: seq<Token>, i: nat, j: nat)
    requires Tiles(code, from, toks) && AllSpell(code, toks)
    requires i < j < |toks|
    ensures End(toks[i]) <= toks[j].ctx.index
    ensures toks[i].ctx.index < toks[j].ctx.index
    decreases j - i
  {
    assert Spells(code, toks[i]);
    assert GapStart(from, toks, i + 1) <= toks[i + 1].ctx.index;
    if i + 1 < j {
      TilesOrdered(code, from, toks, i + 1, j);
    }
  }

  /** On success the tokens start at strictly increasing offsets, each where
      the previous one's text ends or later, and none is a string literal. */
  lemma LexTokens(code: string, file: string)
    ensures var r := Lex(code, file); r.Success? ==>
      (forall i, j :: 0 <= i < j < |r.value| ==> End(r.value[i]) <= r.value[j].ctx.index)
      && (forall i, j :: 0 <= i < j < |r.value| ==> r.value[i].ctx.index < r.value[j].ctx.index)
      && (forall k :: 0 <= k < |r.value| ==> r.value[k].kind != LiteralStr)
  {
    LexSound(code, file, 0, 1, 1);
    var r := Lex(code, file);
    if r.Success? {
      forall i, j | 0 <= i < j < |r.value|
        ensures End(r.value[i]) <= r.value[j].ctx.index && r.value[i].ctx.index < r.value[j].ctx.index
      {
        TilesOrdered(code, 0, r.value, i, j);
      }
      forall k | 0 <= k < |r.value|
        ensures r.value[k].kind != LiteralStr
      {
        assert Spells(code, r.value[k]);
      }
    }
  }

  /** The states the loop visits from offset `index` at `line` and
      `column`: that state itself, then the state after each turn that does
      not stop, ending at the first stuck turn or at the end of the input. */
  ghost predicate Visits(step: (nat, int, int) --> Scan, n: nat, index: nat, line: int, column: int, p: nat, pl: int, pc: int)
    requires Advances(step, n) && index <= n
    decreases n - index
  {
    (p == index && pl == line && pc == column)
    || (index < n && !step(index, line, column).Stuck? &&
        var s := step(index, line, column);
        Visits(step, n, index + Width(s), NextLine(s, line), NextColumn(s, column), p, pl, pc))
  }

  /** The loop from the given state stops at a stuck state with error `e`:
      that state is visited, every state visited before it moves on, and
      none is visited after it. */
  ghost predicate FailsAt(step: (nat, int, int) --> Scan, n: nat, index: nat, line: int, column: int, e: Error)
    requires Advances(step, n) && index <= n
  {
    exists p: nat, pl: int, pc: int ::
      index <= p < n && Visits(step, n, index, line, column, p, pl, pc) && step(p, pl, pc) == Stuck(e)
      && (forall q: nat, ql: int, qc: int :: Visits(step, n, index, line, column, q, ql, qc) ==>
            q <= p && (q < p ==> !step(q, ql, qc).Stuck?))
  }

  /** The loop from the given state visits the end of the input and no stuck
      state on the way. */
  ghost predicate RunsThrough(step: (nat, int, int) --> Scan, n: nat, index: nat, line: int, column: int)
    requires Advances(step, n) && index <= n
  {
    (exists l: int, c: int :: Visits(step, n, index, line, column, n, l, c))
    && (forall q: nat, ql: int, qc: int :: Visits(step, n, index, line, column, q, ql, qc) && q < n ==>
          !step(q, ql, qc).Stuck?)
  }

  /** The loop fails exactly when it visits a stuck state: the error is that
      state's, every state visited before it moves on, and none is visited
      after it. A loop that succeeds reaches the end of the input without
      visiting a stuck state. */
  lemma {:induction false} LoopFailure(step: (nat, int, int) --> Scan, n: nat, index: nat, line: int, column: int)
    requires Advances(step, n) && index <= n
    ensures var r := Loop(step, n, index, line, column);
      r.Failure? ==> FailsAt(step, n, index, line, column, r.error)
    ensures var r := Loop(step, n, index, line, column);
      r.Success? ==> RunsThrough(step, n, index, line, column)
    decreases n - index, 1
  {
    if index < n {
      if step(index, line, column).Stuck? {
        assert Visits(step, n, index, line, column, index, line, column);
      } else {
        LoopFailureAfter(step, n, index, line, column);
      }
    } else {
      assert Visits(step, n, index, line, column, n, line, column);
    }
  }

  /** The inductive step of `LoopFailure`: after a turn that moves on, what
      holds from the next state holds from this one. */
  lemma {:induction false} LoopFailureAfter(step: (nat, int, int) --> Scan, n: nat, index: nat, line: int, column: int)
    requires Advances(step, n) && index < n && !step(index, line, column).Stuck?
    ensures var r := Loop(step, n, index, line, column);
      r.Failure? ==> FailsAt(step, n, index, line, column, r.error)
    ensures var r := Loop(step, n, index, line, column);
      r.Success? ==> RunsThrough(step, n, index, line, column)
    decreases n - index, 0
  {
    var s := step(index, line, column);
    var next, nl, nc := index + Width(s), NextLine(s, line), NextColumn(s, column);
    LoopFailure(step, n, next, nl, nc);
    LoopMovesOn(step, n, index, line, column);
    var tail := Loop(step, n, next, nl, nc);
    if tail.Failure? {
      var p: nat, pl: int, pc: int :| next <= p < n
        && Visits(step, n, next, nl, nc, p, pl, pc) && step(p, pl, pc) == Stuck(tail.error)
        && forall q: nat, ql: int, qc: int :: Visits(step, n, next, nl, nc, q, ql, qc) ==>
             q <= p && (q < p ==> !step(q, ql, qc).Stuck?);
      VisitsNext(step, n, index, line, column, p, pl, pc);
      forall q: nat, ql: int, qc: int | Visits(step, n, index, line, column, q, ql, qc)
        ensures q <= p && (q < p ==> !step(q, ql, qc).Stuck?)
      {
        VisitsNext(step, n, index, line, column, q, ql, qc);
      }
    } else {
      var l: int, c: int :| Visits(step, n, next, nl, nc, n, l, c);
      VisitsNext(step, n, index, line, column, n, l, c);
      forall q: nat, ql: int, qc: int | Visits(step, n, index, line, column, q, ql, qc) && q < n
        ensures !step(q, ql, qc).Stuck?
      {
        VisitsNext(step, n, index, line, column, q, ql, qc);
      }
    }
  }

  /** After a turn that moves on, the loop fails or succeeds as it does from
      the next state, with the same error. */
  lemma LoopMovesOn(step: (nat, int, int) --> Scan, n: nat, index: nat, line: int, column: int)
    requires Advances(step, n) && index < n && !step(index, line, column).Stuck?
    ensures var s := step(index, line, column);
      var tail := Loop(step, n, index + Width(s), NextLine(s, line), NextColumn(s, column));
      (Loop(step, n, index, line, column).Failure? <==> tail.Failure?)
      && (tail.Failure? ==> Loop(step, n, index, line, column).error == tail.error)
  {
  }

  /** The states visited from a state that moves on are that state and the
      states visited from the next one. */
  lemma VisitsNext(step: (nat, int, int) --> Scan, n: nat, index: nat, line: int, column: int, q: nat, ql: int, qc: int)
    requires Advances(step, n) && index < n && !step(index, line, column).Stuck?
    ensures var s := step(index, line, column);
      Visits(step, n, index, line, column, q, ql, qc) <==>
        (q == index && ql == line && qc == column)
        || Visits(step, n, index + Width(s), NextLine(s, line), NextColumn(s, column), q, ql, qc)
  {
  }

  /** The states lexing visits from the start of the text: offset 0 on line
      1, column 1, then the state after each turn that does not stop. */
  ghost predicate LexReached(code: string, file: string, p: nat, line: int, column: int) {
    StepperAdvances(code, file);
    Visits(Stepper(code, file), |code|, 0, 1, 1, p, line, column)
  }

  /** When lexing fails, the error belongs to the first stuck state lexing
      reaches: the error's own offset, line and column are a reached state,
      whose character is neither a newline nor a blank and where the token
      recogniser reports that error; every state reached before it moves on,
      and none is reached after it. When lexing succeeds, no reached state is
      stuck. */
  lemma LexError(code: string, file: string)
    ensures var r := Lex(code, file); r.Failure? ==>
      var p := r.error.pos.index;
      0 <= p < |code| && code[p] != '\n' && !IsBlank(code[p])
      && ScanToken(code[p..], r.error.pos) == Stuck(r.error)
      && r.error.pos.file == file
      && LexReached(code, file, p, r.error.pos.line, r.error.pos.column)
      && LexStep(code, file, p, r.error.pos.line, r.error.pos.column) == Stuck(r.error)
      && (forall q: nat, ql: int, qc: int :: LexReached(code, file, q, ql, qc) ==>
            q <= p && (q < p ==> !LexStep(code, file, q, ql, qc).Stuck?))
    ensures var r := Lex(code, file); r.Success? ==>
      forall q: nat, ql: int, qc: int :: LexReached(code, file, q, ql, qc) && q < |code| ==>
        !LexStep(code, file, q, ql, qc).Stuck?
  {
    StepperAdvances(code, file);
    var step := Stepper(code, file);
    LoopFailure(step, |code|, 0, 1, 1);
    var r := Lex(code, file);
    assert r == Loop(step, |code|, 0, 1, 1);
    forall q: nat, ql: int, qc: int
      ensures LexReached(code, file, q, ql, qc) == Visits(step, |code|, 0, 1, 1, q, ql, qc)
      ensures q < |code| ==> step(q, ql, qc) == LexStep(code, file, q, ql, qc)
    {
    }
    if r.Failure? {
      var i: nat, l: int, c: int :| i < |code| && Visits(step, |code|, 0, 1, 1, i, l, c)
        && step(i, l, c) == Stuck(r.error)
        && (forall q: nat, ql: int, qc: int :: Visits(step, |code|, 0, 1, 1, q, ql, qc) ==>
              q <= i && (q < i ==> !step(q, ql, qc).Stuck?));
      assert LexStep(code, file, i, l, c) == Stuck(r.error);
      LexStepStuck(code, file, i, l, c);
    }
  }

  /** Every token and every error names the lexed file and an offset inside
      the text, and errors are lexing errors. */
  lemma LexPositions(code: string, file: string)
    ensures var r := Lex(code, file); r.Success? ==> forall k :: 0 <= k < |r.value| ==>
      r.value[k].ctx.file == file && 0 <= r.value[k].ctx.index < |code|
    ensures var r := Lex(code, file); r.Failure? ==>
      r.error.phase == Lexing && r.error.pos.file == file && 0 <= r.error.pos.index < |code|
  {
    LexSound(code, file, 0, 1, 1);
    LexPlaced(code, file, 0, 1, 1);
    LexError(code, file);
    var r := Lex(code, file);
    if r.Success? {
      forall k | 0 <= k < |r.value|
        ensures r.value[k].ctx.file == file && 0 <= r.value[k].ctx.index < |code|
      {
        assert Spells(code, r.value[k]);
        assert PlacedAt(code, file, r.value[k].ctx);
      }
    }
  }
}
