/** Answers written in the format the evaluator's and the trainer's prompts
    ask for, and proofs that both readers recover what was written. */
module Rendered {
  import opened Lexical
  import opened Coordinates
  import opened EvalResponse
  import opened RewardResponse

  /* ------------------------------------------------------------ the boxes */

  /** \boxed{下一步颜色:c} */
  function ColourText(c: char): string { ColourLabel + [c] + "}" }

  /** \boxed{下一步位置:m} */
  function PositionText(m: string): string { CoordLabel + m + "}" }

  /** \boxed{下一步胜率:w.f%}: a win rate written as a percentage. */
  function RateText(w: string, f: string): string { RateLabel + w + "." + f + "%}" }

  /** \boxed{下一步:m}, the shorter form the evaluator falls back on. */
  function FallbackText(m: string): string { FallbackLabel + ":" + m + "}" }

  /** \boxed{m}, the old form the reward reader falls back on. */
  function OldText(m: string): string { OldCoordLabel + m + "}" }

  /** The reasoning block and the blank line after it. */
  function Thinking(reasoning: string): string {
    ReasoningOpen + "\n" + reasoning + "\n" + ReasoningClose + "\n\n"
  }

  /** The inside of the answer block: the three boxes, one per line. */
  function Boxes(c: char, m: string, w: string, f: string): string {
    "\n" + ColourText(c) + "\n" + PositionText(m) + "\n" + RateText(w, f) + "\n\n"
  }

  /** A whole reply in the requested format. */
  function Reply(reasoning: string, c: char, m: string, w: string, f: string): string {
    Thinking(reasoning) + AnswerOpen + Boxes(c, m, w, f) + AnswerClose + "\n"
  }

  predicate IsColour(c: char) { c == BlackGlyph || c == WhiteGlyph }

  /** The digits of a percentage written as whole.frac. */
  predicate IsRateNumeral(w: string, f: string) {
    |w| > 0 && |f| > 0 && AllDigits(w) && AllDigits(f)
  }

  /* ------------------------------------------------- where matches start */

  lemma {:induction false} MoveBoxStarts(tag: string)
    requires tag != []
    ensures forall s :: MoveBox(tag, s).Some? ==> s != [] && s[0] == tag[0]
  {
    forall s | MoveBox(tag, s).Some?
      ensures s != [] && s[0] == tag[0]
    {
      assert tag <= s;
    }
  }

  lemma {:induction false} WinRateBoxStarts()
    ensures forall s :: WinRateBox(s).Some? ==> s != [] && s[0] == '\\'
  {
    forall s | WinRateBox(s).Some?
      ensures s != [] && s[0] == '\\'
    {
      assert WinRateLabel <= s;
    }
  }

  lemma {:induction false} ColourBoxStarts()
    ensures forall s :: ColourBox(s).Some? ==> s != [] && s[0] == '\\'
  {
    forall s | ColourBox(s).Some?
      ensures s != [] && s[0] == '\\'
    {
      assert ColourLabel <= s;
    }
  }

  lemma {:induction false} CoordBoxStarts(tag: string)
    requires tag != []
    ensures forall s :: CoordBox(tag, s).Some? ==> s != [] && s[0] == tag[0]
  {
    forall s | CoordBox(tag, s).Some?
      ensures s != [] && s[0] == tag[0]
    {
      assert tag <= s;
    }
  }

  lemma {:induction false} RateBoxStarts()
    ensures forall s :: RateBox(s).Some? ==> s != [] && s[0] == '\\'
  {
    forall s | RateBox(s).Some?
      ensures s != [] && s[0] == '\\'
    {
      assert RateLabel <= s;
    }
  }

  /* ---------------------------------------------- one box read at a time */

  /** The evaluator's move box, tag then ':' then the move then '}'. */
  lemma {:induction false} MoveBoxReads(tag: string, m: string, rest: string)
    requires IsExtractedMove(m)
    ensures MoveBox(tag, tag + ":" + m + "}" + rest) == Some(m)
  {
    var s := tag + ":" + m + "}" + rest;
    assert s[..|tag|] == tag;
    assert s[|tag|..] == ":" + (m + ("}" + rest));
    MoveAfterTagReads(m, rest);
  }

  lemma {:induction false} MoveAfterTagReads(m: string, rest: string)
    requires IsExtractedMove(m)
    ensures MoveAfterTag(":" + (m + ("}" + rest))) == Some(m)
  {
    var u := m + ("}" + rest);
    assert u[0] == m[0];
    assert u[1..] == m[1..] + ("}" + rest);
    MoveAfterColon(u);
    MoveDigitsReads(m, rest);
  }

  /** A colon right after the label, then the move's letter right after it. */
  lemma {:induction false} MoveAfterColon(u: string)
    requires u != [] && IsBoardLetter(u[0])
    ensures MoveAfterTag(":" + u) == MoveDigits(u[0], u[1..])
  {
    var t := ":" + u;
    NoSpaceRun(t);
    assert t[1..] == u;
    NoSpaceRun(u);
    MoveAfterParts(t, u);
  }

  /** MoveAfterTag when neither the colon nor the letter has white space
      before it. */
  lemma {:induction false} MoveAfterParts(t: string, u: string)
    requires t != [] && t[0] == ':' && SpaceRun(t) == 0 && t[1..] == u
    requires u != [] && IsBoardLetter(u[0]) && SpaceRun(u) == 0
    ensures MoveAfterTag(t) == MoveDigits(u[0], u[1..])
  {
  }

  /** A text starting with a colon or a board letter has no leading white
      space. */
  lemma {:induction false} NoSpaceRun(s: string)
    requires s != [] && (s[0] == ':' || IsBoardLetter(s[0]))
    ensures SpaceRun(s) == 0
  {
    assert !IsSpace(s[0]);
  }

  lemma {:induction false} MoveDigitsReads(m: string, rest: string)
    requires IsExtractedMove(m)
    ensures MoveDigits(m[0], m[1..] + ("}" + rest)) == Some(m)
  {
    var v := m[1..] + ("}" + rest);
    DigitRunAll(m[1..], "}" + rest);
    assert v[|m| - 1..] == "}" + rest;
    assert SpaceRun("}" + rest) == 0;
    assert [m[0]] + v[..|m| - 1] == m;
  }

  /** The position box in the format asked for is the evaluator's first form. */
  lemma {:induction false} PositionTextShape(m: string)
    ensures PositionText(m) == PositionLabel + ":" + m + "}"
  {
    assert CoordLabel == PositionLabel + ":";
  }

  lemma {:induction false} ColourBoxReads(c: char, rest: string)
    requires IsColour(c)
    ensures ColourBox(ColourText(c) + rest) == Some(c)
  {
    var s := ColourText(c) + rest;
    assert s[..|ColourLabel|] == ColourLabel;
    assert s[|ColourLabel|] == c && s[|ColourLabel| + 1] == '}';
  }

  lemma {:induction false} CoordBoxReads(tag: string, m: string, rest: string)
    requires IsCoordinate(m)
    ensures CoordBox(tag, tag + m + "}" + rest) == Some(m)
  {
    var s := tag + m + "}" + rest;
    assert s[..|tag|] == tag;
    var t := s[|tag|..];
    assert t == m + ("}" + rest);
    assert t[1..] == m[1..] + ("}" + rest);
    DigitRunAll(m[1..], "}" + rest);
    assert t[..|m|] == m;
  }

  /** The run over [0-9.] that the evaluator's win-rate pattern takes. */
  lemma {:induction false} NumeralRunAll(d: string, t: string)
    requires forall i :: 0 <= i < |d| ==> IsDigit(d[i]) || d[i] == '.'
    requires t != [] && !(IsDigit(t[0]) || t[0] == '.')
    ensures NumeralRun(d + t) == |d|
  {
    if d != [] {
      assert (d + t)[1..] == d[1..] + t;
      NumeralRunAll(d[1..], t);
    }
  }

  lemma {:induction false} DropPercentLast(x: string)
    requires '%' !in x
    ensures DropPercent(x + "%") == x
  {
    if x != [] {
      assert (x + "%")[1..] == x[1..] + "%";
      DropPercentLast(x[1..]);
    }
  }

  /** float() of whole.frac is the exact decimal. */
  lemma {:induction false} FloatOfNumeral(w: string, f: string)
    requires IsRateNumeral(w, f)
    ensures ParseFloatRun(w + "." + f) == Some(DecimalReal(w, f))
  {
    var s := w + "." + f;
    assert '.' !in w by {
      assert forall i :: 0 <= i < |w| ==> IsDigit(w[i]);
    }
    IndexOfAfter(w, '.', f);
    assert s[..|w|] == w && s[|w| + 1..] == f;
  }

  /** The first c in w + [c] + rest is the one after w when w holds none. */
  lemma {:induction false} IndexOfAfter(w: string, c: char, rest: string)
    requires c !in w
    ensures IndexOf(w + [c] + rest, c) == Some(|w|)
  {
    if w != [] {
      assert (w + [c] + rest)[1..] == w[1..] + [c] + rest;
      IndexOfAfter(w[1..], c, rest);
    }
  }

  lemma {:induction false} WinRateBoxReads(w: string, f: string, rest: string)
    requires IsRateNumeral(w, f)
    ensures WinRateBox(RateText(w, f) + rest) == Some(w + "." + f + "%")
  {
    var x := w + "." + f;
    var t := ":" + (x + ("%" + ("}" + rest)));
    RateTextSplit(w, f, rest);
    CutPrefix(WinRateLabel, t);
    assert forall i :: 0 <= i < |x| ==> IsDigit(x[i]) || x[i] == '.';
    WinRateAfterTagReads(x, rest);
  }

  /** The win-rate box in the format asked for, cut after the evaluator's
      label. */
  lemma {:induction false} RateTextSplit(w: string, f: string, rest: string)
    ensures RateText(w, f) + rest == WinRateLabel + (":" + ((w + "." + f) + ("%" + ("}" + rest))))
  {
    assert RateLabel == WinRateLabel + ":";
    assert "%}" == "%" + "}";
    Regroup8(WinRateLabel, ":", w, ".", f, "%", "}", rest);
  }

  lemma {:induction false} Regroup8(a: string, b: string, c: string, d: string, e: string, f: string, g: string, h: string)
    ensures (a + b) + c + d + e + (f + g) + h == a + (b + ((c + d + e) + (f + (g + h))))
  {
  }

  /** What follows the label when the value starts with a digit. */
  lemma {:induction false} WinRateAfterTagReads(x: string, rest: string)
    requires forall i :: 0 <= i < |x| ==> IsDigit(x[i]) || x[i] == '.'
    requires x != [] && IsDigit(x[0])
    ensures WinRateAfterTag(":" + (x + ("%" + ("}" + rest)))) == Some(x + "%")
  {
    var t := ":" + (x + ("%" + ("}" + rest)));
    assert SpaceRun(t) == 0;
    var v := t[1..];
    assert v == x + ("%" + ("}" + rest));
    assert SpaceRun(v) == 0 by {
      assert v[0] == x[0];
    }
    WinRateValueReads(x, rest);
  }

  lemma {:induction false} WinRateValueReads(x: string, rest: string)
    requires forall i :: 0 <= i < |x| ==> IsDigit(x[i]) || x[i] == '.'
    requires x != []
    ensures WinRateValue(x + ("%" + ("}" + rest))) == Some(x + "%")
  {
    var v := x + ("%" + ("}" + rest));
    NumeralRunAll(x, "%" + ("}" + rest));
    assert v[|x|] == '%';
    assert v[|x| + 1..] == "}" + rest;
    assert SpaceRun("}" + rest) == 0;
    assert v[..|x| + 1] == x + "%";
  }

  lemma {:induction false} RateBoxReads(w: string, f: string, rest: string)
    requires IsRateNumeral(w, f)
    ensures RateBox(RateText(w, f) + rest) == Some(DecimalReal(w, f))
  {
    var s := RateText(w, f) + rest;
    assert s[..|RateLabel|] == RateLabel;
    var t := s[|RateLabel|..];
    assert t == w + ("." + (f + ("%}" + rest)));
    DigitRunAll(w, "." + (f + ("%}" + rest)));
    var u := t[|w| + 1..];
    assert u == f + ("%}" + rest);
    DigitRunAll(f, "%}" + rest);
    assert t[..|w|] == w && u[..|f|] == f;
  }

  /* ------------------------------------------------------ the pieces */

  /** What follows the win-rate box. */
  const Tail: string := "\n\n" + AnswerClose + "\n"

  /** The reply up to its first box. */
  function Head(reasoning: string): string { Thinking(reasoning) + AnswerOpen + "\n" }

  lemma {:induction false} ReplyShape(reasoning: string, c: char, m: string, w: string, f: string)
    ensures Reply(reasoning, c, m, w, f)
         == Head(reasoning) + (ColourText(c) + ("\n" + (PositionText(m) + ("\n" + (RateText(w, f) + Tail)))))
  {
    Regroup9(Thinking(reasoning), AnswerOpen, "\n", ColourText(c), PositionText(m), RateText(w, f),
             "\n\n", AnswerClose, "\n");
  }

  lemma {:induction false} Regroup9(t: string, o: string, n: string, x: string, y: string, z: string,
                                    e: string, k: string, l: string)
    ensures t + o + (n + x + n + y + n + z + e) + k + l
         == (t + o + n) + (x + (n + (y + (n + (z + (e + k + l))))))
  {
  }

  lemma {:induction false} BoxesShape(c: char, m: string, w: string, f: string)
    ensures Boxes(c, m, w, f)
         == "\n" + (ColourText(c) + ("\n" + (PositionText(m) + ("\n" + (RateText(w, f) + "\n\n")))))
  {
  }

  lemma {:induction false} ReplyBlocksShape(reasoning: string, c: char, m: string, w: string, f: string)
    ensures Reply(reasoning, c, m, w, f)
         == ReasoningOpen + (("\n" + reasoning + "\n") + (ReasoningClose + ("\n\n"
            + (AnswerOpen + (Boxes(c, m, w, f) + (AnswerClose + "\n"))))))
  {
    Regroup10(ReasoningOpen, "\n", reasoning, "\n", ReasoningClose, "\n\n", AnswerOpen, Boxes(c, m, w, f),
              AnswerClose, "\n");
  }

  lemma {:induction false} Regroup10(a: string, b: string, c: string, d: string, e: string, g: string,
                                     o: string, x: string, z: string, l: string)
    ensures (a + b + c + d + e + g) + o + x + z + l == a + ((b + c + d) + (e + (g + (o + (x + (z + l))))))
  {
  }

  lemma {:induction false} HeadPlain(reasoning: string)
    requires '\\' !in reasoning
    ensures '\\' !in Head(reasoning)
  {
  }

  /** The colour box cannot be mistaken for any other box. */
  lemma {:induction false} ColourSkippable(c: char)
    requires IsColour(c)
    ensures Skippable(ColourText(c), PositionLabel) && Skippable(ColourText(c), WinRateLabel)
    ensures Skippable(ColourText(c), CoordLabel) && Skippable(ColourText(c), RateLabel)
  {
    var x := ColourText(c);
    assert x[1..] == ColourLabel[1..] + [c] + "}";
    assert x[..12][10] != PositionLabel[10] && x[..12][10] != WinRateLabel[10];
    assert x[..13][10] != CoordLabel[10] && x[..13][10] != RateLabel[10];
  }

  /** The position box cannot be mistaken for a win-rate box. */
  lemma {:induction false} PositionSkippable(m: string)
    requires IsCoordinate(m)
    ensures Skippable(PositionText(m), WinRateLabel) && Skippable(PositionText(m), RateLabel)
  {
    var x := PositionText(m);
    assert x[1..] == CoordLabel[1..] + m + "}";
    assert forall i :: 1 <= i < |m| ==> IsDigit(m[i]);
    assert x[..12][10] != WinRateLabel[10] && x[..13][10] != RateLabel[10];
  }

  /** The boxes hold no '<', so no tag is found inside an answer. */
  lemma {:induction false} BoxesPlain(c: char, m: string, w: string, f: string)
    requires IsColour(c) && IsCoordinate(m) && IsRateNumeral(w, f)
    ensures '<' !in Boxes(c, m, w, f)
  {
    assert forall i :: 1 <= i < |m| ==> IsDigit(m[i]);
    assert forall i :: 0 <= i < |w| ==> IsDigit(w[i]);
    assert forall i :: 0 <= i < |f| ==> IsDigit(f[i]);
  }

  /* ------------------------------------------------- following a search */


  lemma {:induction false} FoundHere<T>(x: string, m: string -> Option<T>, v: T)
    requires m(x) == Some(v)
    ensures Yields(Search(x, m), v)
  {
  }

  lemma {:induction false} SkipFreeKeeps<T>(a: string, x: string, m: string -> Option<T>, c: char, v: T)
    requires forall s :: m(s).Some? ==> s != [] && s[0] == c
    requires c !in a && Yields(Search(x, m), v)
    ensures Yields(Search(a + x, m), v)
  {
    SearchSkipFree(a, x, m, c);
  }

  lemma {:induction false} SkipBoxKeeps<T>(box: string, x: string, m: string -> Option<T>, tag: string, v: T)
    requires forall s :: m(s).Some? ==> tag <= s
    requires Skippable(box, tag) && Yields(Search(x, m), v)
    ensures Yields(Search(box + x, m), v)
  {
    SearchSkipBox(box, x, m, tag);
  }

  /* ---------------------------------------------- what the evaluator reads */

  /** The evaluator reads the move written in the position box of a reply
      whose reasoning holds no backslash. */
  lemma {:induction false} EvalReadsMove(reasoning: string, c: char, m: string, w: string, f: string)
    requires '\\' !in reasoning && IsColour(c) && IsExtractedMove(m)
    ensures ExtractMove(Reply(reasoning, c, m, w, f)) == m
  {
    var M := s => MoveBox(PositionLabel, s);
    MoveBoxStarts(PositionLabel);
    var x4 := "\n" + (RateText(w, f) + Tail);
    var x3 := PositionText(m) + x4;
    var x2 := "\n" + x3;
    PositionTextShape(m);
    MoveBoxReads(PositionLabel, m, x4);
    FoundHere(x3, M, m);
    SkipFreeKeeps("\n", x3, M, '\\', m);
    ColourSkippable(c);
    SkipBoxKeeps(ColourText(c), x2, M, PositionLabel, m);
    HeadPlain(reasoning);
    SkipFreeKeeps(Head(reasoning), ColourText(c) + x2, M, '\\', m);
    ReplyShape(reasoning, c, m, w, f);
  }

  /** The evaluator's win-rate search stops at the win-rate box of a reply. */
  lemma {:induction false} EvalFindsWinRateBox(reasoning: string, c: char, m: string, w: string, f: string)
    requires '\\' !in reasoning && IsColour(c) && IsCoordinate(m) && IsRateNumeral(w, f)
    ensures Yields(Search(Reply(reasoning, c, m, w, f), WinRateBox), w + "." + f + "%")
  {
    var g := w + "." + f + "%";
    WinRateBoxStarts();
    var x5 := RateText(w, f) + Tail;
    var x4 := "\n" + x5;
    var x3 := PositionText(m) + x4;
    var x2 := "\n" + x3;
    WinRateBoxReads(w, f, Tail);
    FoundHere(x5, WinRateBox, g);
    SkipFreeKeeps("\n", x5, WinRateBox, '\\', g);
    PositionSkippable(m);
    SkipBoxKeeps(PositionText(m), x4, WinRateBox, WinRateLabel, g);
    SkipFreeKeeps("\n", x3, WinRateBox, '\\', g);
    ColourSkippable(c);
    SkipBoxKeeps(ColourText(c), x2, WinRateBox, WinRateLabel, g);
    HeadPlain(reasoning);
    SkipFreeKeeps(Head(reasoning), ColourText(c) + x2, WinRateBox, '\\', g);
    ReplyShape(reasoning, c, m, w, f);
  }

  /** The evaluator reads the percentage written in the win-rate box as a
      fraction. */
  lemma {:induction false} EvalReadsWinRate(reasoning: string, c: char, m: string, w: string, f: string)
    requires '\\' !in reasoning && IsColour(c) && IsCoordinate(m) && IsRateNumeral(w, f)
    ensures ExtractWinRate(Reply(reasoning, c, m, w, f)) == Some(DecimalReal(w, f) / 100.0)
  {
    EvalFindsWinRateBox(reasoning, c, m, w, f);
    WinRateOfBox(Reply(reasoning, c, m, w, f), w, f);
  }

  /** A win rate written as a percentage is read as a fraction. */
  lemma {:induction false} WinRateOfBox(x: string, w: string, f: string)
    requires IsRateNumeral(w, f) && Yields(Search(x, WinRateBox), w + "." + f + "%")
    ensures ExtractWinRate(x) == Some(DecimalReal(w, f) / 100.0)
  {
    PercentRead(w, f);
  }

  lemma {:induction false} PercentRead(w: string, f: string)
    requires IsRateNumeral(w, f)
    ensures WinRateValueOf(w + "." + f + "%") == Some(DecimalReal(w, f) / 100.0)
  {
    NoDigitIn(w, '%');
    NoDigitIn(f, '%');
    assert '%' !in w + "." + f;
    FloatOfNumeral(w, f);
    PercentOf(w + "." + f, DecimalReal(w, f));
  }

  /** A value followed by '%' is read as that value divided by 100. */
  lemma {:induction false} PercentOf(x: string, v: real)
    requires '%' !in x && ParseFloatRun(x) == Some(v)
    ensures WinRateValueOf(x + "%") == Some(v / 100.0)
  {
    assert (x + "%")[|x|] == '%';
    DropPercentLast(x);
  }

  /** A win-rate box holding a plain fraction, without '%'. */
  function FractionText(w: string, f: string): string { WinRateLabel + ":" + w + "." + f + "}" }

  /** A win rate written as a plain fraction is read as written. */
  lemma {:induction false} WinRateOfFractionBox(x: string, w: string, f: string)
    requires IsRateNumeral(w, f) && Yields(Search(x, WinRateBox), w + "." + f)
    ensures ExtractWinRate(x) == Some(DecimalReal(w, f))
  {
    NoDigitIn(w, '%');
    NoDigitIn(f, '%');
    assert '%' !in w + "." + f;
    FloatOfNumeral(w, f);
  }

  lemma {:induction false} FractionValueReads(x: string, rest: string)
    requires forall i :: 0 <= i < |x| ==> IsDigit(x[i]) || x[i] == '.'
    requires x != []
    ensures WinRateValue(x + ("}" + rest)) == Some(x)
  {
    var v := x + ("}" + rest);
    NumeralRunAll(x, "}" + rest);
    assert v[|x|] == '}';
    assert v[|x|..] == "}" + rest;
    assert SpaceRun("}" + rest) == 0;
    assert v[..|x|] == x;
  }

  lemma {:induction false} FractionBoxReads(w: string, f: string, rest: string)
    requires IsRateNumeral(w, f)
    ensures WinRateBox(FractionText(w, f) + rest) == Some(w + "." + f)
  {
    var x := w + "." + f;
    var t := ":" + (x + ("}" + rest));
    assert FractionText(w, f) + rest == WinRateLabel + t;
    CutPrefix(WinRateLabel, t);
    assert forall i :: 0 <= i < |x| ==> IsDigit(x[i]) || x[i] == '.';
    assert SpaceRun(t) == 0;
    var v := t[1..];
    assert v == x + ("}" + rest);
    assert SpaceRun(v) == 0 by {
      assert v[0] == w[0];
    }
    FractionValueReads(x, rest);
  }

  /** The evaluator reads a plain fraction in a win-rate box that follows a
      position box. */
  lemma {:induction false} EvalReadsFraction(m: string, w: string, f: string, rest: string)
    requires IsCoordinate(m) && IsRateNumeral(w, f)
    ensures ExtractWinRate(PositionText(m) + ("\n" + (FractionText(w, f) + rest))) == Some(DecimalReal(w, f))
  {
    var g := w + "." + f;
    var x5 := FractionText(w, f) + rest;
    var x4 := "\n" + x5;
    WinRateBoxStarts();
    FractionBoxReads(w, f, rest);
    FoundHere(x5, WinRateBox, g);
    SkipFreeKeeps("\n", x5, WinRateBox, '\\', g);
    PositionSkippable(m);
    SkipBoxKeeps(PositionText(m), x4, WinRateBox, WinRateLabel, g);
    WinRateOfFractionBox(PositionText(m) + x4, w, f);
  }

  /** A character that is not a digit does not occur in a string of digits. */
  lemma {:induction false} NoDigitIn(d: string, c: char)
    requires AllDigits(d) && !IsDigit(c)
    ensures c !in d
  {
    assert forall i :: 0 <= i < |d| ==> d[i] != c;
  }

  /* ------------------------------------------ what the reward reader reads */

  /** The reward reader takes the text after the first assistant marker:
      with no marker starting inside the prompt, that is the text after the
      marker written after it. */
  lemma {:induction false} AssistantPartOf(prompt: string, content: string)
    requires Find(prompt + AssistantMarker, AssistantMarker) == Some(|prompt|)
    ensures AssistantPart(prompt + AssistantMarker + content) == content
  {
    var s := prompt + AssistantMarker + content;
    FindExtends(prompt + AssistantMarker, content, AssistantMarker);
    assert s[|prompt| + |AssistantMarker|..] == content;
  }

  /** A prompt without '<' holds no start of the marker. */
  lemma {:induction false} MarkerFirstPlain(prompt: string)
    requires '<' !in prompt
    ensures Find(prompt + AssistantMarker, AssistantMarker) == Some(|prompt|)
  {
    assert AssistantMarker + [] == AssistantMarker;
    FindSkipFree(prompt, AssistantMarker, AssistantMarker);
    FindHere(AssistantMarker, []);
  }

  /* ------------------------------------------------ chat-template prompts */

  const TurnOpen: string := "<|im_start|>"
  const TurnClose: string := "<|im_end|>\n"

  /** One turn of a chat-template prompt: the role on its own line, the text,
      and the end-of-turn tag. */
  function Turn(role: string, text: string): string {
    TurnOpen + role + "\n" + text + TurnClose
  }

  /** A prompt of several turns, in order. */
  function Chat(turns: seq<(string, string)>): string
    decreases |turns|
  {
    if turns == [] then [] else Turn(turns[0].0, turns[0].1) + Chat(turns[1..])
  }

  /** No '<' of the text is followed by '|', as in tags like <reasoning>. */
  predicate BarFree(t: string) {
    forall i :: 0 <= i < |t| - 1 && t[i] == '<' ==> t[i + 1] != '|'
  }

  /** A role other than the assistant's: it does not begin with 'a'. */
  predicate IsOtherRole(role: string) {
    role != [] && role[0] != 'a' && '<' !in role
  }

  /** The head of a turn holds no start of the marker. */
  lemma {:induction false} TurnHeadSkipped(role: string, b: string)
    requires IsOtherRole(role)
    ensures Find((TurnOpen + role + "\n") + b, AssistantMarker)
         == Offset(Find(b, AssistantMarker), |TurnOpen + role + "\n"|)
  {
    var a := TurnOpen + role + "\n";
    forall j | 0 <= j < |a|
      ensures !OccursAt(a + b, j, AssistantMarker)
    {
      if j == 0 {
        MismatchNoOccur(a + b, j, AssistantMarker, 12);
      } else {
        assert (a + b)[j] == a[j];
        MismatchNoOccur(a + b, j, AssistantMarker, 0);
      }
    }
    FindSkipNoOccur(a, b, AssistantMarker);
  }

  /** The text of a turn holds no start of the marker when a tag follows it. */
  lemma {:induction false} TurnTextSkipped(text: string, b: string)
    requires BarFree(text) && b != [] && b[0] == '<'
    ensures Find(text + b, AssistantMarker) == Offset(Find(b, AssistantMarker), |text|)
  {
    forall j | 0 <= j < |text|
      ensures !OccursAt(text + b, j, AssistantMarker)
    {
      assert (text + b)[j] == text[j];
      if text[j] != '<' {
        MismatchNoOccur(text + b, j, AssistantMarker, 0);
      } else if j + 1 < |text| {
        assert (text + b)[j + 1] == text[j + 1];
        MismatchNoOccur(text + b, j, AssistantMarker, 1);
      } else {
        assert (text + b)[j + 1] == b[0];
        MismatchNoOccur(text + b, j, AssistantMarker, 1);
      }
    }
    FindSkipNoOccur(text, b, AssistantMarker);
  }

  /** The end-of-turn tag holds no start of the marker. */
  lemma {:induction false} TurnCloseSkipped(b: string)
    ensures Find(TurnClose + b, AssistantMarker) == Offset(Find(b, AssistantMarker), |TurnClose|)
  {
    forall j | 0 <= j < |TurnClose|
      ensures !OccursAt(TurnClose + b, j, AssistantMarker)
    {
      assert (TurnClose + b)[j] == TurnClose[j];
      if j == 0 {
        assert (TurnClose + b)[5] == TurnClose[5];
        MismatchNoOccur(TurnClose + b, j, AssistantMarker, 5);
      } else {
        MismatchNoOccur(TurnClose + b, j, AssistantMarker, 0);
      }
    }
    FindSkipNoOccur(TurnClose, b, AssistantMarker);
  }

  /** The text and end tag of a turn hold no start of the marker. */
  lemma {:induction false} TurnBodySkipped(text: string, b: string)
    requires BarFree(text)
    ensures Find(text + (TurnClose + b), AssistantMarker)
         == Offset(Find(b, AssistantMarker), |text| + |TurnClose|)
  {
    TurnCloseSkipped(b);
    TurnTextSkipped(text, TurnClose + b);
    OffsetSum(Find(b, AssistantMarker), |TurnClose|, |text|);
  }

  /** A whole turn of another role holds no start of the marker. */
  lemma {:induction false} TurnSkipped(role: string, text: string, b: string)
    requires IsOtherRole(role) && BarFree(text)
    ensures Find(Turn(role, text) + b, AssistantMarker)
         == Offset(Find(b, AssistantMarker), |Turn(role, text)|)
  {
    TurnFindSplit(role, text, b);
    TurnBodySkipped(text, b);
    TurnHeadSkipped(role, text + (TurnClose + b));
    OffsetSum(Find(b, AssistantMarker), |text| + |TurnClose|, |TurnOpen + role + "\n"|);
  }

  /** The search through a turn is the search through its three pieces. */
  lemma {:induction false} TurnFindSplit(role: string, text: string, b: string)
    ensures Find(Turn(role, text) + b, AssistantMarker)
         == Find((TurnOpen + role + "\n") + (text + (TurnClose + b)), AssistantMarker)
    ensures |Turn(role, text)| == |text| + |TurnClose| + |TurnOpen + role + "\n"|
  {
    TurnJoin(role, text, b);
  }

  /** Offsets added one after another add up. */
  lemma {:induction false} OffsetSum(r: Option<nat>, m: nat, n: nat)
    ensures Offset(Offset(r, m), n) == Offset(r, m + n)
  {
  }

  lemma {:induction false} TurnJoin(role: string, text: string, b: string)
    ensures Turn(role, text) + b == (TurnOpen + role + "\n") + (text + (TurnClose + b))
    ensures |Turn(role, text)| == |TurnOpen + role + "\n"| + |text| + |TurnClose|
  {
    var h := TurnOpen + role + "\n";
    Regroup3(h + text, TurnClose, b);
    Regroup3(h, text, TurnClose + b);
  }

  /** After a chat-template prompt of other roles' turns whose texts are
      bar-free, the first assistant marker is the one that follows it. */
  lemma {:induction false} ChatMarkerFirst(turns: seq<(string, string)>)
    requires forall i :: 0 <= i < |turns| ==> IsOtherRole(turns[i].0) && BarFree(turns[i].1)
    ensures Find(Chat(turns) + AssistantMarker, AssistantMarker) == Some(|Chat(turns)|)
    decreases |turns|
  {
    if turns == [] {
      assert Chat(turns) + AssistantMarker == AssistantMarker + [];
      FindHere(AssistantMarker, []);
    } else {
      var t := Turn(turns[0].0, turns[0].1);
      ChatMarkerFirst(turns[1..]);
      Regroup3(t, Chat(turns[1..]), AssistantMarker);
      TurnSkipped(turns[0].0, turns[0].1, Chat(turns[1..]) + AssistantMarker);
    }
  }

  /** A block whose body holds no character that starts the closing tag is
      read whole. */
  lemma {:induction false} BlockAt(s: string, open: string, i: nat, body: string, close: string, tail: string)
    requires Find(s, open) == Some(i) && i + |open| <= |s|
    requires s[i + |open|..] == body + (close + tail)
    requires close != [] && close[0] !in body
    ensures Block(s, open, close) == Some(body)
  {
    FindAfterFree(body, close, tail);
    assert (body + (close + tail))[..|body|] == body;
    BlockOfFinds(s, open, close, i, |body|);
  }

  lemma {:induction false} FindAfterFree(body: string, lit: string, tail: string)
    requires lit != [] && lit[0] !in body
    ensures Find(body + (lit + tail), lit) == Some(|body|)
  {
    FindSkipFree(body, lit + tail, lit);
    FindHere(lit, tail);
  }

  lemma {:induction false} ReasoningOf(reasoning: string, c: char, m: string, w: string, f: string)
    requires '<' !in reasoning
    ensures Block(Reply(reasoning, c, m, w, f), ReasoningOpen, ReasoningClose) == Some("\n" + reasoning + "\n")
  {
    var tail := "\n\n" + (AnswerOpen + (Boxes(c, m, w, f) + (AnswerClose + "\n")));
    var body := "\n" + reasoning + "\n";
    var s := Reply(reasoning, c, m, w, f);
    ReplyBlocksShape(reasoning, c, m, w, f);
    FindHere(ReasoningOpen, body + (ReasoningClose + tail));
    assert s[|ReasoningOpen|..] == body + (ReasoningClose + tail);
    BlockAt(s, ReasoningOpen, 0, body, ReasoningClose, tail);
  }

  lemma {:induction false} TagsSkippable()
    ensures Skippable(ReasoningOpen, AnswerOpen) && Skippable(ReasoningClose, AnswerOpen)
  {
    assert ReasoningOpen[..8][1] != AnswerOpen[1];
    assert ReasoningClose[..8][1] != AnswerOpen[1];
  }

  /** The answer tag is found after the blank line that follows the reasoning. */
  lemma {:induction false} AnswerAfterBlank(rest: string)
    ensures Find("\n\n" + (AnswerOpen + rest), AnswerOpen) == Some(2)
  {
    FindHere(AnswerOpen, rest);
    FindSkipFree("\n\n", AnswerOpen + rest, AnswerOpen);
  }

  /** Moving the answer tag's first hit past a closing reasoning tag. */
  lemma {:induction false} AnswerAfterClose(y: string, k: nat)
    requires Find(y, AnswerOpen) == Some(k)
    ensures Find(ReasoningClose + y, AnswerOpen) == Some(|ReasoningClose| + k)
  {
    TagsSkippable();
    FindSkipBox(ReasoningClose, y, AnswerOpen);
  }

  /** Moving the answer tag's first hit past reasoning that holds no '<'. */
  lemma {:induction false} AnswerAfterText(reasoning: string, y: string, k: nat)
    requires '<' !in reasoning && Find(y, AnswerOpen) == Some(k)
    ensures Find(("\n" + reasoning + "\n") + y, AnswerOpen) == Some(|reasoning| + 2 + k)
  {
    var a := "\n" + reasoning + "\n";
    NotInLine('<', reasoning);
    assert AnswerOpen[0] == '<';
    FindAfterFreeText(a, y, AnswerOpen, k);
  }

  /** A character other than a newline stays out of a text put on a line of
      its own. */
  lemma {:induction false} NotInLine(c: char, x: string)
    requires c != '\n' && c !in x
    ensures c !in "\n" + x + "\n" && |"\n" + x + "\n"| == |x| + 2
  {
    var a := "\n" + x + "\n";
    assert forall i :: 1 <= i < |a| - 1 ==> a[i] == x[i - 1];
  }

  /** Moving the answer tag's first hit past an opening reasoning tag. */
  lemma {:induction false} AnswerAfterOpen(y: string, k: nat)
    requires Find(y, AnswerOpen) == Some(k)
    ensures Find(ReasoningOpen + y, AnswerOpen) == Some(|ReasoningOpen| + k)
  {
    TagsSkippable();
    FindSkipBox(ReasoningOpen, y, AnswerOpen);
  }

  /** The answer tag after a reasoning block holding no '<' is found there. */
  lemma {:induction false} AnswerAfterThinking(reasoning: string, rest: string)
    requires '<' !in reasoning
    ensures Find(Thinking(reasoning) + (AnswerOpen + rest), AnswerOpen) == Some(|Thinking(reasoning)|)
  {
    var y4 := "\n\n" + (AnswerOpen + rest);
    var y3 := ReasoningClose + y4;
    var y2 := ("\n" + reasoning + "\n") + y3;
    AnswerAfterBlank(rest);
    AnswerAfterClose(y4, 2);
    AnswerAfterText(reasoning, y3, |ReasoningClose| + 2);
    AnswerAfterOpen(y2, |reasoning| + 2 + |ReasoningClose| + 2);
    Regroup(ReasoningOpen, "\n", reasoning, "\n", ReasoningClose, "\n\n", AnswerOpen + rest);
  }

  /** Regrouping a concatenation of seven strings. */
  lemma {:induction false} Regroup(a: string, b: string, c: string, d: string, e: string, f: string, g: string)
    ensures a + b + c + d + e + f + g == a + ((b + c + d) + (e + (f + g)))
  {
  }

  lemma {:induction false} AnswerOf(reasoning: string, c: char, m: string, w: string, f: string)
    requires '<' !in reasoning && IsColour(c) && IsCoordinate(m) && IsRateNumeral(w, f)
    ensures Block(Reply(reasoning, c, m, w, f), AnswerOpen, AnswerClose) == Some(Boxes(c, m, w, f))
  {
    var body := Boxes(c, m, w, f);
    Regroup5(Thinking(reasoning), AnswerOpen, body, AnswerClose, "\n");
    AnswerAfterThinking(reasoning, body + (AnswerClose + "\n"));
    BoxesPlain(c, m, w, f);
    BlockAfter(Thinking(reasoning), AnswerOpen, body, AnswerClose, "\n");
  }

  /** A block whose opening tag is first found right after p. */
  lemma {:induction false} BlockAfter(p: string, open: string, body: string, close: string, tail: string)
    requires Find(p + (open + (body + (close + tail))), open) == Some(|p|)
    requires close != [] && close[0] !in body
    ensures Block(p + (open + (body + (close + tail))), open, close) == Some(body)
  {
    var s := p + (open + (body + (close + tail)));
    assert s[|p| + |open|..] == body + (close + tail);
    BlockAt(s, open, |p|, body, close, tail);
  }

  /** Regrouping a concatenation of five strings. */
  lemma {:induction false} Regroup5(a: string, b: string, c: string, d: string, e: string)
    ensures a + b + c + d + e == a + (b + (c + (d + e)))
  {
  }

  lemma {:induction false} ColourOfBoxes(c: char, m: string, w: string, f: string)
    requires IsColour(c)
    ensures Yields(Search(Boxes(c, m, w, f), ColourBox), c)
  {
    var x2 := "\n" + (PositionText(m) + ("\n" + (RateText(w, f) + "\n\n")));
    ColourBoxStarts();
    ColourBoxReads(c, x2);
    FoundHere(ColourText(c) + x2, ColourBox, c);
    SkipFreeKeeps("\n", ColourText(c) + x2, ColourBox, '\\', c);
    BoxesShape(c, m, w, f);
  }

  lemma {:induction false} CoordinateOfBoxes(c: char, m: string, w: string, f: string)
    requires IsColour(c) && IsCoordinate(m)
    ensures Coordinate(Boxes(c, m, w, f)) == Some(m)
  {
    var M := s => CoordBox(CoordLabel, s);
    CoordBoxStarts(CoordLabel);
    var x4 := "\n" + (RateText(w, f) + "\n\n");
    var x3 := PositionText(m) + x4;
    var x2 := "\n" + x3;
    CoordBoxReads(CoordLabel, m, x4);
    assert x3 == CoordLabel + m + "}" + x4;
    FoundHere(x3, M, m);
    SkipFreeKeeps("\n", x3, M, '\\', m);
    ColourSkippable(c);
    SkipBoxKeeps(ColourText(c), x2, M, CoordLabel, m);
    SkipFreeKeeps("\n", ColourText(c) + x2, M, '\\', m);
    BoxesShape(c, m, w, f);
  }

  lemma {:induction false} RateOfBoxes(c: char, m: string, w: string, f: string)
    requires IsColour(c) && IsCoordinate(m) && IsRateNumeral(w, f)
    ensures Yields(Search(Boxes(c, m, w, f), RateBox), DecimalReal(w, f))
  {
    var v := DecimalReal(w, f);
    RateBoxStarts();
    var x5 := RateText(w, f) + "\n\n";
    var x4 := "\n" + x5;
    var x3 := PositionText(m) + x4;
    var x2 := "\n" + x3;
    RateBoxReads(w, f, "\n\n");
    FoundHere(x5, RateBox, v);
    SkipFreeKeeps("\n", x5, RateBox, '\\', v);
    PositionSkippable(m);
    SkipBoxKeeps(PositionText(m), x4, RateBox, RateLabel, v);
    SkipFreeKeeps("\n", x3, RateBox, '\\', v);
    ColourSkippable(c);
    SkipBoxKeeps(ColourText(c), x2, RateBox, RateLabel, v);
    SkipFreeKeeps("\n", ColourText(c) + x2, RateBox, '\\', v);
    BoxesShape(c, m, w, f);
  }

  /** extract_coordinate succeeds with the pieces its searches find: the
      reasoning block when there is one, and "" with the flag off when not. */
  lemma {:induction false} ExtractCoordinateOf(solution: string, answer: string,
                                               c: char, m: string, x: real)
    requires Block(AssistantPart(solution), AnswerOpen, AnswerClose) == Some(answer)
    requires Yields(Search(answer, ColourBox), c)
    requires Coordinate(answer) == Some(m) && IsValidMove(m)
    requires Yields(Search(answer, RateBox), x)
    ensures var rb := Block(AssistantPart(solution), ReasoningOpen, ReasoningClose);
            ExtractCoordinate(solution) == Some(Parsed(m, c, x, rb.Some?, if rb.Some? then rb.value else ""))
  {
  }

  /** A reply without a reasoning block still parses, with the flag off. */
  lemma {:induction false} ExtractCoordinateUnreasoned(solution: string, answer: string,
                                                      c: char, m: string, x: real)
    requires Block(AssistantPart(solution), ReasoningOpen, ReasoningClose).None?
    requires Block(AssistantPart(solution), AnswerOpen, AnswerClose) == Some(answer)
    requires Yields(Search(answer, ColourBox), c)
    requires Coordinate(answer) == Some(m) && IsValidMove(m)
    requires Yields(Search(answer, RateBox), x)
    ensures ExtractCoordinate(solution) == Some(Parsed(m, c, x, false, ""))
  {
    ExtractCoordinateOf(solution, answer, c, m, x);
  }

  /** The reward reader recovers the colour, the move, the win rate and the
      reasoning of a reply written after a prompt in which the assistant
      marker does not start. */
  lemma {:induction false} RewardReadsReply(prompt: string, reasoning: string, c: char, m: string, w: string, f: string)
    requires Find(prompt + AssistantMarker, AssistantMarker) == Some(|prompt|)
    requires '<' !in reasoning
    requires IsColour(c) && IsCoordinate(m) && IsValidMove(m) && IsRateNumeral(w, f)
    ensures ExtractCoordinate(prompt + AssistantMarker + Reply(reasoning, c, m, w, f))
         == Some(Parsed(m, c, DecimalReal(w, f), true, "\n" + reasoning + "\n"))
  {
    var solution := prompt + AssistantMarker + Reply(reasoning, c, m, w, f);
    AssistantPartOf(prompt, Reply(reasoning, c, m, w, f));
    ReasoningOf(reasoning, c, m, w, f);
    AnswerOf(reasoning, c, m, w, f);
    ColourOfBoxes(c, m, w, f);
    CoordinateOfBoxes(c, m, w, f);
    RateOfBoxes(c, m, w, f);
    ExtractCoordinateOf(solution, Boxes(c, m, w, f), c, m, DecimalReal(w, f));
  }

  /** The same for a chat-template prompt of other roles' turns. */
  lemma {:induction false} RewardReadsChatReply(turns: seq<(string, string)>, reasoning: string,
                                                c: char, m: string, w: string, f: string)
    requires forall i :: 0 <= i < |turns| ==> IsOtherRole(turns[i].0) && BarFree(turns[i].1)
    requires '<' !in reasoning
    requires IsColour(c) && IsCoordinate(m) && IsValidMove(m) && IsRateNumeral(w, f)
    ensures ExtractCoordinate(Chat(turns) + AssistantMarker + Reply(reasoning, c, m, w, f))
         == Some(Parsed(m, c, DecimalReal(w, f), true, "\n" + reasoning + "\n"))
  {
    ChatMarkerFirst(turns);
    RewardReadsReply(Chat(turns), reasoning, c, m, w, f);
  }

  /* ------------------------------------------------------ which box wins */

  /** With a colon right after it, the fallback label cannot begin a position box. */
  lemma {:induction false} FallbackSkippable(m: string)
    requires IsExtractedMove(m)
    ensures Skippable(FallbackText(m), PositionLabel)
  {
    var x := FallbackText(m);
    assert x[1..] == FallbackLabel[1..] + ":" + m + "}";
    assert forall i :: 1 <= i < |m| ==> IsDigit(m[i]);
    assert x[..12][10] != PositionLabel[10];
  }

  /** Without a position box the evaluator reads the fallback box. */
  lemma {:induction false} EvalReadsFallback(m: string)
    requires IsExtractedMove(m)
    ensures ExtractMove(FallbackText(m)) == m
  {
    var P := s => MoveBox(PositionLabel, s);
    var F := s => MoveBox(FallbackLabel, s);
    var x := FallbackText(m);
    assert x + [] == x;
    FallbackSkippable(m);
    SearchSkipBox(x, [], P, PositionLabel);
    MoveBoxReads(FallbackLabel, m, []);
    FoundHere(x, F, m);
  }

  /** A position box after a newline is found by the evaluator's first search. */
  lemma {:induction false} PositionAfterNewline(m: string)
    requires IsExtractedMove(m)
    ensures Yields(Search("\n" + PositionText(m), s => MoveBox(PositionLabel, s)), m)
  {
    var P := s => MoveBox(PositionLabel, s);
    MoveBoxStarts(PositionLabel);
    PositionTextShape(m);
    MoveBoxReads(PositionLabel, m, []);
    assert PositionLabel + ":" + m + "}" + [] == PositionText(m);
    FoundHere(PositionText(m), P, m);
    SkipFreeKeeps("\n", PositionText(m), P, '\\', m);
  }

  /** A position box wins over a fallback box written before it. */
  lemma {:induction false} EvalPrefersPosition(m1: string, m2: string)
    requires IsExtractedMove(m1) && IsExtractedMove(m2)
    ensures ExtractMove(FallbackText(m1) + "\n" + PositionText(m2)) == m2
  {
    var P := s => MoveBox(PositionLabel, s);
    PositionAfterNewline(m2);
    FallbackSkippable(m1);
    SkipBoxKeeps(FallbackText(m1), "\n" + PositionText(m2), P, PositionLabel, m2);
    Regroup3(FallbackText(m1), "\n", PositionText(m2));
  }

  /** Regrouping a concatenation of three strings. */
  lemma {:induction false} Regroup3(a: string, b: string, c: string)
    ensures a + b + c == a + (b + c)
  {
  }

  /** A move number of three or more digits fails the evaluator's \d{1,2},
      though the reward reader takes it. */
  lemma {:induction false} EvalRejectsLongNumber(m: string, rest: string)
    requires IsCoordinate(m) && |m| >= 4
    ensures MoveBox(PositionLabel, PositionText(m) + rest) == None
    ensures CoordBox(CoordLabel, PositionText(m) + rest) == Some(m)
  {
    PositionTextShape(m);
    var s := PositionText(m) + rest;
    assert s[..|PositionLabel|] == PositionLabel;
    assert s[|PositionLabel|..] == ":" + (m + ("}" + rest));
    MoveAfterTagLong(m, rest);
    CoordBoxReads(CoordLabel, m, rest);
  }

  lemma {:induction false} MoveAfterTagLong(m: string, rest: string)
    requires IsCoordinate(m) && |m| >= 4
    ensures MoveAfterTag(":" + (m + ("}" + rest))) == None
  {
    var u := m + ("}" + rest);
    assert u[0] == m[0];
    assert u[1..] == m[1..] + ("}" + rest);
    MoveAfterColon(u);
    DigitRunAll(m[1..], "}" + rest);
    MoveDigitsLong(m[0], u[1..]);
  }

  lemma {:induction false} MoveDigitsLong(letter: char, v: string)
    requires IsBoardLetter(letter) && DigitRun(v) > 2
    ensures MoveDigits(letter, v) == None
  {
  }

  /** An old-form box never begins a new-form coordinate box. */
  lemma {:induction false} OldMissesNew(m: string, rest: string)
    requires IsCoordinate(m)
    ensures CoordBox(CoordLabel, OldText(m) + rest) == None
  {
    var s := OldText(m) + rest;
    assert s[7] == m[0];
    assert CoordLabel[7] == '下';
  }

  /** The old-form box holds no backslash after its first character. */
  lemma {:induction false} OldPlain(m: string)
    requires IsCoordinate(m)
    ensures OldText(m)[0] == '\\' && '\\' !in OldText(m)[1..]
  {
    assert OldText(m)[1..] == OldCoordLabel[1..] + m + "}";
    assert forall i :: 1 <= i < |m| ==> IsDigit(m[i]);
  }

  /** A search skips the first character of x when the pattern fails there. */
  lemma {:induction false} SkipFirst<T>(x: string, m: string -> Option<T>)
    requires x != [] && m(x).None?
    ensures Search(x, m) == Shift(Search(x[1..], m), 1)
  {
    assert [x[0]] + x[1..] == x;
    SearchSkip([x[0]], x[1..], m);
  }

  /** Without a new-form box the reward reader takes the old form. */
  lemma {:induction false} RewardReadsOld(m: string)
    requires IsCoordinate(m)
    ensures Coordinate(OldText(m)) == Some(m)
  {
    var N := s => CoordBox(CoordLabel, s);
    var x := OldText(m);
    CoordBoxStarts(CoordLabel);
    OldMissesNew(m, []);
    assert x + [] == x;
    SkipFirst(x, N);
    OldPlain(m);
    assert x[1..] + [] == x[1..];
    SearchSkipFree(x[1..], [], N, '\\');
    CoordBoxReads(OldCoordLabel, m, []);
    FoundHere(x, s => CoordBox(OldCoordLabel, s), m);
  }

  /** A new-form box after a newline is found by the reward reader's first search. */
  lemma {:induction false} NewAfterNewline(m: string)
    requires IsCoordinate(m)
    ensures Yields(Search("\n" + PositionText(m), s => CoordBox(CoordLabel, s)), m)
  {
    var N := s => CoordBox(CoordLabel, s);
    CoordBoxStarts(CoordLabel);
    CoordBoxReads(CoordLabel, m, []);
    assert CoordLabel + m + "}" + [] == PositionText(m);
    FoundHere(PositionText(m), N, m);
    SkipFreeKeeps("\n", PositionText(m), N, '\\', m);
  }

  /** The new-form search passes over an old-form box. */
  lemma {:induction false} OldSkipped(m: string, y: string, v: string)
    requires IsCoordinate(m) && Yields(Search(y, s => CoordBox(CoordLabel, s)), v)
    ensures Yields(Search(OldText(m) + y, s => CoordBox(CoordLabel, s)), v)
  {
    CoordBoxStarts(CoordLabel);
    OldPlain(m);
    OldMissesNew(m, y);
    SkipLeadKeeps(OldText(m), y, s => CoordBox(CoordLabel, s), '\\', v);
  }

  /** A search passes over text whose first position fails and whose other
      positions do not hold the character the pattern starts with. */
  lemma {:induction false} SkipLeadKeeps<T>(a: string, y: string, m: string -> Option<T>, c: char, v: T)
    requires forall s :: m(s).Some? ==> s != [] && s[0] == c
    requires a != [] && m(a + y).None? && c !in a[1..] && Yields(Search(y, m), v)
    ensures Yields(Search(a + y, m), v)
  {
    SkipFreeKeeps(a[1..], y, m, c, v);
    assert (a + y)[1..] == a[1..] + y;
    SkipFirst(a + y, m);
  }

  /** A new-form box wins over an old-form box written before it. */
  lemma {:induction false} RewardPrefersNew(m1: string, m2: string)
    requires IsCoordinate(m1) && IsCoordinate(m2)
    ensures Coordinate(OldText(m1) + "\n" + PositionText(m2)) == Some(m2)
  {
    NewAfterNewline(m2);
    OldSkipped(m1, "\n" + PositionText(m2), m2);
    Regroup3(OldText(m1), "\n", PositionText(m2));
  }
}
