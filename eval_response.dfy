/** The two readers the evaluator applies to a model's raw answer: the move
    from a position box (with a shorter label as fallback) and the win rate
    from a win-rate box. Both patterns allow white space around the colon
    and before the closing brace. */
module EvalResponse {
  import opened Lexical
  import opened Coordinates

  /** The box labels, from the backslash to the end of the Chinese label. */
  const PositionLabel: string := "\\boxed{下一步位置"
  const FallbackLabel: string := "\\boxed{下一步"
  const WinRateLabel: string := "\\boxed{下一步胜率"

  /** What the group ([A-HJ-T]\d{1,2}) captures. */
  predicate IsExtractedMove(m: string) {
    2 <= |m| <= 3 && IsBoardLetter(m[0]) && AllDigits(m[1..])
  }

  /** tag\s*:\s*([A-HJ-T]\d{1,2})\s*} matched at the start of s. Each \s* is
      followed by a character that is not white space, so it takes the
      longest run; \d{1,2} must be followed by white space or '}', so a run of
      three or more digits fails at every length. */
  function MoveBox(tag: string, s: string): (r: Option<string>)
    ensures r.Some? ==> IsExtractedMove(r.value)
    ensures r.Some? ==> tag <= s
  {
    if tag <= s then MoveAfterTag(s[|tag|..]) else None
  }

  /** \s*:\s*([A-HJ-T]\d{1,2})\s*}, the part of the move box after its label. */
  function MoveAfterTag(t: string): (r: Option<string>)
    ensures r.Some? ==> IsExtractedMove(r.value)
  {
    var a := SpaceRun(t);
    if a == |t| || t[a] != ':' then None
    else
      var u := t[a + 1..];
      var b := SpaceRun(u);
      if b == |u| || !IsBoardLetter(u[b]) then None
      else MoveDigits(u[b], u[b + 1..])
  }

  /** \d{1,2}\s*}, after the move's letter. */
  function MoveDigits(letter: char, v: string): (r: Option<string>)
    requires IsBoardLetter(letter)
    ensures r.Some? ==> IsExtractedMove(r.value) && r.value[0] == letter
  {
    var d := DigitRun(v);
    if d < 1 || d > 2 then None
    else
      var w := v[d..];
      var e := SpaceRun(w);
      if e == |w| || w[e] != '}' then None
      else
        var m := [letter] + v[..d];
        assert m[1..] == v[..d];
        Some(m)
  }

  /** _extract_move: the position box if there is one, else the fallback box,
      else "". The number is not range-checked. */
  function ExtractMove(response: string): (r: string)
    ensures r == "" || IsExtractedMove(r)
  {
    match Search(response, s => MoveBox(PositionLabel, s))
    case Some(f) => f.value
    case None =>
      match Search(response, s => MoveBox(FallbackLabel, s))
      case Some(f) => f.value
      case None => ""
  }

  /** A move the reader returns always converts to a vertex, though not always
      to one on the board. */
  lemma {:induction false} ExtractedMoveConverts(response: string)
    requires ExtractMove(response) != ""
    ensures MoveToVertex(ExtractMove(response)).Some?
  {
    var m := ExtractMove(response);
    ParseIntOfDigits(m[1..]);
  }

  /** The longest prefix of s over [0-9.]. */
  function NumeralRun(s: string): (n: nat)
    ensures n <= |s| && (forall i :: 0 <= i < n ==> IsDigit(s[i]) || s[i] == '.')
    ensures n < |s| ==> !(IsDigit(s[n]) || s[n] == '.')
  {
    if s != [] && (IsDigit(s[0]) || s[0] == '.') then 1 + NumeralRun(s[1..]) else 0
  }

  /** tag\s*:\s*([0-9.]+%?)\s*} matched at the start of s. [0-9.]+ takes its
      longest run (a shorter one leaves a digit or point where '%', white
      space or '}' must come), and %? takes a '%' when one follows. */
  function WinRateBox(s: string): (r: Option<string>)
    ensures r.Some? ==> WinRateLabel <= s
    ensures r.Some? ==> |r.value| > 0
  {
    if WinRateLabel <= s then WinRateAfterTag(s[|WinRateLabel|..]) else None
  }

  /** \s*:\s*([0-9.]+%?)\s*}, the part of the win-rate box after its label. */
  function WinRateAfterTag(t: string): (r: Option<string>)
    ensures r.Some? ==> |r.value| > 0
  {
    var a := SpaceRun(t);
    if a == |t| || t[a] != ':' then None
    else
      var u := t[a + 1..];
      WinRateValue(u[SpaceRun(u)..])
  }

  /** ([0-9.]+%?)\s*}, where the value starts. */
  function WinRateValue(v: string): (r: Option<string>)
    ensures r.Some? ==> |r.value| > 0 && r.value <= v
  {
    var n := NumeralRun(v);
    if n == 0 then None
    else
      var p := if n < |v| && v[n] == '%' then 1 else 0;
      var w := v[n + p..];
      var e := SpaceRun(w);
      if e == |w| || w[e] != '}' then None
      else Some(v[..n + p])
  }

  /** s.replace('%', ''). */
  function DropPercent(s: string): (r: string)
    ensures '%' !in r
    ensures '%' !in s ==> r == s
  {
    if s == [] then []
    else (if s[0] == '%' then [] else [s[0]]) + DropPercent(s[1..])
  }

  /** _extract_win_rate: the captured value through float(), divided by 100
      when it carries '%'. None when there is no box or float() raises. */
  function ExtractWinRate(response: string): (r: Option<real>)
    ensures r.Some? ==> r.value >= 0.0
    ensures Search(response, WinRateBox).None? ==> r.None?
  {
    match Search(response, WinRateBox)
    case None => None
    case Some(f) => WinRateValueOf(f.value)
  }

  /** The captured win rate as a number: a percentage when it carries '%',
      else a fraction as written. */
  function WinRateValueOf(g: string): (r: Option<real>)
    ensures r.Some? ==> r.value >= 0.0
  {
    if '%' in g then
      match ParseFloatRun(DropPercent(g))
      case None => None
      case Some(x) => Some(x / 100.0)
    else ParseFloatRun(g)
  }
}
