/** The reader the reward scorer applies to a rollout: the assistant's part
    of the text, its reasoning block, its answer block and, inside the
    answer, the colour, coordinate and win-rate boxes. These patterns are
    strict: no white space is allowed inside a box. */
module RewardResponse {
  import opened Lexical
  import opened Coordinates

  const AssistantMarker: string := "<|im_start|>assistant\n"
  const ReasoningOpen: string := "<reasoning>"
  const ReasoningClose: string := "</reasoning>"
  const AnswerOpen: string := "<answer>"
  const AnswerClose: string := "</answer>"

  /** The box labels, up to and including the colon. */
  const ColourLabel: string := "\\boxed{下一步颜色:"
  const CoordLabel: string := "\\boxed{下一步位置:"
  const OldCoordLabel: string := "\\boxed{"
  const RateLabel: string := "\\boxed{下一步胜率:"

  /** The two colour glyphs, black and white. */
  const BlackGlyph: char := '黑'
  const WhiteGlyph: char := '白'

  /** The tuple extract_coordinate returns. */
  datatype Parsed = Parsed(coordinate: string, colour: char, winRate: real, hasReasoning: bool, reasoning: string)

  /** The text after the first assistant marker ((.*) with DOTALL runs to the
      end), or the whole text when there is no marker. */
  function AssistantPart(s: string): (r: string)
    ensures |r| <= |s|
    ensures Find(s, AssistantMarker).None? ==> r == s
  {
    match Find(s, AssistantMarker)
    case None => s
    case Some(i) => FindInside(s, AssistantMarker); s[i + |AssistantMarker|..]
  }

  /** The assistant part is the text after the first occurrence of the marker. */
  lemma {:induction false} AssistantPartAfterFirst(s: string, i: nat)
    requires OccursAt(s, i, AssistantMarker)
    requires forall k :: 0 <= k < i ==> !OccursAt(s, k, AssistantMarker)
    ensures AssistantPart(s) == s[i + |AssistantMarker|..]
  {
    FindAt(s, AssistantMarker, i);
  }

  /** Without an occurrence of the marker the assistant part is the whole text. */
  lemma {:induction false} AssistantPartWithout(s: string)
    requires forall k :: 0 <= k <= |s| ==> !OccursAt(s, k, AssistantMarker)
    ensures AssistantPart(s) == s
  {
    FindIsFirst(s, AssistantMarker);
  }

  /** \boxed{下一步颜色:(黑|白)} at the start of s. */
  function ColourBox(s: string): (r: Option<char>)
    ensures r.Some? ==> (r.value == BlackGlyph || r.value == WhiteGlyph) && ColourLabel <= s
  {
    var n := |ColourLabel|;
    if ColourLabel <= s && n + 2 <= |s| && (s[n] == BlackGlyph || s[n] == WhiteGlyph) && s[n + 1] == '}'
    then Some(s[n]) else None
  }

  /** The shape the group ([A-HJ-T]\d+) captures. */
  predicate IsCoordinate(m: string) {
    |m| >= 2 && IsBoardLetter(m[0]) && AllDigits(m[1..])
  }

  /** tag([A-HJ-T]\d+)} at the start of s: \d+ takes the longest run of
      digits, which must be followed by '}'. */
  function CoordBox(tag: string, s: string): (r: Option<string>)
    ensures r.Some? ==> IsCoordinate(r.value) && tag <= s
  {
    if !(tag <= s) then None
    else
      var t := s[|tag|..];
      if t == [] || !IsBoardLetter(t[0]) then None
      else
        var d := DigitRun(t[1..]);
        if d == 0 || d + 1 == |t| || t[d + 1] != '}' then None
        else
          var m := t[..d + 1];
          assert m[1..] == t[1..][..d];
          Some(m)
  }

  /** \boxed{下一步胜率:(\d+\.\d+)%} at the start of s, with the group read by
      float(). Both \d+ take their longest run. */
  function RateBox(s: string): (r: Option<real>)
    ensures r.Some? ==> r.value >= 0.0 && RateLabel <= s
  {
    if !(RateLabel <= s) then None
    else
      var t := s[|RateLabel|..];
      var a := DigitRun(t);
      if a == 0 || a == |t| || t[a] != '.' then None
      else
        var u := t[a + 1..];
        var b := DigitRun(u);
        if b == 0 || b + 2 > |u| || u[b] != '%' || u[b + 1] != '}' then None
        else Some(DecimalReal(t[..a], u[..b]))
  }

  /** The coordinate box in the new form, else in the old form. */
  function Coordinate(answer: string): (r: Option<string>)
    ensures r.Some? ==> IsCoordinate(r.value)
  {
    match Search(answer, s => CoordBox(CoordLabel, s))
    case Some(f) => Some(f.value)
    case None =>
      match Search(answer, s => CoordBox(OldCoordLabel, s))
      case Some(f) => Some(f.value)
      case None => None
  }

  /** extract_coordinate. None stands for every early return and for the
      catch-all; the reasoning is "" when there is no reasoning block. */
  function ExtractCoordinate(solution: string): (r: Option<Parsed>)
    ensures r.Some? ==> IsValidMove(r.value.coordinate) && IsCoordinate(r.value.coordinate)
    ensures r.Some? ==> r.value.colour == BlackGlyph || r.value.colour == WhiteGlyph
    ensures r.Some? ==> r.value.winRate >= 0.0
    ensures r.Some? ==> (r.value.hasReasoning <==> Block(AssistantPart(solution), ReasoningOpen, ReasoningClose).Some?)
    ensures r.Some? && !r.value.hasReasoning ==> r.value.reasoning == ""
    ensures r.Some? && r.value.hasReasoning ==>
              Block(AssistantPart(solution), ReasoningOpen, ReasoningClose) == Some(r.value.reasoning)
    ensures var a := Block(AssistantPart(solution), AnswerOpen, AnswerClose);
            r.Some? ==> && a.Some?
                        && Yields(Search(a.value, ColourBox), r.value.colour)
                        && Coordinate(a.value) == Some(r.value.coordinate)
                        && Yields(Search(a.value, RateBox), r.value.winRate)
    ensures var a := Block(AssistantPart(solution), AnswerOpen, AnswerClose);
            r.Some? <==> && a.Some?
                         && Search(a.value, ColourBox).Some?
                         && Coordinate(a.value).Some? && IsValidMove(Coordinate(a.value).value)
                         && Search(a.value, RateBox).Some?
  {
    var content := AssistantPart(solution);
    var reasoning := Block(content, ReasoningOpen, ReasoningClose);
    match Block(content, AnswerOpen, AnswerClose)
    case None => None
    case Some(answer) =>
      match Search(answer, ColourBox)
      case None => None
      case Some(colour) =>
        match Coordinate(answer)
        case None => None
        case Some(coordinate) =>
          match Search(answer, RateBox)
          case None => None
          case Some(rate) =>
            match ParseInt(coordinate[1..])
            case None => None
            case Some(number) =>
              if 1 <= number <= 19 then
                var text := if reasoning.Some? then reasoning.value else "";
                Some(Parsed(coordinate, colour.value, rate.value, reasoning.Some?, text))
              else None
  }
}
