/** The reward a rollout earns against KataGo's analysis of the position:
    nothing unless the reply parses and reasons, a tenth for taking part, and
    for a correct colour and a move among the candidates a tier bonus plus two
    bonuses for being close to the best win rate and for predicting the move's
    own win rate. Win rates are exact reals. */
module Reward {
  import opened Lexical
  import opened Candidates
  import opened RewardResponse
  import Stones
  import opened Coordinates
  import opened Rendered

  /** What a rollout is scored against: the moves played so far and KataGo's
      candidates for the next move. */
  datatype GroundTruth = GroundTruth(formerMoves: seq<string>, candidates: seq<Candidate>)

  /** The colour to play after the given number of moves: black when the
      move number played + 1 is odd. Black moves first, so this is the colour
      of the stone with index played. */
  function ExpectedColour(played: nat): (c: char)
    ensures c == BlackGlyph <==> Stones.Mover(played) == Stones.Black
    ensures c == WhiteGlyph <==> Stones.Mover(played) == Stones.White
  {
    if (played + 1) % 2 == 1 then BlackGlyph else WhiteGlyph
  }

  /** weight · 1/(1 + 10·|d|): a bonus that is largest, and then equal to its
      weight, when the distance d is zero. */
  function Closeness(weight: real, d: real): (r: real)
    ensures weight > 0.0 ==> 0.0 < r <= weight
    ensures weight > 0.0 ==> (r == weight <==> d == 0.0)
  {
    var q := 1.0 / (1.0 + 10.0 * Abs(d));
    assert 0.0 < q <= 1.0 && (q == 1.0 <==> d == 0.0);
    weight * q
  }

  /** gt_best_move after the scorer's loop: the move of the first candidate
      with the greatest positive win rate, or None when no win rate is
      positive. */
  function BestMove(cs: seq<Candidate>): (r: Option<string>)
    ensures r.Some? <==> exists j :: 0 <= j < |cs| && cs[j].winRate > 0.0
    ensures r.Some? ==> exists j :: 0 <= j < |cs| && IsFirstMax(cs, j) && cs[j].move == r.value
  {
    match BestPositive(cs)
    case None => None
    case Some(b) => Some(cs[b].move)
  }

  /** gt_best_win_rate after the scorer's loop. */
  function BestWinRate(cs: seq<Candidate>): real {
    BestRate(cs, BestPositive(cs))
  }

  /** The score of a parsed reply, following the early returns of
      compute_score. The candidate looked up is the last one with the move,
      as the dictionary built from the list keeps it. */
  function ScoreParsed(p: Parsed, gt: GroundTruth): real {
    if !p.hasReasoning || p.reasoning == "" then 0.0
    else if ExpectedColour(|gt.formerMoves|) != p.colour then 0.1 - 0.1
    else
      var table := CandidateMap(gt.candidates);
      if p.coordinate !in table then 0.1 - 0.1
      else
        var rate := table[p.coordinate].winRate;
        var best := BestWinRate(gt.candidates);
        var tier :=
          if BestMove(gt.candidates) == Some(p.coordinate) then 0.6
          else if rate > best * 0.9 then 0.4
          else 0.2;
        0.1 + tier + Closeness(0.1, rate - best) + Closeness(0.2, Abs(rate - p.winRate * 0.01))
  }

  /** compute_score: 0 when the reply does not parse. */
  function Score(solution: string, gt: GroundTruth): real {
    match ExtractCoordinate(solution)
    case None => 0.0
    case Some(p) => ScoreParsed(p, gt)
  }

  /** The reply earns the match bonuses: it has non-empty reasoning, names
      the colour to play, and names a move some candidate has. */
  predicate Matched(p: Parsed, gt: GroundTruth) {
    && p.hasReasoning && p.reasoning != ""
    && p.colour == ExpectedColour(|gt.formerMoves|)
    && exists j :: 0 <= j < |gt.candidates| && gt.candidates[j].move == p.coordinate
  }

  /** The win rate of the candidate the scorer looks up: the last one with the
      move. */
  function LookedUpRate(p: Parsed, gt: GroundTruth): real
    requires Matched(p, gt)
  {
    var cs := gt.candidates;
    assert LastMatch(cs, p.coordinate).Some?;
    cs[LastMatch(cs, p.coordinate).value].winRate
  }

  /** The dictionary lookup in the scorer finds the last candidate with the
      move, exactly when the reply is matched in its other respects. */
  lemma {:induction false} LookupOfMatched(p: Parsed, gt: GroundTruth)
    requires p.hasReasoning && p.reasoning != "" && p.colour == ExpectedColour(|gt.formerMoves|)
    ensures p.coordinate in CandidateMap(gt.candidates) <==> Matched(p, gt)
    ensures Matched(p, gt) ==> CandidateMap(gt.candidates)[p.coordinate].winRate == LookedUpRate(p, gt)
  {
    CandidateMapLast(gt.candidates, p.coordinate);
  }

  /** A matched reply scores more than 0.3 and at most 1. */
  lemma {:induction false} MatchedScoreBounds(p: Parsed, gt: GroundTruth)
    requires Matched(p, gt)
    ensures 0.3 < ScoreParsed(p, gt) <= 1.0
  {
    LookupOfMatched(p, gt);
    var rate := LookedUpRate(p, gt);
    var best := BestWinRate(gt.candidates);
    var c1 := Closeness(0.1, rate - best);
    var c2 := Closeness(0.2, Abs(rate - p.winRate * 0.01));
    assert 0.0 < c1 <= 0.1 && 0.0 < c2 <= 0.2;
  }

  /** Every reply that is not matched scores exactly 0; every matched one
      scores more. */
  lemma {:induction false} ScoreZeroIff(solution: string, gt: GroundTruth)
    ensures Score(solution, gt) == 0.0
        <==> ExtractCoordinate(solution).None? || !Matched(ExtractCoordinate(solution).value, gt)
  {
    match ExtractCoordinate(solution)
    case None =>
    case Some(p) =>
      if p.hasReasoning && p.reasoning != "" && p.colour == ExpectedColour(|gt.formerMoves|) {
        LookupOfMatched(p, gt);
        if Matched(p, gt) {
          MatchedScoreBounds(p, gt);
        }
      }
  }

  /** Every score lies in [0, 1]. */
  lemma {:induction false} ScoreBounds(solution: string, gt: GroundTruth)
    ensures 0.0 <= Score(solution, gt) <= 1.0
  {
    ScoreZeroIff(solution, gt);
    match ExtractCoordinate(solution)
    case None =>
    case Some(p) =>
      if Matched(p, gt) {
        MatchedScoreBounds(p, gt);
      }
  }

  /** The full score is earned exactly by a matched reply naming KataGo's best
      move, whose looked-up win rate is the best win rate and is the one the
      reply predicts. */
  lemma {:induction false} FullScoreIff(p: Parsed, gt: GroundTruth)
    requires Matched(p, gt)
    ensures ScoreParsed(p, gt) == 1.0
        <==> && BestMove(gt.candidates) == Some(p.coordinate)
             && LookedUpRate(p, gt) == BestWinRate(gt.candidates)
             && p.winRate * 0.01 == LookedUpRate(p, gt)
  {
    LookupOfMatched(p, gt);
    var rate := LookedUpRate(p, gt);
    var best := BestWinRate(gt.candidates);
    var c1 := Closeness(0.1, rate - best);
    var c2 := Closeness(0.2, Abs(rate - p.winRate * 0.01));
    assert 0.0 < c1 <= 0.1 && 0.0 < c2 <= 0.2;
    assert c1 == 0.1 <==> rate == best;
    assert c2 == 0.2 <==> p.winRate * 0.01 == rate;
  }

  /** Exactly one tier applies, and the tiers do not overlap in a matched
      score: the best move earns more than 0.7, a move above 90% of the best
      win rate between 0.5 and 0.8, any other candidate between 0.3 and 0.6. */
  lemma {:induction false} TierRanges(p: Parsed, gt: GroundTruth)
    requires Matched(p, gt)
    ensures BestMove(gt.candidates) == Some(p.coordinate) ==> 0.7 < ScoreParsed(p, gt) <= 1.0
    ensures BestMove(gt.candidates) != Some(p.coordinate) && LookedUpRate(p, gt) > BestWinRate(gt.candidates) * 0.9
            ==> 0.5 < ScoreParsed(p, gt) <= 0.8
    ensures BestMove(gt.candidates) != Some(p.coordinate) && LookedUpRate(p, gt) <= BestWinRate(gt.candidates) * 0.9
            ==> 0.3 < ScoreParsed(p, gt) <= 0.6
  {
    LookupOfMatched(p, gt);
    var rate := LookedUpRate(p, gt);
    var best := BestWinRate(gt.candidates);
    var c1 := Closeness(0.1, rate - best);
    var c2 := Closeness(0.2, Abs(rate - p.winRate * 0.01));
    assert 0.0 < c1 <= 0.1 && 0.0 < c2 <= 0.2;
  }

  /** A reply in the requested format, written after a prompt in which the
      assistant marker does not start, that gives the colour to play and
      KataGo's best move and predicts the best win rate as a percentage,
      earns the full score. */
  lemma {:induction false} PerfectReplyScoresOne(prompt: string, reasoning: string, m: string, w: string, f: string,
                                                 gt: GroundTruth)
    requires Find(prompt + AssistantMarker, AssistantMarker) == Some(|prompt|)
    requires '<' !in reasoning
    requires IsCoordinate(m) && IsValidMove(m) && IsRateNumeral(w, f)
    requires BestMove(gt.candidates) == Some(m)
    requires forall j :: 0 <= j < |gt.candidates| && gt.candidates[j].move == m
               ==> gt.candidates[j].winRate == BestWinRate(gt.candidates)
    requires DecimalReal(w, f) * 0.01 == BestWinRate(gt.candidates)
    ensures Score(prompt + AssistantMarker + Reply(reasoning, ExpectedColour(|gt.formerMoves|), m, w, f), gt) == 1.0
  {
    var c := ExpectedColour(|gt.formerMoves|);
    RewardReadsReply(prompt, reasoning, c, m, w, f);
    PerfectScoresOne(Parsed(m, c, DecimalReal(w, f), true, "\n" + reasoning + "\n"), gt);
  }

  /** A parsed reply with reasoning, the colour to play, KataGo's best move
      and its win rate predicted exactly earns the full score. */
  lemma {:induction false} PerfectScoresOne(p: Parsed, gt: GroundTruth)
    requires p.hasReasoning && p.reasoning != "" && p.colour == ExpectedColour(|gt.formerMoves|)
    requires BestMove(gt.candidates) == Some(p.coordinate)
    requires forall j :: 0 <= j < |gt.candidates| && gt.candidates[j].move == p.coordinate
               ==> gt.candidates[j].winRate == BestWinRate(gt.candidates)
    requires p.winRate * 0.01 == BestWinRate(gt.candidates)
    ensures ScoreParsed(p, gt) == 1.0
  {
    assert Matched(p, gt);
    FullScoreIff(p, gt);
  }

  /** One step of the scorer's search for the best candidate. */
  lemma {:induction false} BestStep(cs: seq<Candidate>, i: nat)
    requires i < |cs|
    ensures BestRate(cs[..i], BestPositive(cs[..i])) < cs[i].winRate ==>
              BestWinRate(cs[..i + 1]) == cs[i].winRate && BestMove(cs[..i + 1]) == Some(cs[i].move)
    ensures BestRate(cs[..i], BestPositive(cs[..i])) >= cs[i].winRate ==>
              BestWinRate(cs[..i + 1]) == BestWinRate(cs[..i]) && BestMove(cs[..i + 1]) == BestMove(cs[..i])
  {
    var t := cs[..i + 1];
    assert t[..i] == cs[..i];
    assert t[i] == cs[i];
    var r := BestPositive(cs[..i]);
    if r.Some? {
      assert t[r.value] == cs[..i][r.value];
    }
  }

  /** The scorer's loop for the best candidate: start from no move and win
      rate 0, and take a candidate whose win rate is strictly greater. */
  method FindBest(cs: seq<Candidate>) returns (bestMove: Option<string>, bestRate: real)
    ensures bestMove == BestMove(cs) && bestRate == BestWinRate(cs)
  {
    bestMove := None;
    bestRate := 0.0;
    var i := 0;
    while i < |cs|
      invariant i <= |cs|
      invariant bestRate == BestWinRate(cs[..i])
      invariant bestMove == BestMove(cs[..i])
    {
      BestStep(cs, i);
      if bestRate < cs[i].winRate {
        bestMove := Some(cs[i].move);
        bestRate := cs[i].winRate;
      }
      i := i + 1;
    }
    assert cs[..i] == cs;
  }

  /** compute_score as the scorer runs it, the imperative rendering of Score:
      0 when the reply does not parse, else the score of the parsed reply. */
  method ComputeScore(solution: string, gt: GroundTruth) returns (score: real)
    ensures score == Score(solution, gt)
  {
    var result := ExtractCoordinate(solution);
    if result.None? {
      return 0.0;
    }
    score := ScoreReply(result.value, gt);
  }

  /** The rest of compute_score, the imperative rendering of ScoreParsed:
      it accumulates the score of a parsed reply and searches the candidates
      for the best one. */
  method ScoreReply(p: Parsed, gt: GroundTruth) returns (score: real)
    ensures score == ScoreParsed(p, gt)
  {
    score := 0.0;
    if !p.hasReasoning || p.reasoning == "" {
      return;
    }
    score := score + 0.1;
    var moveNumber := |gt.formerMoves| + 1;
    var gtColour := if moveNumber % 2 == 1 then BlackGlyph else WhiteGlyph;
    if gtColour != p.colour {
      score := score - 0.1;
      return;
    }
    var cs := gt.candidates;
    var table := CandidateMap(cs);
    var bestMove, bestRate := FindBest(cs);
    if p.coordinate in table {
      var rate := table[p.coordinate].winRate;
      if Some(p.coordinate) == bestMove {
        score := score + 0.6;
      } else if rate > bestRate * 0.9 {
        score := score + 0.4;
      } else {
        score := score + 0.2;
      }
      score := score + Closeness(0.1, rate - bestRate);
      var diff := Abs(rate - p.winRate * 0.01);
      score := score + Closeness(0.2, diff);
    } else {
      score := score - 0.1;
    }
  }
}
