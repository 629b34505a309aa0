/** The evaluator's scorekeeping: for each position, the reply the model gave
    is read for a move and a win rate, compared with KataGo's candidates, and
    counted; a file of positions is evaluated in turn and summarised. The
    model's reply is given: None stands for a failed API call. */
module Evaluation {
  import opened Lexical
  import opened Coordinates
  import opened Candidates
  import opened EvalResponse
  import RewardResponse
  import Rendered

  /** One position of a benchmark file: the reply obtained for it, and
      KataGo's candidates. */
  datatype Position = Position(reply: Option<string>, candidates: seq<Candidate>)

  /** The record evaluate_position returns (the prompt is left out). */
  datatype PositionResult = PositionResult(
    predictedMove: string,
    predictedWinRate: Option<real>,
    currMoveWinRate: Option<real>,
    bestMoveWinRate: real,
    matched: bool,
    rank: Option<nat>,
    winRateGap: Option<real>,
    scoreLeadGap: Option<real>,
    rawResponse: string,
    bestMove: string,
    bestWinRate: real)

  /** evaluate_position succeeds: it raises when the API call failed (get_move
      then returns two values where three are unpacked) and when there are no
      candidates (max() of an empty list). */
  predicate Succeeds(reply: Option<string>, cs: seq<Candidate>) {
    reply.Some? && cs != []
  }

  /** evaluate_position as a function of the reply and the candidates: None
      when it raises. */
  function Evaluate(reply: Option<string>, cs: seq<Candidate>): (r: Option<PositionResult>)
    ensures r.Some? <==> Succeeds(reply, cs)
    ensures r.Some? ==> r.value.predictedMove == ExtractMove(reply.value)
    ensures r.Some? ==> r.value.predictedWinRate == ExtractWinRate(reply.value)
    ensures r.Some? ==> r.value.rawResponse == reply.value
    ensures r.Some? ==> WellFormed(r.value)
  {
    if reply.None? || cs == [] then None
    else Some(Assess(ExtractMove(reply.value), ExtractWinRate(reply.value), reply.value, cs))
  }

  /** The comparison of a predicted move and win rate with the candidates: the
      first maximal candidate is the best one, the first candidate with the
      predicted move gives the rank, and the gaps are taken against it. */
  function Assess(move: string, rate: Option<real>, raw: string, cs: seq<Candidate>): (r: PositionResult)
    requires cs != []
    ensures r.predictedMove == move && r.predictedWinRate == rate && r.rawResponse == raw
    ensures r.matched <==> exists j :: 0 <= j < |cs| && cs[j].move == move
    ensures r.rank.Some? <==> r.matched
    ensures r.rank.Some? ==>
              var k := r.rank.value;
              && 1 <= k <= |cs| && cs[k - 1].move == move
              && r.currMoveWinRate == Some(cs[k - 1].winRate)
              && forall j :: 0 <= j < k - 1 ==> cs[j].move != move
    ensures r.winRateGap.Some? <==> r.matched && rate.Some?
    ensures r.scoreLeadGap.Some? <==> r.matched
    ensures r.currMoveWinRate.Some? <==> r.matched
    ensures r.winRateGap.Some? ==> r.winRateGap.value >= 0.0
    ensures r.scoreLeadGap.Some? ==> r.scoreLeadGap.value >= 0.0
    ensures exists b: nat :: IsFirstMax(cs, b) && cs[b].move == r.bestMove
                        && cs[b].winRate == r.bestWinRate == r.bestMoveWinRate
  {
    var best := cs[MaxByWinRate(cs)];
    match FirstMatch(cs, move)
    case None =>
      PositionResult(move, rate, None, best.winRate, false, None, None, None,
                     raw, best.move, best.winRate)
    case Some(k) =>
      var c := cs[k];
      var gap := if rate.None? then None else Some(Abs(rate.value - c.winRate));
      PositionResult(move, rate, Some(c.winRate), best.winRate, true, Some(k + 1), gap,
                     Some(Abs(best.scoreLead - c.scoreLead)), raw, best.move, best.winRate)
  }

  /** Assess when the k-th candidate is the first with the move. */
  lemma {:induction false} AssessMatched(move: string, rate: Option<real>, raw: string, cs: seq<Candidate>, k: nat)
    requires cs != [] && k < |cs| && cs[k].move == move
    requires forall j :: 0 <= j < k ==> cs[j].move != move
    ensures var best, c := cs[MaxByWinRate(cs)], cs[k];
            Assess(move, rate, raw, cs)
            == PositionResult(move, rate, Some(c.winRate), best.winRate, true, Some(k + 1),
                              if rate.None? then None else Some(Abs(rate.value - c.winRate)),
                              Some(Abs(best.scoreLead - c.scoreLead)), raw, best.move, best.winRate)
  {
    FirstMatchAt(cs, move, k);
  }

  /** Assess when no candidate has the move. */
  lemma {:induction false} AssessUnmatched(move: string, rate: Option<real>, raw: string, cs: seq<Candidate>)
    requires cs != [] && forall j :: 0 <= j < |cs| ==> cs[j].move != move
    ensures var best := cs[MaxByWinRate(cs)];
            Assess(move, rate, raw, cs)
            == PositionResult(move, rate, None, best.winRate, false, None, None, None, raw, best.move, best.winRate)
  {
    assert FirstMatch(cs, move).None?;
  }

  /** A rendered reply is assessed with the move of its position box and the
      win rate of its win-rate box read as a percentage. */
  lemma {:induction false} EvaluateReply(reasoning: string, c: char, m: string, w: string, f: string,
                                         cs: seq<Candidate>)
    requires '\\' !in reasoning && Rendered.IsColour(c) && IsExtractedMove(m) && Rendered.IsRateNumeral(w, f)
    requires cs != []
    ensures Evaluate(Some(Rendered.Reply(reasoning, c, m, w, f)), cs)
         == Some(Assess(m, Some(DecimalReal(w, f) / 100.0), Rendered.Reply(reasoning, c, m, w, f), cs))
  {
    Rendered.EvalReadsMove(reasoning, c, m, w, f);
    assert RewardResponse.IsCoordinate(m);
    Rendered.EvalReadsWinRate(reasoning, c, m, w, f);
  }

  /** The summary evaluate_file returns. */
  datatype Stats = Stats(totalMoves: nat, matchedMoves: nat, matchRate: real, averageWinRateGap: real)

  /** The summary of the counters: the match rate over all moves, or 0 with no
      moves; the win-rate gap summed over the matched moves with a win rate and
      divided by all moves, or 1.0 with no moves. */
  function StatsOf(total: nat, matched: nat, gap: real): (s: Stats)
    ensures s.totalMoves == total && s.matchedMoves == matched
    ensures matched <= total ==> 0.0 <= s.matchRate <= 1.0
    ensures total > 0 && matched == total ==> s.matchRate == 1.0
    ensures gap >= 0.0 ==> s.averageWinRateGap >= 0.0
    ensures total == 0 ==> s.matchRate == 0.0 && s.averageWinRateGap == 1.0
  {
    Stats(total, matched,
          if total > 0 then matched as real / total as real else 0.0,
          if total > 0 then gap / total as real else 1.0)
  }

  /** One more for each matched result. */
  function MatchedCount(rs: seq<PositionResult>): (n: nat)
    ensures n <= |rs|
    decreases |rs|
  {
    if rs == [] then 0
    else MatchedCount(rs[..|rs| - 1]) + (if rs[|rs| - 1].matched then 1 else 0)
  }

  /** The gap a result adds to the total: its win-rate gap, or nothing. */
  function GapOf(r: PositionResult): real {
    if r.winRateGap.Some? then r.winRateGap.value else 0.0
  }

  /** The sum of the win-rate gaps of the results. */
  function GapSum(rs: seq<PositionResult>): real
    decreases |rs|
  {
    if rs == [] then 0.0 else GapSum(rs[..|rs| - 1]) + GapOf(rs[|rs| - 1])
  }

  /** One more result adds its own match and gap to the counts. */
  lemma {:induction false} CountsNext(rs: seq<PositionResult>, r: PositionResult)
    ensures MatchedCount(rs + [r]) == MatchedCount(rs) + (if r.matched then 1 else 0)
    ensures GapSum(rs + [r]) == GapSum(rs) + GapOf(r)
  {
    assert (rs + [r])[..|rs|] == rs;
  }

  /** A result the evaluator can return: its gaps are never negative. */
  predicate WellFormed(r: PositionResult) {
    r.winRateGap.Some? ==> r.winRateGap.value >= 0.0
  }

  lemma {:induction false} GapSumNonNegative(rs: seq<PositionResult>)
    requires forall k :: 0 <= k < |rs| ==> WellFormed(rs[k])
    ensures GapSum(rs) >= 0.0
    decreases |rs|
  {
    if rs != [] {
      var n := |rs| - 1;
      assert forall k :: 0 <= k < n ==> rs[..n][k] == rs[k];
      GapSumNonNegative(rs[..n]);
      assert WellFormed(rs[n]);
    }
  }

  /** The number of positions of a file the evaluator gets through: all of
      them, or up to the first one on which evaluate_position raises. */
  function Processed(data: seq<Position>): (n: nat)
    ensures n <= |data|
    ensures forall k :: 0 <= k < n ==> Succeeds(data[k].reply, data[k].candidates)
    ensures n < |data| ==> !Succeeds(data[n].reply, data[n].candidates)
    decreases |data|
  {
    if data == [] || !Succeeds(data[0].reply, data[0].candidates) then 0
    else 1 + Processed(data[1..])
  }

  /** The result of the k-th position of a file, one the evaluator gets
      through. */
  function ResultAt(data: seq<Position>, k: nat): (r: PositionResult)
    requires k < Processed(data)
    ensures Some(r) == Evaluate(data[k].reply, data[k].candidates)
    ensures WellFormed(r)
  {
    Evaluate(data[k].reply, data[k].candidates).value
  }

  /** The results of the first n positions, all of which succeed. */
  function Results(data: seq<Position>, n: nat): (rs: seq<PositionResult>)
    requires n <= Processed(data)
    ensures |rs| == n
    ensures forall k :: 0 <= k < n ==> rs[k] == ResultAt(data, k)
  {
    if n == 0 then []
    else
      var prev := Results(data, n - 1);
      var rs := prev + [ResultAt(data, n - 1)];
      assert forall k :: 0 <= k < n - 1 ==> rs[k] == prev[k];
      rs
  }

  /** A position that succeeds after the first i extends the results by its
      own. */
  lemma {:induction false} ResultsNext(data: seq<Position>, i: nat, v: PositionResult)
    requires i <= Processed(data) && i < |data|
    requires Evaluate(data[i].reply, data[i].candidates) == Some(v)
    ensures i + 1 <= Processed(data)
    ensures Results(data, i + 1) == Results(data, i) + [v]
  {
  }

  /** The evaluator and its three counters. */
  class Evaluator {
    var totalMoves: nat
    var matchedMoves: nat
    var totalWinRateGap: real

    /** No more matched moves than moves, and no negative gap. */
    ghost predicate Valid()
      reads this
    {
      matchedMoves <= totalMoves && totalWinRateGap >= 0.0
    }

    constructor ()
      ensures Valid()
      ensures totalMoves == 0 && matchedMoves == 0 && totalWinRateGap == 0.0
    {
      totalMoves := 0;
      matchedMoves := 0;
      totalWinRateGap := 0.0;
    }

    /** The summary of the counters. */
    function Summary(): (s: Stats)
      reads this
      ensures Valid() ==> 0.0 <= s.matchRate <= 1.0 && s.averageWinRateGap >= 0.0
    {
      StatsOf(totalMoves, matchedMoves, totalWinRateGap)
    }

    /** evaluate_position: read the reply for a move and a win rate, then
        compare them with the candidates and count the move. Nothing changes
        when it raises. */
    method EvaluatePosition(reply: Option<string>, cs: seq<Candidate>) returns (r: Option<PositionResult>)
      requires Valid()
      modifies this
      ensures Valid()
      ensures r == Evaluate(reply, cs)
      ensures r.None? ==> unchanged(this)
      ensures r.Some? ==> totalMoves == old(totalMoves) + 1
      ensures r.Some? ==> matchedMoves == old(matchedMoves) + (if r.value.matched then 1 else 0)
      ensures r.Some? ==> totalWinRateGap == old(totalWinRateGap) + GapOf(r.value)
    {
      if reply.None? {
        return None;
      }
      var raw := reply.value;
      var predictedMove := ExtractMove(raw);
      var predictedWinRate := ExtractWinRate(raw);
      if cs == [] {
        return None;
      }
      var result := Tally(predictedMove, predictedWinRate, raw, cs);
      r := Some(result);
    }

    /** The rest of evaluate_position: take the first maximal candidate as
        the best, search the candidates for the first one with the predicted
        move, compute the gaps and count the move. */
    method Tally(predictedMove: string, predictedWinRate: Option<real>, raw: string, cs: seq<Candidate>)
      returns (r: PositionResult)
      requires Valid() && cs != []
      modifies this
      ensures Valid()
      ensures r == Assess(predictedMove, predictedWinRate, raw, cs)
      ensures totalMoves == old(totalMoves) + 1
      ensures matchedMoves == old(matchedMoves) + (if r.matched then 1 else 0)
      ensures totalWinRateGap == old(totalWinRateGap) + GapOf(r)
    {
      var best := cs[MaxByWinRate(cs)];
      var matched, rank := MatchCandidate(predictedMove, cs);
      if matched.Some? {
        var c := matched.value;
        AssessMatched(predictedMove, predictedWinRate, raw, cs, rank.value - 1);
        var winRateGap := if predictedWinRate.None? then None else Some(Abs(predictedWinRate.value - c.winRate));
        var scoreLeadGap := Abs(best.scoreLead - c.scoreLead);
        totalMoves := totalMoves + 1;
        matchedMoves := matchedMoves + 1;
        if winRateGap.Some? {
          totalWinRateGap := totalWinRateGap + winRateGap.value;
        }
        r := PositionResult(predictedMove, predictedWinRate, Some(c.winRate), best.winRate, true, rank,
                            winRateGap, Some(scoreLeadGap), raw, best.move, best.winRate);
      } else {
        AssessUnmatched(predictedMove, predictedWinRate, raw, cs);
        totalMoves := totalMoves + 1;
        r := PositionResult(predictedMove, predictedWinRate, None, best.winRate, false, None,
                            None, None, raw, best.move, best.winRate);
      }
    }

    /** The loop of evaluate_position that stops at the first candidate with
        the predicted move: that candidate and its 1-based rank, or neither. */
    static method MatchCandidate(move: string, cs: seq<Candidate>) returns (matched: Option<Candidate>, rank: Option<nat>)
      ensures rank.None? <==> forall j :: 0 <= j < |cs| ==> cs[j].move != move
      ensures rank.None? ==> matched.None?
      ensures rank.Some? ==>
                var k := rank.value;
                && 1 <= k <= |cs| && cs[k - 1].move == move && matched == Some(cs[k - 1])
                && forall j :: 0 <= j < k - 1 ==> cs[j].move != move
    {
      matched := None;
      rank := None;
      var i := 0;
      while i < |cs|
        invariant i <= |cs|
        invariant matched.None? && rank.None?
        invariant forall j :: 0 <= j < i ==> cs[j].move != move
      {
        if cs[i].move == move {
          matched := Some(cs[i]);
          rank := Some(i + 1);
          break;
        }
        i := i + 1;
      }
    }

    /** evaluate_file over positions taken in order: the results of the
        positions it gets through, and the summary when it gets through all
        of them (an exception on one position ends the whole evaluation). */
    method EvaluateFile(data: seq<Position>) returns (stats: Option<Stats>, results: seq<PositionResult>)
      requires Valid()
      modifies this
      ensures Valid()
      ensures results == Results(data, Processed(data))
      ensures totalMoves == old(totalMoves) + |results|
      ensures matchedMoves == old(matchedMoves) + MatchedCount(results)
      ensures totalWinRateGap == old(totalWinRateGap) + GapSum(results)
      ensures stats.Some? <==> Processed(data) == |data|
      ensures stats.Some? ==> stats.value == Summary()
    {
      results := [];
      var i := 0;
      while i < |data|
        invariant i <= Processed(data)
        invariant Valid()
        invariant results == Results(data, i)
        invariant totalMoves == old(totalMoves) + |results|
        invariant matchedMoves == old(matchedMoves) + MatchedCount(results)
        invariant totalWinRateGap == old(totalWinRateGap) + GapSum(results)
      {
        var r := EvaluatePosition(data[i].reply, data[i].candidates);
        if r.None? {
          return None, results;
        }
        ResultsNext(data, i, r.value);
        CountsNext(results, r.value);
        results := results + [r.value];
        i := i + 1;
      }
      stats := Some(Summary());
    }
  }

  /** A fresh evaluator that gets through a whole file reports the share of
      positions whose predicted move is a candidate, and the gap summed over
      them divided by the number of positions. */
  lemma {:induction false} FreshFileStats(data: seq<Position>)
    requires Processed(data) == |data| && |data| > 0
    ensures var rs := Results(data, |data|);
            var s := StatsOf(|rs|, MatchedCount(rs), GapSum(rs));
            && s.matchRate == MatchedCount(rs) as real / |data| as real
            && 0.0 <= s.matchRate <= 1.0
            && s.averageWinRateGap == GapSum(rs) / |data| as real
            && s.averageWinRateGap >= 0.0
  {
    GapSumNonNegative(Results(data, |data|));
  }
}
