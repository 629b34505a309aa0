/** KataGo's candidate moves for a position, and the lookups that the
    evaluator and the reward scorer make on a candidate list. */
module Candidates {
  import opened Lexical

  /** One engine candidate: its move, win rate and score lead. */
  datatype Candidate = Candidate(move: string, winRate: real, scoreLead: real)

  /** The index of the first candidate with the given move. */
  function FirstMatch(cs: seq<Candidate>, move: string): (r: Option<nat>)
    ensures r.Some? ==> r.value < |cs| && cs[r.value].move == move
    ensures r.Some? ==> forall j :: 0 <= j < r.value ==> cs[j].move != move
    ensures r.None? <==> forall j :: 0 <= j < |cs| ==> cs[j].move != move
    decreases |cs|
  {
    if cs == [] then None
    else if cs[0].move == move then Some(0)
    else
      match FirstMatch(cs[1..], move)
      case None => None
      case Some(k) => Some(k + 1)
  }
  /** The first candidate with the move is the one before which none has it. */
  lemma {:induction false} FirstMatchAt(cs: seq<Candidate>, move: string, k: nat)
    requires k < |cs| && cs[k].move == move
    requires forall j :: 0 <= j < k ==> cs[j].move != move
    ensures FirstMatch(cs, move) == Some(k)
  {
    var r := FirstMatch(cs, move);
    assert r.Some?;
    assert !(r.value < k);
    assert !(k < r.value);
  }


  /** The index of the last candidate with the given move. */
  function LastMatch(cs: seq<Candidate>, move: string): (r: Option<nat>)
    ensures r.Some? ==> r.value < |cs| && cs[r.value].move == move
    ensures r.Some? ==> forall j :: r.value < j < |cs| ==> cs[j].move != move
    ensures r.None? <==> forall j :: 0 <= j < |cs| ==> cs[j].move != move
    decreases |cs|
  {
    if cs == [] then None
    else if cs[|cs| - 1].move == move then Some(|cs| - 1)
    else LastMatch(cs[..|cs| - 1], move)
  }

  /** The dictionary {move: candidate} built by the scorer's comprehension:
      entries are inserted in order, so a later one replaces an earlier one. */
  function CandidateMap(cs: seq<Candidate>): map<string, Candidate>
    decreases |cs|
  {
    if cs == [] then map[]
    else CandidateMap(cs[..|cs| - 1])[cs[|cs| - 1].move := cs[|cs| - 1]]
  }

  /** A move is a key exactly when some candidate has it, and the value kept
      is the last such candidate. */
  lemma {:induction false} CandidateMapLast(cs: seq<Candidate>, move: string)
    ensures move in CandidateMap(cs) <==> LastMatch(cs, move).Some?
    ensures move in CandidateMap(cs) ==> CandidateMap(cs)[move] == cs[LastMatch(cs, move).value]
    decreases |cs|
  {
    if cs != [] {
      var n := |cs| - 1;
      CandidateMapLast(cs[..n], move);
      if cs[n].move != move {
        assert LastMatch(cs, move) == LastMatch(cs[..n], move);
        if LastMatch(cs, move).Some? {
          assert cs[..n][LastMatch(cs, move).value] == cs[LastMatch(cs, move).value];
        }
      }
    }
  }

  /** True when candidate b is the first one with the greatest win rate. */
  predicate IsFirstMax(cs: seq<Candidate>, b: nat) {
    && b < |cs|
    && (forall j :: 0 <= j < |cs| ==> cs[j].winRate <= cs[b].winRate)
    && (forall j :: 0 <= j < b ==> cs[j].winRate < cs[b].winRate)
  }

  /** max(candidates, key=win_rate): Python's max keeps the current item unless
      a later one is strictly greater, so it returns the first maximal item.
      It raises on an empty list, hence the precondition. */
  function MaxByWinRate(cs: seq<Candidate>): (b: nat)
    requires |cs| > 0
    ensures IsFirstMax(cs, b)
    decreases |cs|
  {
    if |cs| == 1 then 0
    else
      var n := |cs| - 1;
      var b := MaxByWinRate(cs[..n]);
      assert forall j :: 0 <= j < n ==> cs[..n][j] == cs[j];
      if cs[b].winRate < cs[n].winRate then n else b
  }

  /** At most one index is the first maximal one. */
  lemma {:induction false} FirstMaxUnique(cs: seq<Candidate>, a: nat, b: nat)
    requires IsFirstMax(cs, a) && IsFirstMax(cs, b)
    ensures a == b
  {
    assert cs[a].winRate <= cs[b].winRate && cs[b].winRate <= cs[a].winRate;
  }

  /** The scorer's search for the best move, starting from no move and win
      rate 0 and taking a candidate only when its win rate is strictly
      greater: the first candidate with the greatest positive win rate, or
      None when no win rate is positive. */
  function BestPositive(cs: seq<Candidate>): (r: Option<nat>)
    ensures r.Some? ==> IsFirstMax(cs, r.value) && cs[r.value].winRate > 0.0
    ensures r.None? <==> forall j :: 0 <= j < |cs| ==> cs[j].winRate <= 0.0
    decreases |cs|
  {
    if cs == [] then None
    else
      var n := |cs| - 1;
      var r := BestPositive(cs[..n]);
      assert forall j :: 0 <= j < n ==> cs[..n][j] == cs[j];
      if BestRate(cs[..n], r) < cs[n].winRate then Some(n) else r
  }

  /** The win rate that goes with a best index: 0 when there is none. */
  function BestRate(cs: seq<Candidate>, r: Option<nat>): real
    requires r.Some? ==> r.value < |cs|
  {
    match r
    case None => 0.0
    case Some(b) => cs[b].winRate
  }

  /** The best rate is never negative and bounds every win rate from above. */
  lemma {:induction false} BestRateBounds(cs: seq<Candidate>)
    ensures BestRate(cs, BestPositive(cs)) >= 0.0
    ensures forall j :: 0 <= j < |cs| ==> cs[j].winRate <= BestRate(cs, BestPositive(cs))
  {
  }

  /** When some win rate is positive, the scorer and the evaluator pick the
      same best candidate. */
  lemma {:induction false} BestPositiveIsMax(cs: seq<Candidate>)
    requires exists j :: 0 <= j < |cs| && cs[j].winRate > 0.0
    ensures BestPositive(cs) == Some(MaxByWinRate(cs))
  {
    var b := BestPositive(cs).value;
    FirstMaxUnique(cs, b, MaxByWinRate(cs));
  }
}
