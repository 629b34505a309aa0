/** Stone colours and the move-parity rules: black moves first, so move i
    (0-based) is black when i is even. The same rule appears as the sign of
    a prepared move, the X/O label of the numbered move list and the colour
    of a plotted stone. Also the numbered move list itself and the reader
    that takes it apart again. */
module Stones {
  import opened Lexical
  import opened Coordinates

  /** GoSign of the board bridge. */
  datatype GoSign = Black | White | Empty

  /** The value of each member of GoSign. */
  function SignValue(g: GoSign): (v: int)
    ensures -1 <= v <= 1
    ensures v == 1 <==> g == Black
    ensures v == -1 <==> g == White
  {
    match g
    case Black => 1
    case White => -1
    case Empty => 0
  }

  /** GoSign(v), the lookup of a member by value; None for the ValueError. */
  function SignOfValue(v: int): (r: Option<GoSign>)
    ensures r.Some? <==> -1 <= v <= 1
  {
    if v == 1 then Some(Black)
    else if v == -1 then Some(White)
    else if v == 0 then Some(Empty)
    else None
  }

  /** Value and member determine each other. */
  lemma {:induction false} SignRoundTrip(g: GoSign, v: int)
    ensures SignOfValue(SignValue(g)) == Some(g)
    ensures SignOfValue(v).Some? ==> SignValue(SignOfValue(v).value) == v
  {
  }

  /** Whose move index i is: black at even indices. */
  function Mover(i: nat): (g: GoSign)
    ensures g != Empty
    ensures g == Black <==> i % 2 == 0
  {
    if i % 2 == 0 then Black else White
  }

  /** The sign of move i in the prepared move list. */
  function MoveSign(i: nat): int {
    if i % 2 == 0 then 1 else -1
  }

  /** The label of move i in the numbered move list. */
  function MoveLabel(i: nat): char {
    if i % 2 == 0 then 'X' else 'O'
  }

  /** The matplotlib colour of stone i on the plotted board. */
  function PlotColour(i: nat): char {
    if i % 2 == 0 then 'k' else 'w'
  }

  /** The three parity rules agree with each other and with the mover, and
      consecutive moves alternate. */
  lemma {:induction false} ParityAgreement(i: nat)
    ensures MoveSign(i) == SignValue(Mover(i))
    ensures MoveLabel(i) == 'X' <==> Mover(i) == Black
    ensures MoveLabel(i) == 'O' <==> Mover(i) == White
    ensures PlotColour(i) == 'k' <==> Mover(i) == Black
    ensures PlotColour(i) == 'w' <==> Mover(i) == White
    ensures Mover(i + 1) != Mover(i) && MoveSign(i + 1) == -MoveSign(i)
  {
  }

  /* ------------------------------------------------------ prepared moves */

  /** One element of board_prepare_moves: the sign and the vertex. */
  datatype Prepared = Prepared(sign: int, vertex: (int, int))

  /** board_prepare_moves: the comprehension that prepares the moves for the
      board engine. It raises as soon as one move fails to convert; None
      stands for that. */
  function PrepareMoves(moves: seq<string>): (r: Option<seq<Prepared>>)
    ensures r.Some? <==> forall i :: 0 <= i < |moves| ==> MoveToVertex(moves[i]).Some?
    ensures r.Some? ==> |r.value| == |moves|
    ensures r.Some? ==> forall i :: 0 <= i < |moves| ==>
              r.value[i].sign == MoveSign(i) && Some(r.value[i].vertex) == MoveToVertex(moves[i])
    decreases |moves|
  {
    if moves == [] then Some([])
    else
      var n := |moves| - 1;
      assert forall i :: 0 <= i < n ==> moves[..n][i] == moves[i];
      match PrepareMoves(moves[..n])
      case None => None
      case Some(ps) =>
        match MoveToVertex(moves[n])
        case None => None
        case Some(v) =>
          var r := ps + [Prepared(MoveSign(n), v)];
          assert forall i :: 0 <= i < n ==> r[i] == ps[i];
          Some(r)
  }

  /** Valid moves always prepare, and every prepared vertex lies on the board. */
  lemma {:induction false} PreparedOnBoard(moves: seq<string>)
    requires forall i :: 0 <= i < |moves| ==> IsValidMove(moves[i])
    ensures PrepareMoves(moves).Some?
    ensures forall i :: 0 <= i < |moves| ==>
              var v := PrepareMoves(moves).value[i].vertex; 0 <= v.0 < 19 && 0 <= v.1 < 19
  {
    forall i | 0 <= i < |moves|
      ensures MoveToVertex(moves[i]).Some?
      ensures 0 <= MoveToVertex(moves[i]).value.0 < 19 && 0 <= MoveToVertex(moves[i]).value.1 < 19
    {
      ValidMoveBounds(moves[i]);
    }
  }

  /** The prepared signs start at black, follow the mover and alternate. */
  lemma {:induction false} PreparedSignsAlternate(moves: seq<string>)
    requires PrepareMoves(moves).Some?
    ensures var ps := PrepareMoves(moves).value;
            && (|ps| > 0 ==> ps[0].sign == SignValue(Black))
            && (forall i :: 0 <= i < |ps| ==> ps[i].sign == SignValue(Mover(i)))
            && (forall i :: 0 <= i < |ps| - 1 ==> ps[i + 1].sign == -ps[i].sign)
  {
    var ps := PrepareMoves(moves).value;
    forall i | 0 <= i < |ps|
      ensures ps[i].sign == SignValue(Mover(i))
      ensures i < |ps| - 1 ==> ps[i + 1].sign == -ps[i].sign
    {
      ParityAgreement(i);
    }
  }

  /* --------------------------------------------------- numbered move list */

  /** "{i+1}.{X|O}-{move}", the line for move i. */
  function Entry(i: nat, move: string): string {
    Decimal(i + 1) + ['.', MoveLabel(i), '-'] + move
  }

  /** The lines for moves, numbered from k, joined by "\n". */
  function RenderFrom(moves: seq<string>, k: nat): (r: string)
    ensures r == [] <==> moves == []
    decreases |moves|
  {
    if moves == [] then ""
    else if |moves| == 1 then Entry(k, moves[0])
    else Entry(k, moves[0]) + "\n" + RenderFrom(moves[1..], k + 1)
  }

  /** moves_str before the board is appended to it. */
  function RenderMoves(moves: seq<string>): string {
    RenderFrom(moves, 0)
  }

  /** The (label, move) pairs the numbered list stands for, numbered from k. */
  function Listed(moves: seq<string>, k: nat): (r: seq<(string, string)>)
    ensures |r| == |moves|
    ensures forall i :: 0 <= i < |moves| ==> r[i] == ([MoveLabel(k + i)], moves[i])
    decreases |moves|
  {
    if moves == [] then [] else [([MoveLabel(k)], moves[0])] + Listed(moves[1..], k + 1)
  }

  /** The shape the group ([A-T]\d+) captures. */
  predicate IsListedMove(m: string) {
    |m| >= 2 && 'A' <= m[0] <= 'T' && AllDigits(m[1..])
  }

  /** A match of \d+\.(X|O)-([A-T]\d+) at the start of s: the two groups and
      the length matched. Both \d+ are greedy, and a shorter digit run would
      leave a digit where '.' or the end of the match must come, so the
      longest runs are the only match. */
  function EntryAt(s: string): (r: Option<((string, string), nat)>)
    ensures r.Some? ==> 0 < r.value.1 <= |s|
    ensures r.Some? ==> (r.value.0.0 == "X" || r.value.0.0 == "O") && IsListedMove(r.value.0.1)
  {
    var n := DigitRun(s);
    if n == 0 || n + 4 > |s| then None
    else if s[n] == '.' && (s[n + 1] == 'X' || s[n + 1] == 'O') && s[n + 2] == '-' && 'A' <= s[n + 3] <= 'T' then
      var d := DigitRun(s[n + 4..]);
      if d == 0 then None
      else
        var m := s[n + 3..n + 4 + d];
        assert m[1..] == s[n + 4..][..d];
        Some((([s[n + 1]], m), n + 4 + d))
    else None
  }

  /** extract_moves: re.findall scans left to right, takes each match and
      resumes after it, and moves one character on where nothing matches. */
  function ExtractMoves(content: string): (r: seq<(string, string)>)
    ensures forall i :: 0 <= i < |r| ==> (r[i].0 == "X" || r[i].0 == "O") && IsListedMove(r[i].1)
    decreases |content|
  {
    if content == [] then []
    else
      match EntryAt(content)
      case Some(e) => [e.0] + ExtractMoves(content[e.1..])
      case None => ExtractMoves(content[1..])
  }

  /** The line for move k is matched whole when the text goes on with a newline or ends. */
  lemma {:induction false} EntryMatches(k: nat, m: string, t: string)
    requires IsListedMove(m) && (t == [] || t[0] == '\n')
    ensures EntryAt(Entry(k, m) + t) == Some((([MoveLabel(k)], m), |Entry(k, m)|))
  {
    EntryShapeMatches(Decimal(k + 1), MoveLabel(k), m, t);
  }

  /** digits, '.', a label, '-', a listed move, then a non-digit or the end. */
  lemma {:induction false} EntryShapeMatches(d: string, c: char, m: string, t: string)
    requires |d| > 0 && AllDigits(d) && (c == 'X' || c == 'O')
    requires IsListedMove(m) && (t == [] || !IsDigit(t[0]))
    ensures EntryAt(d + ['.', c, '-'] + m + t) == Some((([c], m), |d| + 3 + |m|))
  {
    EntryHead(d, c, m, t);
    EntryMove(d, c, m, t);
    EntryAtParts(d + ['.', c, '-'] + m + t, |d|, m);
  }

  /** The number, the point, the label, the dash and the move's letter. */
  lemma {:induction false} EntryHead(d: string, c: char, m: string, t: string)
    requires |d| > 0 && AllDigits(d) && (c == 'X' || c == 'O') && |m| >= 2
    ensures var s := d + ['.', c, '-'] + m + t; var n := |d|;
            && DigitRun(s) == n && n + 3 + |m| <= |s|
            && s[n] == '.' && s[n + 1] == c && s[n + 2] == '-' && s[n + 3] == m[0]
  {
    var s := d + ['.', c, '-'] + m + t;
    assert s == d + (['.', c, '-'] + m + t);
    DigitRunAll(d, ['.', c, '-'] + m + t);
  }

  /** The move's digits, which the text after the move does not extend. */
  lemma {:induction false} EntryMove(d: string, c: char, m: string, t: string)
    requires IsListedMove(m) && (t == [] || !IsDigit(t[0]))
    ensures var s := d + ['.', c, '-'] + m + t; var n := |d|;
            && n + 3 + |m| <= |s|
            && DigitRun(s[n + 4..]) == |m| - 1 && s[n + 3..n + 3 + |m|] == m
  {
    var s := d + ['.', c, '-'] + m + t;
    var n := |d|;
    assert s[n + 4..] == m[1..] + t;
    DigitRunAll(m[1..], t);
    assert s[n + 3..n + 3 + |m|] == m;
  }

  lemma {:induction false} EntryAtParts(s: string, n: nat, m: string)
    requires 0 < n && |m| >= 2 && n + 3 + |m| <= |s| && DigitRun(s) == n
    requires s[n] == '.' && (s[n + 1] == 'X' || s[n + 1] == 'O') && s[n + 2] == '-' && 'A' <= s[n + 3] <= 'T'
    requires DigitRun(s[n + 4..]) == |m| - 1 && s[n + 3..n + 3 + |m|] == m
    ensures EntryAt(s) == Some((([s[n + 1]], m), n + 3 + |m|))
  {
  }

  /** findall passes over a newline. */
  lemma {:induction false} NewlineSkipped(rest: string)
    ensures ExtractMoves("\n" + rest) == ExtractMoves(rest)
  {
    assert DigitRun("\n" + rest) == 0;
    assert ("\n" + rest)[1..] == rest;
  }

  /** The last line of the list gives its pair. */
  lemma {:induction false} ExtractLastEntry(k: nat, m: string)
    requires IsListedMove(m)
    ensures ExtractMoves(Entry(k, m)) == [([MoveLabel(k)], m)]
  {
    var e := Entry(k, m);
    EntryMatches(k, m, "");
    assert e + "" == e;
    assert e[|e|..] == [];
  }

  /** A line followed by a newline gives its pair, and reading goes on after the newline. */
  lemma {:induction false} ExtractEntryThen(k: nat, m: string, rest: string)
    requires IsListedMove(m)
    ensures ExtractMoves(Entry(k, m) + ("\n" + rest)) == [([MoveLabel(k)], m)] + ExtractMoves(rest)
  {
    var e := Entry(k, m);
    EntryMatches(k, m, "\n" + rest);
    assert (e + ("\n" + rest))[|e|..] == "\n" + rest;
    NewlineSkipped(rest);
  }

  lemma {:induction false} ExtractRenderedFrom(moves: seq<string>, k: nat)
    requires forall i :: 0 <= i < |moves| ==> IsListedMove(moves[i])
    ensures ExtractMoves(RenderFrom(moves, k)) == Listed(moves, k)
    decreases |moves|
  {
    if |moves| == 1 {
      ExtractLastEntry(k, moves[0]);
    } else if |moves| > 1 {
      var rest := RenderFrom(moves[1..], k + 1);
      assert RenderFrom(moves, k) == Entry(k, moves[0]) + ("\n" + rest);
      ExtractEntryThen(k, moves[0], rest);
      ExtractRenderedFrom(moves[1..], k + 1);
    }
  }

  /** extract_moves reads the numbered move list back: the (label, move)
      pairs in order, label X for even and O for odd indices. */
  lemma {:induction false} ExtractMovesRoundTrip(moves: seq<string>)
    requires forall i :: 0 <= i < |moves| ==> IsListedMove(moves[i])
    ensures var r := ExtractMoves(RenderMoves(moves));
            && |r| == |moves|
            && forall i :: 0 <= i < |moves| ==> r[i] == ([MoveLabel(i)], moves[i])
  {
    ExtractRenderedFrom(moves, 0);
  }

  /** Moves written the way the board bridge writes them can be listed. */
  lemma {:induction false} CanonicalIsListed(m: string)
    requires IsCanonicalMove(m)
    ensures IsListedMove(m)
  {
  }
}
