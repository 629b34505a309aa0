/** The Go coordinate codec: letter-plus-number moves ("D4", "Q16") and
    0-based board indices. The column letters run A..T with I skipped, the
    numbers 1..19 count rows from the bottom, so number n is row 19 - n. */
module Coordinates {
  import opened Lexical

  /** The column alphabet of convert_move_to_vertex. */
  const Letters: string := "ABCDEFGHJKLMNOPQRST"

  /** The row_line table of the board bridge: the same alphabet, one string per column. */
  const RowLine: seq<string> := ["A", "B", "C", "D", "E", "F", "G", "H", "J", "K",
                                 "L", "M", "N", "O", "P", "Q", "R", "S", "T"]

  /** The character class [A-HJ-T] of the response patterns. */
  predicate IsBoardLetter(c: char) { 'A' <= c <= 'H' || 'J' <= c <= 'T' }

  /** The column of letter c by the arithmetic of coord_to_number: offset from
      'A', less one past 'I'. */
  function LetterColumn(c: char): int {
    var col := c as int - 'A' as int;
    if c > 'I' then col - 1 else col
  }

  /** The letter of column i by the arithmetic of the x-axis tick labels of
      the plotted board: chr(i + ord('A')) below 8, one further on from 8. */
  function ColumnLetter(i: nat): (c: char)
    requires i < 19
    ensures IsBoardLetter(c) && LetterColumn(c) == i
  {
    if i < 8 then (i + 'A' as int) as char else (i + 'A' as int + 1) as char
  }

  /** Column i of the alphabet is given by the tick-label arithmetic. */
  lemma {:induction false} LettersFormula(i: nat)
    requires i < 19
    ensures |Letters| == 19 && Letters[i] == ColumnLetter(i)
  {
    if i < 10 {
      if i < 5 {
        if i == 0 {} else if i == 1 {} else if i == 2 {} else if i == 3 {} else {}
      } else {
        if i == 5 {} else if i == 6 {} else if i == 7 {} else if i == 8 {} else {}
      }
    } else {
      if i < 15 {
        if i == 10 {} else if i == 11 {} else if i == 12 {} else if i == 13 {} else {}
      } else {
        if i == 15 {} else if i == 16 {} else if i == 17 {} else {}
      }
    }
  }

  /** The bridge's row_line table holds the same letters. */
  lemma {:induction false} RowLineIsLetters(i: nat)
    requires i < 19
    ensures |RowLine| == 19 && RowLine[i] == [ColumnLetter(i)]
  {
    if i < 10 {
      if i < 5 {
        if i == 0 {} else if i == 1 {} else if i == 2 {} else if i == 3 {} else {}
      } else {
        if i == 5 {} else if i == 6 {} else if i == 7 {} else if i == 8 {} else {}
      }
    } else {
      if i < 15 {
        if i == 10 {} else if i == 11 {} else if i == 12 {} else if i == 13 {} else {}
      } else {
        if i == 15 {} else if i == 16 {} else if i == 17 {} else {}
      }
    }
  }

  /** Letter and column determine each other on the class [A-HJ-T]. */
  lemma {:induction false} ColumnLetterInverse(c: char)
    requires IsBoardLetter(c)
    ensures 0 <= LetterColumn(c) < 19 && ColumnLetter(LetterColumn(c)) == c
  {
  }

  /** The alphabet is exactly the class [A-HJ-T]. */
  lemma {:induction false} LetterMember(c: char)
    ensures c in Letters <==> IsBoardLetter(c)
  {
    if IsBoardLetter(c) {
      var i := LetterColumn(c);
      LettersFormula(i);
    } else if c in Letters {
      var i :| 0 <= i < |Letters| && Letters[i] == c;
      LettersFormula(i);
    }
  }

  /** letters.index(c), computed by the arithmetic of LetterColumn; None for
      the ValueError. ColumnIsIndex shows that it is the index in Letters. */
  function ColumnOf(c: char): (r: Option<nat>)
    ensures r.Some? <==> IsBoardLetter(c)
    ensures r.Some? ==> r.value < 19 && r.value == LetterColumn(c)
  {
    if IsBoardLetter(c) then Some(LetterColumn(c) as nat) else None
  }

  /** ColumnOf is the position of the letter in the alphabet. */
  lemma {:induction false} ColumnIsIndex(c: char)
    ensures ColumnOf(c) == IndexOf(Letters, c)
  {
    LetterMember(c);
    if IsBoardLetter(c) {
      var k := IndexOf(Letters, c).value;
      LettersFormula(k);
    }
  }

  /** convert_move_to_vertex: [x, y] with x the position of move[0] in the
      alphabet and y = 19 - int(move[1:]). None stands for the exception the
      source raises: IndexError on "", ValueError from int() or from
      letters.index. The number is not range-checked. */
  function MoveToVertex(move: string): (r: Option<(int, int)>)
    ensures r.Some? <==> move != [] && IsBoardLetter(move[0]) && ParseInt(move[1..]).Some?
    ensures r.Some? ==> r.value.0 == LetterColumn(move[0]) && 0 <= r.value.0 < 19
    ensures r.Some? ==> r.value.1 == 19 - ParseInt(move[1..]).value
  {
    if move == [] then None
    else
      match ParseInt(move[1..])
      case None => None
      case Some(number) =>
        match ColumnOf(move[0])
        case None => None
        case Some(x) => Some((x as int, 19 - number))
  }

  /** The x of a converted move is the index of its letter in the alphabet. */
  lemma {:induction false} VertexColumnIsIndex(move: string)
    requires MoveToVertex(move).Some?
    ensures move[0] in Letters
    ensures IndexOf(Letters, move[0]) == Some(MoveToVertex(move).value.0)
    ensures Letters[MoveToVertex(move).value.0] == move[0]
  {
    ColumnIsIndex(move[0]);
  }

  /** _is_valid_move: at least two characters, a letter of the alphabet
      (LetterMember: the class [A-HJ-T]), and a rest that int() reads as a
      number in [1, 19]. */
  predicate IsValidMove(move: string) {
    && |move| >= 2
    && IsBoardLetter(move[0])
    && match ParseInt(move[1..])
       case None => false
       case Some(num) => 1 <= num <= 19
  }

  /** A move written the way the board bridge writes it: a letter and the
      number in decimal without leading zeros or sign (m[1:] == str(int(m[1:]))). */
  predicate IsCanonicalMove(m: string) {
    && |m| >= 2 && IsBoardLetter(m[0]) && AllDigits(m[1..])
    && 1 <= DigitsValue(m[1..]) <= 19
    && Decimal(DigitsValue(m[1..])) == m[1..]
  }

  /** convert_vertex_to_pos: "" unless the vertex has two components in [0, 18];
      otherwise row_line[row] followed by the decimal of 19 - col. The
      vertex stays a list here because the source checks its length. */
  function VertexToPos(vertex: seq<int>): (r: string)
    ensures r != [] <==> |vertex| == 2 && 0 <= vertex[0] < 19 && 0 <= vertex[1] < 19
  {
    if |vertex| != 2 then ""
    else
      var row, col := vertex[0], vertex[1];
      if 0 <= row < 19 && 0 <= col < 19 then RowLine[row] + Decimal(19 - col) else ""
  }

  /** A move the source validates maps onto the board, and conversely. */
  lemma {:induction false} ValidIffOnBoard(move: string)
    ensures IsValidMove(move) <==> MoveToVertex(move).Some? && 0 <= MoveToVertex(move).value.1 < 19
  {
    if |move| < 2 && move != [] {
      assert move[1..] == [];
    }
  }

  /** Every valid move lands on the board: x, y in [0, 18]. */
  lemma {:induction false} ValidMoveBounds(move: string)
    requires IsValidMove(move)
    ensures MoveToVertex(move).Some?
    ensures var v := MoveToVertex(move).value; 0 <= v.0 < 19 && 0 <= v.1 < 19
  {
    ValidIffOnBoard(move);
  }

  /** The letter I is rejected whatever follows it. */
  lemma {:induction false} LetterIRejected(rest: string)
    ensures MoveToVertex(['I'] + rest).None?
    ensures !IsValidMove(['I'] + rest)
    ensures 'I' !in Letters
  {
    LetterMember('I');
  }

  /** convert_vertex_to_pos(convert_move_to_vertex(m)) == m for a canonical move. */
  lemma {:induction false} MoveRoundTrip(m: string)
    requires IsCanonicalMove(m)
    ensures MoveToVertex(m).Some?
    ensures var v := MoveToVertex(m).value; VertexToPos([v.0, v.1]) == m
    ensures IsValidMove(m)
  {
    var x, n := CanonicalParts(m);
    CanonicalOf(x, n);
    PosOfNumber(x, n);
    ValidIffOnBoard(m);
  }

  /** A canonical move is a letter of the alphabet followed by str(n). */
  lemma {:induction false} CanonicalParts(m: string) returns (x: nat, n: nat)
    requires IsCanonicalMove(m)
    ensures x < 19 && 1 <= n <= 19 && m == [ColumnLetter(x)] + Decimal(n)
  {
    n := DigitsValue(m[1..]);
    ColumnLetterInverse(m[0]);
    x := LetterColumn(m[0]) as nat;
    assert m == [m[0]] + m[1..];
  }

  lemma {:induction false} PosOfNumber(x: nat, n: nat)
    requires x < 19 && 1 <= n <= 19
    ensures VertexToPos([x, 19 - n]) == [ColumnLetter(x)] + Decimal(n)
  {
    PosShape(x, 19 - n);
    assert 19 - (19 - n) == n;
  }

  lemma {:induction false} PosShape(x: nat, y: int)
    requires x < 19 && 0 <= y < 19
    ensures VertexToPos([x, y]) == [ColumnLetter(x)] + Decimal(19 - y)
  {
    RowLineIsLetters(x);
  }

  /** A letter of the alphabet followed by str(n), n in [1, 19], is canonical
      and converts to the letter's column and row 19 - n. */
  lemma {:induction false} CanonicalOf(x: nat, n: nat)
    requires x < 19 && 1 <= n <= 19
    ensures IsCanonicalMove([ColumnLetter(x)] + Decimal(n))
    ensures MoveToVertex([ColumnLetter(x)] + Decimal(n)) == Some((x as int, 19 - n))
  {
    var m := [ColumnLetter(x)] + Decimal(n);
    assert m[1..] == Decimal(n);
    assert ParseInt(m[1..]) == Some(n) by { ParseIntDecimal(n); }
  }

  /** convert_move_to_vertex(convert_vertex_to_pos(v)) == v for every vertex on
      the board, and the position written is canonical. */
  lemma {:induction false} VertexRoundTrip(x: int, y: int)
    requires 0 <= x < 19 && 0 <= y < 19
    ensures IsCanonicalMove(VertexToPos([x, y]))
    ensures MoveToVertex(VertexToPos([x, y])) == Some((x, y))
  {
    var n: nat := 19 - y;
    var m := [ColumnLetter(x)] + Decimal(n);
    assert VertexToPos([x, y]) == m by { PosShape(x, y); }
    CanonicalOf(x, n);
    assert 19 - n == y;
  }

  /** convert_vertex_to_pos is one-to-one on the board: two vertices that give
      the same non-empty position are equal. */
  lemma {:induction false} VertexToPosInjective(v: seq<int>, w: seq<int>)
    requires VertexToPos(v) != "" && VertexToPos(v) == VertexToPos(w)
    ensures v == w
  {
    assert v == [v[0], v[1]] && w == [w[0], w[1]];
    VertexRoundTrip(v[0], v[1]);
    VertexRoundTrip(w[0], w[1]);
  }

  /** int() is lenient, so _is_valid_move accepts a zero-padded number; the
      bridge writes such a move back in canonical form. */
  lemma {:induction false} PaddedNumberAccepted()
    ensures IsValidMove("A05") && !IsCanonicalMove("A05")
    ensures MoveToVertex("A05") == Some((0, 14))
    ensures VertexToPos([0, 14]) == "A5"
  {
    assert "A05"[1..] == "05";
    assert DigitsValue("05") == 5 by { assert "05"[..1] == "0"; }
    ParseIntOfDigits("05");
    assert VertexToPos([0, 14]) == "A5" by {
      PosShape(0, 14);
      assert Decimal(5) == "5";
    }
  }

  /** int() also takes a sign... */
  lemma {:induction false} SignedNumberAccepted()
    ensures IsValidMove("K+7")
  {
    assert "K+7"[1..] == ['+'] + "7";
    assert DigitsValue("7") == 7;
    ParseIntPlus("7");
  }

  /** ... and white space around the number. */
  lemma {:induction false} SpacedNumberAccepted()
    ensures IsValidMove("K 7 ")
  {
    assert "K 7 "[1..] == " 7 ";
    assert ParseInt(" 7 ") == Some(7) by { SpacedSeven(); }
  }

  lemma {:induction false} SpacedSeven()
    ensures ParseInt(" 7 ") == Some(7)
  {
    assert IsSpace(' ') && !IsSpace('7');
    assert " 7 "[1..] == "7 " && "7 "[..1] == "7";
    assert TrimLeft(" 7 ") == "7 " && TrimRight("7 ") == "7";
    ParseIntOfDigits("7");
  }

  /** convert_move_to_vertex does not check the number. */
  lemma {:induction false} NumberNotRangeChecked()
    ensures MoveToVertex("A20") == Some((0, -1))
    ensures !IsValidMove("A20")
  {
    assert "A20"[1..] == "20";
    assert DigitsValue("20") == 20 by { assert "20"[..1] == "2"; }
    ParseIntOfDigits("20");
  }

  /* ------------------------------------------ the board-plotting variant */

  /** str.upper() on one character, for ASCII letters: a lower-case letter
      becomes the capital at the same place in the alphabet, and every other
      character, capitals included, is kept. */
  function Upper(c: char): (u: char)
    ensures 'a' <= c <= 'z' ==> 'A' <= u <= 'Z' && u as int - 'A' as int == c as int - 'a' as int
    ensures 'A' <= c <= 'Z' ==> u == c
    ensures !('a' <= c <= 'z') ==> u == c
  {
    if 'a' <= c <= 'z' then (c as int - 32) as char else c
  }

  /** coord_to_number: (row, col) with row = 19 - int(coord[1:]) and col the
      upper-cased letter's LetterColumn. Nothing is rejected but "" and an
      unreadable number (None for the IndexError / ValueError). */
  function CoordToNumber(coord: string): (r: Option<(int, int)>)
    ensures r.Some? <==> coord != [] && ParseInt(coord[1..]).Some?
    ensures r.Some? ==> r.value.1 == LetterColumn(Upper(coord[0]))
                        && r.value.0 == 19 - ParseInt(coord[1..]).value
  {
    if coord == [] then None
    else
      var letter := Upper(coord[0]);
      match ParseInt(coord[1..])
      case None => None
      case Some(number) =>
        var col := letter as int - 'A' as int;
        var col' := if letter > 'I' then col - 1 else col;
        Some((19 - number, col'))
  }

  /** A lower-case letter gives the same point as its upper-case form. */
  lemma {:induction false} CoordCaseInsensitive(c: char, rest: string)
    requires 'a' <= c <= 'z'
    ensures CoordToNumber([c] + rest) == CoordToNumber([Upper(c)] + rest)
  {
    assert ([c] + rest)[1..] == rest && ([Upper(c)] + rest)[1..] == rest;
  }

  /** On the letters of the alphabet the plotting variant is the transpose of
      convert_move_to_vertex: (row, col) == (y, x), and both fail together. */
  lemma {:induction false} CoordIsTranspose(move: string)
    requires move != [] && move[0] in Letters
    ensures CoordToNumber(move).Some? <==> MoveToVertex(move).Some?
    ensures CoordToNumber(move).Some? ==>
              var v := MoveToVertex(move).value;
              CoordToNumber(move).value == (v.1, v.0)
  {
    LetterMember(move[0]);
  }

  /** Letter columns lie in [0, 18]: [0, 7] for A..H and [8, 18] for J..T. */
  lemma {:induction false} LetterColumnRange(c: char)
    requires IsBoardLetter(c)
    ensures 'A' <= c <= 'H' ==> 0 <= LetterColumn(c) <= 7
    ensures 'J' <= c <= 'T' ==> 8 <= LetterColumn(c) <= 18
  {
  }

  /** The plotting variant sees a coordinate only through its letter's column
      and the text after the letter. */
  lemma {:induction false} CoordByColumn(a: string, b: string)
    requires a != [] && b != [] && a[1..] == b[1..]
    requires LetterColumn(Upper(a[0])) == LetterColumn(Upper(b[0]))
    ensures CoordToNumber(a) == CoordToNumber(b)
  {
  }

  /** The letter I is not rejected by the plotting variant: it lands on column
      8, the column of J. */
  lemma {:induction false} LetterIAliasesJ(rest: string)
    ensures CoordToNumber(['I'] + rest) == CoordToNumber(['J'] + rest)
    ensures ParseInt(rest).Some? ==> CoordToNumber(['I'] + rest).value.1 == 8
  {
    assert (['I'] + rest)[1..] == rest && (['J'] + rest)[1..] == rest;
    CoordByColumn(['I'] + rest, ['J'] + rest);
  }

  /** The tick label under a letter's column gives the letter back, for every
      upper-case letter from A to T except I, whose column is labelled J. */
  lemma {:induction false} XTickLabelInverse(letter: char)
    requires 'A' <= letter <= 'T'
    ensures 0 <= LetterColumn(letter) < 19
    ensures ColumnLetter(LetterColumn(letter)) == (if letter == 'I' then 'J' else letter)
  {
  }
}
