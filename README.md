# InternGo evaluation and reward core in Dafny

This project models the parts of InternGo that turn a language model's Go
answer into numbers. InternGo is a harness that compares the model with
KataGo's analysis of a position. The model covers four parts:

- **The coordinate codec.** It converts between letter-and-number moves
  ("D4"; letters A-T without I, numbers 1-19) and 0-based board vertices.
  There are four copies: `convert_move_to_vertex` (two identical copies),
  its inverse `convert_vertex_to_pos`, the transposed `coord_to_number` of
  the board plotter, and the validator `_is_valid_move`. The model also
  covers the x-axis tick labels and the `row_line` table.
- **The stone colours and the move list.** This covers the `GoSign`
  values, the move-parity rules (sign, X/O label, plot colour), the
  prepared-move list sent to the board engine, and the numbered move list
  with `extract_moves`, which reads it back.
- **The response readers.**
  - The benchmark evaluator's `_extract_move` and `_extract_win_rate`.
  - The reward function's `extract_coordinate`: assistant segment,
    reasoning block, answer block, colour, coordinate and win-rate boxes.
  - Each regular expression is modelled as a leftmost search
    (`Lexical.Search`) of a matcher written by hand for that pattern. Each
    matcher's comment explains why greedy matching and backtracking cannot
    choose a different match.
- **The scorers.**
  - The reward `compute_score`, as a specification function (`Score`) and
    as the accumulating method the source runs (`ComputeScore`).
  - The evaluator's `evaluate_position` and `evaluate_file`, as a class
    `Evaluator` with the three counters the source updates, proved against
    specification functions (`Evaluate`, `Assess`, `Results`, `StatsOf`).

Python's `int()`, `float()` and `str()` are modelled on the inputs they get
here:
- `int()` strips white space, takes an optional sign, and accepts ASCII
  digits with single underscores.
- `float()` is applied to runs over `[0-9.]` and gives an exact real.
- `str()` is applied to naturals.

Win rates are exact reals throughout.

Besides what each function promises on its own, the model proves how the
parts fit together:
- Replies written in the format the prompts ask for are read back by both
  readers (`Rendered`), under stated conditions:
  - the colour is 黑 or 白;
  - the move is a board letter and digits;
  - the win rate is digits, a point and digits;
  - the reasoning holds no '<' (for the reward reader) and no backslash
    (for the evaluator);
  - for the reward reader, the assistant marker does not start inside the
    prompt. This holds for a prompt without '<', and for a chat-template
    prompt of system and user turns whose texts never put '|' right after
    '<' (`ChatMarkerFirst`).
- The codec round-trips in both directions.
- The numbered move list is read back into the pairs it was written from.
- The scorer's bounds hold: every score lies in [0, 1]; a matched reply scores
  more than 0.3; each tier has its own range; the full score holds exactly
  when the reply names the best move and predicts its win rate.
- The evaluator's counters stay consistent.

### Where the code differs from its documented behaviour

The model follows the code in each case:
- **The average win-rate gap** divides the summed gap by `total_moves`
  (`KataGo-Eval.py:269`), not by the number of matched positions.
- **A failed API call.** `get_move` returns two values on an API error
  (`KataGo-Eval.py:109`), but `evaluate_position` unpacks three
  (`KataGo-Eval.py:178`). So a failed call raises instead of being recorded
  as an empty prediction. `Evaluate` gives `None` for it, and
  `EvaluateFile` then stops without a summary.
- **A move that is not a candidate** scores 0.1 − 0.1 = 0, and a wrong
  colour does too. No path goes below zero, so every score lies in [0, 1]
  (`ScoreBounds`), not in [−0.1, 1].
- **`convert_move_to_vertex` does not range-check the number.** "A20"
  converts to (0, −1) (`NumberNotRangeChecked`). Only `_is_valid_move`
  checks 1 ≤ number ≤ 19.
- **The reward reader's win-rate box** requires digits, a point, digits
  and a `%` (`\d+\.\d+\%`). The evaluator's box instead takes `[0-9.]+`
  with an optional `%`.

## Model

| member | source | states |
|---|---|---|
| Lexical.Decimal | KataGo-Bench-1K/GO_ELO/python_caller.py:223 | str() of a natural: non-empty decimal digits whose value is n, no leading zero except for 0, one digit exactly below 10 and two exactly from 10 to 99 |
| Lexical.IndexOf | KataGo-Bench-1K/GO_ELO/KataGo-Eval.py:36 | str.index: the first position holding c, and None exactly when c does not occur |
| Lexical.ParseIntOfDigits | KataGo-Bench-1K/GO_ELO/KataGo-Eval.py:32 | int() of a non-empty run of digits is its value, leading zeros allowed |
| Lexical.ParseIntPlus | KataGo-Bench-1K/GO_ELO/KataGo-Eval.py:171 | int() takes a leading '+' before the digits |
| Lexical.ParseIntMinus | KataGo-Bench-1K/GO_ELO/KataGo-Eval.py:171 | int() takes a leading '-' and negates |
| Lexical.ParseIntDecimal | KataGo-Bench-1K/GO_ELO/python_caller.py:222-223 | int(str(n)) == n for every natural n |
| Lexical.ParseFloatRun | KataGo-Bench-1K/GO_ELO/KataGo-Eval.py:150-156 | float() of a run over [0-9.] succeeds only on a non-empty string and gives a non-negative value |
| Lexical.DecimalReal | RL_utils/Go_reward.py:75 | the value of whole.frac is exact and non-negative |
| Lexical.Abs | RL_utils/Go_reward.py:148 | abs() is non-negative and equals x or −x |
| Lexical.Search | KataGo-Bench-1K/GO_ELO/KataGo-Eval.py:124 | re.search: a match at the leftmost position where the pattern succeeds, failing at every earlier position; None exactly when it fails at every position |
| Lexical.SearchAt | KataGo-Bench-1K/GO_ELO/KataGo-Eval.py:144 | the first position where the pattern succeeds determines the search result |
| Lexical.SearchSkip | RL_utils/Go_reward.py:60 | text on which the pattern cannot start is passed over, and the match moves by the length of that text |
| Lexical.FindIsFirst | RL_utils/Go_reward.py:53 | the literal search returns an occurrence with none before it, and None exactly when the literal does not occur |
| Lexical.BlockOfFinds | RL_utils/Go_reward.py:53 | a lazy DOTALL block is the text from just after the first open tag up to the first close tag after it |
| Coordinates.ColumnLetter | useful_tools/Board_visialize.py:47 | the tick label of column i is a board letter whose column is i |
| Coordinates.LettersFormula | KataGo-Bench-1K/GO_ELO/KataGo-Eval.py:35 | the alphabet has 19 letters, and its i-th is the tick label of column i |
| Coordinates.RowLineIsLetters | KataGo-Bench-1K/GO_ELO/python_caller.py:27-47 | row_line has 19 one-letter entries, the same alphabet in the same order |
| Coordinates.ColumnLetterInverse | useful_tools/Board_visialize.py:9-11 | every board letter has a column in [0, 18] whose tick label is that letter |
| Coordinates.LetterMember | KataGo-Bench-1K/GO_ELO/KataGo-Eval.py:166-167 | a character is in the 19-letter alphabet exactly when it is in [A-HJ-T] |
| Coordinates.ColumnOf | KataGo-Bench-1K/GO_ELO/KataGo-Eval.py:35-36 | a column exists exactly for a board letter; it is below 19 and is the letter's offset from 'A', less one past 'I' |
| Coordinates.ColumnIsIndex | KataGo-Bench-1K/GO_ELO/KataGo-Eval.py:36 | that column is letters.index of the letter, and None for a letter not in the alphabet |
| Coordinates.MoveToVertex | KataGo-Bench-1K/GO_ELO/KataGo-Eval.py:21-41 | convert_move_to_vertex succeeds exactly when the first character is a board letter and the rest parses as an int; x is the letter's column in [0, 18], and y = 19 − number |
| Coordinates.VertexColumnIsIndex | useful_tools/gogame/Use_demo.py:17-18 | the duplicate's letters.index lookup gives the same x, and the alphabet at x is the letter |
| Coordinates.ValidIffOnBoard | KataGo-Bench-1K/GO_ELO/KataGo-Eval.py:161-174 | _is_valid_move holds exactly when the move converts and its y is in [0, 18] |
| Coordinates.IsValidMove | KataGo-Bench-1K/GO_ELO/KataGo-Eval.py:161-174 | _is_valid_move: at least two characters, a board letter, and a rest that int() reads as 1 to 19; stated by ValidIffOnBoard, ValidMoveBounds and the concrete cases below |
| Coordinates.ValidMoveBounds | useful_tools/gogame/Use_demo.py:17-21 | a valid move converts to a vertex with both coordinates in [0, 18] |
| Coordinates.LetterIRejected | useful_tools/gogame/Use_demo.py:17-18 | a move starting with 'I' does not convert and is not valid, because 'I' is not in the alphabet |
| Coordinates.VertexToPos | KataGo-Bench-1K/GO_ELO/python_caller.py:205-224 | convert_vertex_to_pos is non-empty exactly when the vertex has two components, both in [0, 18] |
| Coordinates.PosShape | KataGo-Bench-1K/GO_ELO/python_caller.py:221-223 | on the board, the result is row_line[row] followed by the decimal of 19 − col |
| Coordinates.MoveRoundTrip | KataGo-Bench-1K/GO_ELO/python_caller.py:205-224 | a move written without leading zeros converts to a vertex that converts back to the same move, and the move is valid |
| Coordinates.VertexRoundTrip | KataGo-Bench-1K/GO_ELO/python_caller.py:219-223 | every on-board vertex converts to a canonical move that converts back to that vertex |
| Coordinates.VertexToPosInjective | KataGo-Bench-1K/GO_ELO/python_caller.py:219-223 | two vertices with the same non-empty position are equal |
| Coordinates.PaddedNumberAccepted | KataGo-Bench-1K/GO_ELO/KataGo-Eval.py:171-172 | "A05" is valid but not canonical: it converts to (0, 14), which converts back to "A5" |
| Coordinates.SignedNumberAccepted | KataGo-Bench-1K/GO_ELO/KataGo-Eval.py:171 | "K+7" is a valid move, because int() takes a sign |
| Coordinates.SpacedNumberAccepted | KataGo-Bench-1K/GO_ELO/KataGo-Eval.py:171 | "K 7 " is a valid move, because int() strips white space |
| Coordinates.NumberNotRangeChecked | KataGo-Bench-1K/GO_ELO/KataGo-Eval.py:32-39 | "A20" converts to (0, −1) though it is not a valid move |
| Coordinates.Upper | useful_tools/Board_visialize.py:6 | str.upper() on one character, for ASCII: a lower-case letter becomes the capital at the same place in the alphabet, and a capital or any other character is kept, so upper-casing twice changes nothing |
| Coordinates.CoordToNumber | useful_tools/Board_visialize.py:4-14 | coord_to_number succeeds exactly when the coordinate is non-empty and its rest parses; it gives (19 − number, column of the upper-cased letter) |
| Coordinates.CoordCaseInsensitive | useful_tools/Board_visialize.py:6 | a lower-case letter gives the same result as its upper-case form |
| Coordinates.CoordIsTranspose | useful_tools/Board_visialize.py:13-14 | for a letter of the alphabet, coord_to_number succeeds exactly when convert_move_to_vertex does, and gives its (y, x) |
| Coordinates.LetterColumnRange | useful_tools/Board_visialize.py:9-11 | letters A-H have columns 0-7, and letters J-T have columns 8-18 |
| Coordinates.LetterIAliasesJ | useful_tools/Board_visialize.py:9-11 | 'I' is not rejected: it gives the result of 'J', column 8 |
| Coordinates.XTickLabelInverse | useful_tools/Board_visialize.py:47 | applied to a letter's column, the tick label gives back the letter for every letter A-T except 'I', which gives 'J' |
| Stones.SignValue | KataGo-Bench-1K/GO_ELO/python_caller.py:8-13 | BLACK is 1, WHITE is −1, and EMPTY is 0 |
| Stones.SignOfValue | KataGo-Bench-1K/GO_ELO/python_caller.py:8-13 | GoSign(v) is defined exactly for v in [−1, 1] |
| Stones.SignRoundTrip | KataGo-Bench-1K/GO_ELO/python_caller.py:8-13 | member to value and value to member are inverse |
| Stones.Mover | KataGo-Bench-1K/GO_ELO/KataGo-Eval.py:75 | move i is black exactly when i is even, and never empty |
| Stones.ParityAgreement | useful_tools/Board_visialize.py:36 | sign ±1, label X/O and plot colour k/w all agree with the mover, and consecutive moves alternate |
| Stones.PrepareMoves | KataGo-Bench-1K/GO_ELO/KataGo-Eval.py:75 | the prepared list exists exactly when every move converts; it has one entry per move, with entry i holding sign ±1 by parity and the move's vertex |
| Stones.PreparedOnBoard | KataGo-Bench-1K/GO_ELO/KataGo-Eval.py:75 | valid moves prepare, with every vertex on the board |
| Stones.PreparedSignsAlternate | useful_tools/gogame/Use_demo.py:30 | the first sign is black's, each sign is its mover's, and signs alternate |
| Stones.Listed | KataGo-Bench-1K/GO_ELO/KataGo-Eval.py:77 | the (label, move) pairs of the list: one per move, with label X at even and O at odd numbers |
| Stones.Entry | KataGo-Bench-1K/GO_ELO/KataGo-Eval.py:77 | the line "{i+1}.{X or O}-{move}"; EntryMatches states that the list pattern reads it back whole |
| Stones.RenderFrom | KataGo-Bench-1K/GO_ELO/KataGo-Eval.py:77 | the lines numbered from k joined by newlines, empty exactly when there are no moves; ExtractRenderedFrom states what findall reads back from it |
| Stones.RenderMoves | KataGo-Bench-1K/GO_ELO/KataGo-Eval.py:77 | moves_str before the board is appended; ExtractMovesRoundTrip states that extract_moves gives back one pair per move, in order |
| Stones.EntryAt | KataGo-Bench-1K/GO_ELO/KataGo-Eval.py:17 | a match of the list pattern (digits, '.', X or O, '-', a letter A-T and digits) consumes at least one character and captures X or O and a listed move |
| Stones.ExtractMoves | KataGo-Bench-1K/GO_ELO/KataGo-Eval.py:14-19 | re.findall returns only pairs whose label is X or O and whose move is a letter A-T followed by digits |
| Stones.EntryMatches | KataGo-Bench-1K/GO_ELO/KataGo-Eval.py:77 | one rendered line, followed by a newline or the end of the text, matches whole with its label and move |
| Stones.ExtractRenderedFrom | KataGo-Bench-1K/GO_ELO/KataGo-Eval.py:14-19 | findall over the list rendered from number k gives back exactly the listed pairs |
| Stones.ExtractMovesRoundTrip | KataGo-Bench-1K/GO_ELO/KataGo-Eval.py:77 | extract_moves of the rendered move list gives one pair per move, in order: (X or O by parity, the move) |
| Stones.CanonicalIsListed | KataGo-Bench-1K/GO_ELO/KataGo-Eval.py:17 | every move written the canonical way is one the list pattern reads |
| Candidates.FirstMatch | KataGo-Bench-1K/GO_ELO/KataGo-Eval.py:188-192 | the index of a candidate with the move and none before it, and None exactly when no candidate has it |
| Candidates.FirstMatchAt | KataGo-Bench-1K/GO_ELO/KataGo-Eval.py:188-192 | a candidate with the move and none before it is the first match |
| Candidates.LastMatch | RL_utils/Go_reward.py:124 | the index of a candidate with the move and none after it, and None exactly when no candidate has it |
| Candidates.CandidateMap | RL_utils/Go_reward.py:124 | the {move: candidate} comprehension, later entries replacing earlier ones; CandidateMapLast states its keys and values |
| Candidates.CandidateMapLast | RL_utils/Go_reward.py:124 | the dictionary has the move as a key exactly when some candidate has it, and keeps the last such candidate |
| Candidates.MaxByWinRate | KataGo-Bench-1K/GO_ELO/KataGo-Eval.py:184 | max(key=win_rate) is a candidate whose win rate bounds every other, with none before it as large |
| Candidates.FirstMaxUnique | KataGo-Bench-1K/GO_ELO/KataGo-Eval.py:184 | at most one candidate is the first maximal one |
| Candidates.BestPositive | RL_utils/Go_reward.py:125-130 | the strict search from zero finds the first maximal candidate when its win rate is positive, and None exactly when no win rate is positive |
| Candidates.BestRateBounds | RL_utils/Go_reward.py:125-130 | the best win rate found is non-negative and not below any candidate's |
| Candidates.BestPositiveIsMax | RL_utils/Go_reward.py:125-130 | when some win rate is positive, the scorer and the evaluator pick the same candidate |
| EvalResponse.MoveBox | KataGo-Bench-1K/GO_ELO/KataGo-Eval.py:124 | a move box matches only where its label starts, and captures a board letter and one or two digits |
| EvalResponse.MoveAfterTag | KataGo-Bench-1K/GO_ELO/KataGo-Eval.py:124 | the rest of the pattern after the label captures a board letter and one or two digits |
| EvalResponse.MoveDigits | KataGo-Bench-1K/GO_ELO/KataGo-Eval.py:124 | the capture after the letter keeps that letter and adds one or two digits |
| EvalResponse.ExtractMove | KataGo-Bench-1K/GO_ELO/KataGo-Eval.py:114-132 | _extract_move returns "" or a board letter followed by one or two digits |
| EvalResponse.ExtractedMoveConverts | KataGo-Bench-1K/GO_ELO/KataGo-Eval.py:124 | every move it returns converts to a vertex, though not always one on the board |
| EvalResponse.NumeralRun | KataGo-Bench-1K/GO_ELO/KataGo-Eval.py:144 | [0-9.]+ takes the longest run of digits and points |
| EvalResponse.WinRateBox | KataGo-Bench-1K/GO_ELO/KataGo-Eval.py:144 | a win-rate box matches only where its label starts, and captures a non-empty value |
| EvalResponse.WinRateAfterTag | KataGo-Bench-1K/GO_ELO/KataGo-Eval.py:144 | the rest of the pattern after the label captures a non-empty value |
| EvalResponse.WinRateValue | KataGo-Bench-1K/GO_ELO/KataGo-Eval.py:144 | the capture ([0-9.]+%?) is a non-empty prefix of the text at the value |
| EvalResponse.DropPercent | KataGo-Bench-1K/GO_ELO/KataGo-Eval.py:150 | replace('%', '') leaves no '%', and leaves text without one unchanged |
| EvalResponse.ExtractWinRate | KataGo-Bench-1K/GO_ELO/KataGo-Eval.py:134-159 | _extract_win_rate is None when no box is found, and otherwise None or a non-negative value |
| EvalResponse.WinRateValueOf | KataGo-Bench-1K/GO_ELO/KataGo-Eval.py:146-158 | a captured value through float() is non-negative; a value with '%' is divided by 100 (Rendered.PercentOf) |
| RewardResponse.AssistantPart | RL_utils/Go_reward.py:36-40 | the assistant part is no longer than the text, and is the whole text when there is no marker |
| RewardResponse.AssistantPartAfterFirst | RL_utils/Go_reward.py:23-40 | with a first occurrence of the marker at i, the assistant part is the text after that occurrence |
| RewardResponse.AssistantPartWithout | RL_utils/Go_reward.py:36-38 | a text holding no occurrence of the marker is its own assistant part |
| RewardResponse.ColourBox | RL_utils/Go_reward.py:60 | the colour box matches only where its label starts, and captures 黑 or 白 |
| RewardResponse.CoordBox | RL_utils/Go_reward.py:65 | a coordinate box matches only where its label starts, and captures a board letter and digits |
| RewardResponse.RateBox | RL_utils/Go_reward.py:72-75 | the win-rate box matches only where its label starts, and gives a non-negative value |
| RewardResponse.Coordinate | RL_utils/Go_reward.py:65-70 | the new form or else the old form, either capturing a board letter and digits |
| RewardResponse.ExtractCoordinate | RL_utils/Go_reward.py:26-87 | extract_coordinate succeeds exactly when the answer block exists, the colour, coordinate and win-rate searches in it succeed, and the coordinate is a valid move. On success the result holds what those searches found. has_think holds exactly when a reasoning block is found, the reasoning is that block's text, and without one it is "". The colour is 黑 or 白 and the win rate is non-negative |
| Rendered.MoveBoxReads | KataGo-Bench-1K/GO_ELO/KataGo-Eval.py:124 | a move box written label, colon, move, brace reads back the move |
| Rendered.MoveAfterTagReads | KataGo-Bench-1K/GO_ELO/KataGo-Eval.py:124 | after the label, colon, move and brace read back the move |
| Rendered.MoveDigitsReads | KataGo-Bench-1K/GO_ELO/KataGo-Eval.py:124 | the move's digits followed by a brace read back the move |
| Rendered.ColourBoxReads | RL_utils/Go_reward.py:60 | a written colour box reads back its colour |
| Rendered.CoordBoxReads | RL_utils/Go_reward.py:65 | a written coordinate box reads back its coordinate |
| Rendered.WinRateBoxReads | KataGo-Bench-1K/GO_ELO/KataGo-Eval.py:144 | a written percentage box captures whole.frac% |
| Rendered.RateBoxReads | RL_utils/Go_reward.py:72-75 | a written percentage box reads back whole.frac as an exact value |
| Rendered.FloatOfNumeral | RL_utils/Go_reward.py:75 | float() of whole.frac is its exact decimal value |
| Rendered.PercentOf | KataGo-Bench-1K/GO_ELO/KataGo-Eval.py:148-150 | a value followed by '%' is read as that value divided by 100 |
| Rendered.PercentRead | KataGo-Bench-1K/GO_ELO/KataGo-Eval.py:148-150 | whole.frac% is read as whole.frac / 100 |
| Rendered.DropPercentLast | KataGo-Bench-1K/GO_ELO/KataGo-Eval.py:150 | removing '%' from value + '%' gives back the value |
| Rendered.EvalReadsMove | KataGo-Bench-1K/GO_ELO/KataGo-Eval.py:124-126 | the evaluator reads the move of a reply in the requested format whose reasoning holds no backslash |
| Rendered.EvalFindsWinRateBox | KataGo-Bench-1K/GO_ELO/KataGo-Eval.py:144 | the evaluator's win-rate search stops at the reply's win-rate box |
| Rendered.EvalReadsWinRate | KataGo-Bench-1K/GO_ELO/KataGo-Eval.py:144-150 | the evaluator reads the reply's percentage as a fraction |
| Rendered.WinRateOfFractionBox | KataGo-Bench-1K/GO_ELO/KataGo-Eval.py:144-154 | a win-rate box that captures whole.frac without '%' is read as whole.frac itself |
| Rendered.FractionBoxReads | KataGo-Bench-1K/GO_ELO/KataGo-Eval.py:144 | a written win-rate box label, colon, whole.frac, brace captures whole.frac |
| Rendered.EvalReadsFraction | KataGo-Bench-1K/GO_ELO/KataGo-Eval.py:144-154 | a plain-fraction box after a position box is read as the fraction written |
| Rendered.AssistantPartOf | RL_utils/Go_reward.py:23-40 | when the first marker in prompt + marker is the appended one, the assistant part of prompt + marker + reply is the reply |
| Rendered.MarkerFirstPlain | RL_utils/Go_reward.py:23 | in a prompt without '<' the marker does not start, so the first marker in prompt + marker is the appended one |
| Rendered.TurnSkipped | RL_utils/Go_reward.py:23 | a chat-template turn of a role not starting with 'a', whose text never puts '|' right after '<', holds no start of the marker, so the search goes on past it |
| Rendered.ChatMarkerFirst | RL_utils/Go_reward.py:23 | after a chat-template prompt of such turns, the first marker is the one appended after it |
| Rendered.RewardReadsChatReply | RL_utils/Go_reward.py:23-87 | after a chat-template prompt of such turns, the reward reader recovers the move, colour, win rate and reasoning of a reply in the requested format |
| Rendered.ReasoningOf | RL_utils/Go_reward.py:46-48 | the reasoning block of a reply is its reasoning text with the newlines around it |
| Rendered.AnswerOf | RL_utils/Go_reward.py:53-55 | the answer block of a reply is exactly its three boxes |
| Rendered.ExtractCoordinateOf | RL_utils/Go_reward.py:41-82 | given the answer block and what the colour, coordinate and win-rate searches find in it, with a valid move, extract_coordinate returns those pieces; has_think and the reasoning come from the reasoning block, or are false and "" without one |
| Rendered.ExtractCoordinateUnreasoned | RL_utils/Go_reward.py:41-82 | a reply whose answer parses but that has no reasoning block gives has_think false and reasoning "" |
| Rendered.RewardReadsReply | RL_utils/Go_reward.py:26-87 | after a prompt in which the assistant marker does not start, the reward reader recovers the move, colour, win rate and reasoning of a reply in the requested format |
| Rendered.EvalReadsFallback | KataGo-Bench-1K/GO_ELO/KataGo-Eval.py:127-130 | without a position box, the evaluator reads the shorter box |
| Rendered.EvalPrefersPosition | KataGo-Bench-1K/GO_ELO/KataGo-Eval.py:124-130 | a position box wins over a shorter box written before it |
| Rendered.EvalRejectsLongNumber | KataGo-Bench-1K/GO_ELO/KataGo-Eval.py:124 | a move number of three or more digits fails \d{1,2}, though the reward reader takes it |
| Rendered.MoveDigitsLong | KataGo-Bench-1K/GO_ELO/KataGo-Eval.py:124 | a digit run longer than two never matches |
| Rendered.OldMissesNew | RL_utils/Go_reward.py:65 | an old-form box never begins a new-form box |
| Rendered.RewardReadsOld | RL_utils/Go_reward.py:66-68 | without a new-form box, the reward reader takes the old form |
| Rendered.RewardPrefersNew | RL_utils/Go_reward.py:65-68 | a new-form box wins over an old-form box written before it |
| Reward.ExpectedColour | RL_utils/Go_reward.py:112-116 | the expected colour is 黑 exactly when black plays the stone with index len(former_moves), and 白 exactly when white does |
| Reward.ScoreParsed | RL_utils/Go_reward.py:103-165 | the score of a parsed reply; MatchedScoreBounds, TierRanges, FullScoreIff and PerfectScoresOne state its values |
| Reward.Score | RL_utils/Go_reward.py:89-169 | compute_score; ScoreBounds, ScoreZeroIff and PerfectReplyScoresOne state its values |
| Reward.Closeness | RL_utils/Go_reward.py:148 | weight/(1 + 10·abs(d)) lies in (0, weight], and equals weight exactly when d = 0 |
| Reward.BestMove | RL_utils/Go_reward.py:125-130 | gt_best_move exists exactly when some win rate is positive, and is then the move of the first maximal candidate |
| Reward.LookupOfMatched | RL_utils/Go_reward.py:132-145 | a reply that reasons and names the right colour finds its move in the dictionary exactly when some candidate has it, and gets the last such candidate's win rate |
| Reward.MatchedScoreBounds | RL_utils/Go_reward.py:132-158 | a matched reply scores more than 0.3 and at most 1 |
| Reward.ScoreZeroIff | RL_utils/Go_reward.py:98-165 | the score is 0 exactly when the reply does not parse or is not matched |
| Reward.ScoreBounds | RL_utils/Go_reward.py:89-169 | every score lies in [0, 1] |
| Reward.FullScoreIff | RL_utils/Go_reward.py:134-158 | a matched reply scores 1 exactly when it names the best move, its looked-up win rate is the best one, and it predicts that win rate |
| Reward.TierRanges | RL_utils/Go_reward.py:132-144 | the best move scores in (0.7, 1]; a move above 90% of the best in (0.5, 0.8]; any other candidate in (0.3, 0.6] |
| Reward.PerfectReplyScoresOne | RL_utils/Go_reward.py:89-165 | after a prompt in which the assistant marker does not start, a reply in the requested format naming the colour to play, the best move and its win rate as a percentage scores 1 |
| Reward.PerfectScoresOne | RL_utils/Go_reward.py:109-158 | a parsed reply with reasoning, the right colour, the best move and its exact win rate scores 1 |
| Reward.BestStep | RL_utils/Go_reward.py:128-130 | one step of the search takes the candidate exactly when its win rate is strictly greater |
| Reward.FindBest | RL_utils/Go_reward.py:125-130 | the loop ends with gt_best_move and gt_best_win_rate equal to the best move and rate |
| Reward.ComputeScore | RL_utils/Go_reward.py:95-101 | the imperative rendering of Score: 0 when parsing fails, else the score of the parsed reply |
| Reward.ScoreReply | RL_utils/Go_reward.py:103-165 | the += / -= accumulation with its early returns gives the specified score |
| Evaluation.Evaluate | KataGo-Bench-1K/GO_ELO/KataGo-Eval.py:176-231 | evaluate_position returns a result exactly when the reply exists and there are candidates; the result carries the extracted move, the extracted win rate and the raw reply, and its gaps are non-negative |
| Evaluation.Assess | KataGo-Bench-1K/GO_ELO/KataGo-Eval.py:184-231 | matched holds exactly when some candidate has the move; rank is 1 + the index of the first such candidate; the current win rate and the score-lead gap exist exactly when matched; the win-rate gap exists exactly when matched with a predicted rate; gaps are non-negative; the best move is the first maximal candidate |
| Evaluation.AssessMatched | KataGo-Bench-1K/GO_ELO/KataGo-Eval.py:194-200 | the whole result when the k-th candidate matches: rank k+1, the gaps abs(pred − rate) and abs(best lead − lead) |
| Evaluation.AssessUnmatched | KataGo-Bench-1K/GO_ELO/KataGo-Eval.py:201-203 | the whole result when nothing matches: no rank, no gaps, no current win rate |
| Evaluation.EvaluateReply | KataGo-Bench-1K/GO_ELO/KataGo-Eval.py:178-179 | a reply in the requested format is assessed with its own move and its percentage as a fraction |
| Evaluation.StatsOf | KataGo-Bench-1K/GO_ELO/KataGo-Eval.py:265-270 | the summary keeps the counts; the match rate lies in [0, 1] and is 1 when every move matched; the average gap is non-negative; with no moves the rate is 0 and the gap is 1.0 |
| Evaluation.CountsNext | KataGo-Bench-1K/GO_ELO/KataGo-Eval.py:205-211 | one more result adds one match exactly when it matched, and adds its own gap |
| Evaluation.GapSumNonNegative | KataGo-Bench-1K/GO_ELO/KataGo-Eval.py:210-211 | summed gaps of well-formed results are non-negative |
| Evaluation.Processed | KataGo-Bench-1K/GO_ELO/KataGo-Eval.py:258-259 | the positions got through in order all succeed, and the next one (if any) raises |
| Evaluation.ResultAt | KataGo-Bench-1K/GO_ELO/KataGo-Eval.py:246-250 | the k-th processed position has a well-formed result |
| Evaluation.Results | KataGo-Bench-1K/GO_ELO/KataGo-Eval.py:258-259 | the result list holds each processed position's own result, in order |
| Evaluation.ResultsNext | KataGo-Bench-1K/GO_ELO/KataGo-Eval.py:258-259 | one more successful position extends the results by its own |
| Evaluation.Evaluator.constructor | KataGo-Bench-1K/GO_ELO/KataGo-Eval.py:59-61 | the counters start at 0, which satisfies the invariant |
| Evaluation.Evaluator.Summary | KataGo-Bench-1K/GO_ELO/KataGo-Eval.py:265-270 | under the invariant, the match rate lies in [0, 1] and the average gap is non-negative |
| Evaluation.Evaluator.EvaluatePosition | KataGo-Bench-1K/GO_ELO/KataGo-Eval.py:176-231 | returns Evaluate's result and keeps the invariant; when it raises, nothing changes; otherwise total rises by 1, matched rises by 1 exactly when matched, and the gap total rises by the result's gap |
| Evaluation.Evaluator.Tally | KataGo-Bench-1K/GO_ELO/KataGo-Eval.py:184-211 | the loop, gaps and counter updates give Assess's result, with the counters moved as above |
| Evaluation.Evaluator.MatchCandidate | KataGo-Bench-1K/GO_ELO/KataGo-Eval.py:188-192 | the for/break loop finds the first candidate with the move and its 1-based rank, or neither exactly when none has it |
| Evaluation.Evaluator.EvaluateFile | KataGo-Bench-1K/GO_ELO/KataGo-Eval.py:233-272 | the results are those of the positions got through; the counters rise by their count, matches and gaps; a summary is returned exactly when every position succeeds |
| Evaluation.FreshFileStats | KataGo-Bench-1K/GO_ELO/KataGo-Eval.py:265-270 | a fresh evaluator's summary of a whole file is matched/total in [0, 1], with a non-negative average gap equal to the summed gap divided by the number of positions |

## Left out

- The OpenAI chat call and its retry loop (`get_move`) are network I/O.
  The model's reply is a parameter instead. `None` stands for every way
  `get_move` raises or fails before a reply exists:
  - a failed API call;
  - a board move that does not convert in the prepared-move list
    (`KataGo-Eval.py:75`, for example "I5");
  - a failure of the board bridge.
- The prompt text is left out. This covers the board grid appended after
  the move list, the template substitution and the system prompt. Only the
  numbered move list is modelled.
- The Node.js board bridge is left out. This covers the subprocess calls,
  `quick_batch_move`, the board cache and the board printers. The Go rules
  live in a package that is not part of this model. The model stops at the
  prepared-move list sent to it.
- The thread pool, tqdm, argparse, reading the input file and writing
  result lines are concurrency and I/O. `EvaluateFile` takes the positions
  in order, one at a time.
- EvaluateFile stops at the first position that raises. When that happens,
  the source's `executor.map` still runs the other positions and their
  counter updates, and then re-raises. Either way no summary is returned.
  The counters after a failure are therefore not modelled. Neither is the
  unsynchronised increment of the counters from several threads.
- Floating point is not modelled. Win rates, the tier thresholds and the
  bonuses are exact reals, and `float()` gives the exact decimal value, so
  rounding effects near the 0.9 threshold are not captured.
- Unicode decimal digits are left out. Python's `\d` and `int()` accept
  them, but here only ASCII digits count. White space (`\s`, `strip()`)
  follows `str.isspace()`.
- Regular expressions are modelled only for the patterns used here, each
  as a matcher written by hand and a leftmost search. There is no general
  regex engine.
- Exceptions inside `extract_coordinate` and `compute_score` become the
  `None` and `0` results they are caught as. Malformed ground truth (a
  missing key, or a `win_rate` that is not a number) is excluded by the
  types.
- The random debug print and all other printing are left out. So are the
  plotting in `plot_goban` beyond the letter, column and colour mappings,
  `training_results_plot.py`, and the demo script beyond its comprehension.
- The prompt stored in each result (`raw_prompt`) is left out of
  `PositionResult`.
- Reward.ComputeScore and Reward.ScoreReply split compute_score in two:
  the parse and the scoring of the parsed reply. The source does both in
  one function.
- Evaluation.Evaluator.EvaluatePosition and Evaluation.Evaluator.Tally
  split evaluate_position the same way: reading the reply, then comparing
  the move and counting it.
- EvalResponse.WinRateValueOf's own contract only bounds the value. Its
  division by 100 is stated by Rendered.PercentOf and Rendered.PercentRead.
- RewardResponse.AssistantPart's own contract states only the length bound
  and the no-marker case. The text after the first marker is stated by
  RewardResponse.AssistantPartAfterFirst and, for a prompt in which the
  marker does not start, by Rendered.AssistantPartOf.
- Coordinates.Upper and Coordinates.CoordToNumber model only ASCII case
  mapping. Python's str.upper() also maps other letters, such as 'é' to 'É'.
  It maps 'ß' to "SS", a two-character string, which then makes the
  source's ord() raise.
- Rendered.RewardReadsReply, Rendered.ReasoningOf and Rendered.AnswerOf
  are stated for reasoning that holds no '<', so that no tag can start
  inside it.
