# Chess GUI core, modelled in Dafny

This project models the logic inside the Swing window `ChessGUI` of the
KaikeRosa/xadrez chess game, and proves properties of that model. The
logic covered is:

- **the chess clock**: two remaining times in milliseconds, a running flag,
  the active side and the wall time of the last tick. The clock has four
  events:
  - the 200 ms timer tick;
  - the bookkeeping after each move (charge the elapsed time, add the
    increment, switch to the side to move);
  - the reset for a new game;
  - the start/pause button.
- **`formatTime`**, which renders a clock reading as `mm:ss`.
- **the move-history text** that `refresh` builds. Move pairs are numbered,
  and each full pair ends in a newline.
- **the computer opponent's greedy move choice**:
  - piece values;
  - the bonus for central squares;
  - the loop that keeps every best-scoring move;
  - the random pick among those moves;
  - the 8×8 board scan that collects a side's legal moves.
- **the small tables**: the promotion dialog's answer, the Unicode piece
  glyphs, and how the end of a game is classified for its announcement.

Modules, one per concern:

| file | module | what it holds |
|---|---|---|
| `options.dfy` | `Options` | `Option`, standing for Java's nullable references |
| `decimal.dfy` | `Decimal` | the decimal text of a natural number and its inverse; `%02d` |
| `clock_text.dfy` | `ClockText` | `formatTime` |
| `history.dfy` | `MoveHistory` | the history loop, a line-by-line reference layout, and their equality |
| `selection.dfy` | `MoveSelection` | scoring, best-move selection, the board scan |
| `clock.dfy` | `ChessClock` | the clock's step functions, event traces, and the class `Clock` whose methods update the five fields in place |
| `tables.dfy` | `GuiTables` | the promotion mapping, glyphs, end-of-game classification and messages |

The clock is specified in two layers:

- Each event is a pure step function on a `ClockState` value, for example
  `TickStep` and `MoveStep`. Its contract states what the event does.
- Each method of the class `Clock` is proved to perform its step function
  on the fields.

Properties that involve several events are lemmas over these step
functions:
- a run of ticks charges exactly the elapsed wall time;
- pausing and then resuming loses no time;
- no admissible sequence of events drives a clock below zero.

The board scan, the selection loop and the history loop are `while`
loops. Each is proved equal to a recursive specification function. The
properties of each specification function are then proved as lemmas:
- exactly which moves are collected;
- that the kept moves are exactly those no other move outscores;
- that the history text is the numbered, line-per-pair layout.

Values the GUI reads from outside become parameters:
- the current wall time;
- `game.whiteToMove()`, `game.isGameOver()` and `game.inCheck(...)`;
- the enable check box;
- the values of the minutes, increment and depth spinners;
- the board, as a function from positions to optional pieces;
- the rules engine's `legalMovesFrom`;
- the value `Random.nextInt` returns.

`game.flagTimeout(side)` becomes the `Option<Side>` that the clock
events return.

Java `long` and `int` are modelled as unbounded integers. The `int`s
(scores under 20 100, move numbers, spinner values of at most 180 minutes
and a 60 s increment) stay far below 2^31. The `long`s (clock readings
and wall times, which are epoch milliseconds of about 1.7 x 10^12) stay
far below 2^63. So nothing overflows. Every division and remainder is applied to
non-negative values, where Java's truncating division and Dafny's
Euclidean division agree.

The periodic timer ignores a tick when the wall clock has not advanced
(`delta <= 0`). `onMoveProcessed` has no such guard, so a wall clock that
went backwards credits the active side with extra time. The model keeps
this behaviour as written, and `ChessClock.BackwardsClockCredits` states it.

## Model

| member | source | states |
|---|---|---|
| Decimal.Digits | ChessGame/src/view/ChessGUI.java:443 | the text of a move number is a non-empty string of digits; only 0 starts with '0'; it has one digit exactly when the number is below 10 |
| Decimal.ParseDigitsOfDigits | ChessGame/src/view/ChessGUI.java:443 | reading the decimal text of n back gives n |
| Decimal.Pad2 | ChessGame/src/view/ChessGUI.java:591 | `%02d` yields digits that read back as the number; two characters below 10, otherwise exactly the number's digits |
| ClockText.ClockFields | ChessGame/src/view/ChessGUI.java:587-590 | the seconds field is below 60, and minutes × 60 + seconds is the number of whole seconds in the clamped reading |
| ClockText.FormatTime | ChessGame/src/view/ChessGUI.java:586-592 | the label is a digit field, ':', and a two-digit field; the fields read back as the reading's minutes and seconds; the label has 5 characters when there are fewer than 100 minutes; from 10 minutes on, the minutes field is the minutes' plain decimal text, with no extra leading zero |
| ClockText.FormatTimeRoundTrip | ChessGame/src/view/ChessGUI.java:586-592 | the seconds shown by the label are the whole seconds of the reading; a negative reading counts as 0 |
| ClockText.FormatTimeSameLabel | ChessGame/src/view/ChessGUI.java:586-592 | two readings show the same label exactly when they agree on whole seconds |
| ClockText.NegativeShowsZero | ChessGame/src/view/ChessGUI.java:587-591 | any reading below one second, negative ones included, shows "00:00" |
| MoveHistory.HistoryText | ChessGame/src/view/ChessGUI.java:440-447 | the loop's text equals the entry-by-entry layout and the line-per-pair reference layout; an empty history gives "" |
| MoveHistory.LayoutIsPaired | ChessGame/src/view/ChessGUI.java:440-447 | the text built entry by entry is the concatenation of numbered lines, one per move pair |
| MoveHistory.PairedSnoc | ChessGame/src/view/ChessGUI.java:442-446 | appending an entry to the history appends exactly that entry's chunk to the paired layout |
| MoveHistory.LinesLength | ChessGame/src/view/ChessGUI.java:440-447 | n entries give ceiling(n/2) lines |
| MoveHistory.LineOpening | ChessGame/src/view/ChessGUI.java:443 | line k starts with the move number first + k, a dot and a space |
| MoveHistory.LinesNumbered | ChessGame/src/view/ChessGUI.java:443 | every line k starts with move number first + k |
| MoveHistory.LineEnd | ChessGame/src/view/ChessGUI.java:445 | the line of a full move pair ends in a newline |
| MoveHistory.LinesEndInNewline | ChessGame/src/view/ChessGUI.java:445 | each of the floor(n/2) full pairs ends its line with a newline |
| MoveHistory.ChunkNewlines | ChessGame/src/view/ChessGUI.java:443-445 | the chunk for entry i holds one newline after Black's move and none after White's |
| MoveHistory.LayoutNewlines | ChessGame/src/view/ChessGUI.java:440-447 | when the entries hold no newline, the text holds exactly one newline per full move pair |
| MoveSelection.PieceValue | ChessGame/src/view/ChessGUI.java:362-373 | values lie in 0..20000 and are multiples of 100, and a value is 0 exactly for an empty square or a symbol other than P, N, B, R, Q, K |
| MoveSelection.ValueOrder | ChessGame/src/view/ChessGUI.java:362-373 | pawn < knight = bishop < rook < queen < king |
| MoveSelection.CenterBonus | ChessGame/src/view/ChessGUI.java:375-380 | the bonus is 0, 4 or 10; it is 10 exactly on the four centre squares and positive exactly on the central 4×4 block |
| MoveSelection.CenterBonusByRing | ChessGame/src/view/ChessGUI.java:375-380 | on the board the bonus depends only on the distance from the centre: 10 on the innermost ring, 4 on the next, 0 beyond |
| MoveSelection.Score | ChessGame/src/view/ChessGUI.java:292-299 | at the spinner's depths 1..4 every score lies in 0..20016, so the first move scanned always beats the selector's starting value `Integer.MIN_VALUE` |
| MoveSelection.MaxScoreIsMax | ChessGame/src/view/ChessGUI.java:291-307 | the maximum score bounds every move's score, and some move attains it |
| MoveSelection.FilterMembers | ChessGame/src/view/ChessGUI.java:301-307 | a move is kept exactly when it is in the list and scores the target |
| MoveSelection.FilterAppend | ChessGame/src/view/ChessGUI.java:301-307 | the kept moves stay in input order: the kept moves of a + b are those of a, then those of b |
| MoveSelection.FilterNone | ChessGame/src/view/ChessGUI.java:301-304 | a score above every earlier score leaves no earlier move kept |
| MoveSelection.BestMoves | ChessGame/src/view/ChessGUI.java:288-307 | a move is among the best exactly when it is in the list and no move outscores it; the best list is empty only when the list of moves is |
| MoveSelection.BestMovesCaptureMost | ChessGame/src/view/ChessGUI.java:284-307 | the selector picks the best capture available: every best move takes at least as much material as any other legal move |
| MoveSelection.BestMovesIgnoreDepth | ChessGame/src/view/ChessGUI.java:299 | the depth adds the same amount to every score, so the best moves do not depend on it |
| MoveSelection.SelectBest | ChessGame/src/view/ChessGUI.java:288-307 | the loop ends with Integer.MIN_VALUE for no moves, otherwise with the maximum score, and with exactly the best moves in input order |
| MoveSelection.ChooseMove | ChessGame/src/view/ChessGUI.java:285-311 | no move exactly when there are no legal moves; otherwise a best move, namely the one at the drawn index |
| MoveSelection.MovesToMembers | ChessGame/src/view/ChessGUI.java:352-354 | the moves listed from one square are exactly the pairs of that square with a legal destination |
| MoveSelection.RowMovesMembers | ChessGame/src/view/ChessGUI.java:348-356 | the first c squares of row r contribute exactly the listed moves from those squares |
| MoveSelection.RowsMovesSound | ChessGame/src/view/ChessGUI.java:347-357 | every move collected from the first r rows starts on one of them, on a square of the side's own, and has a legal destination |
| MoveSelection.RowsMovesComplete | ChessGame/src/view/ChessGUI.java:347-357 | every such move from the first r rows is collected |
| MoveSelection.RowsMovesMembers | ChessGame/src/view/ChessGUI.java:347-357 | a move is collected from the first r rows exactly when it satisfies those conditions |
| MoveSelection.AllMovesMembers | ChessGame/src/view/ChessGUI.java:344-360 | a move is collected exactly when it is the side's turn, it starts on a board square holding the side's piece, and the engine lists its destination |
| MoveSelection.CollectAllLegalMovesForSide | ChessGame/src/view/ChessGUI.java:344-360 | the nested scan returns the row-major list of moves that AllMovesMembers characterises, and nothing when it is not the side's turn |
| ChessClock.Credit | ChessGame/src/view/ChessGUI.java:635 | the increment goes to one side's clock only; nothing else changes |
| ChessClock.Charge | ChessGame/src/view/ChessGUI.java:524-546 | the elapsed time comes off the active clock only. A clock reaching 0 or below is set to 0, stops, and flags exactly its own side. Otherwise it is reduced by exactly delta and keeps running |
| ChessClock.TickStep | ChessGame/src/view/ChessGUI.java:515-548 | a stopped clock, a finished game or a disabled clock leaves everything alone. Otherwise the tick time is recorded, and only a positive elapsed time is charged to the active side. A flag falls exactly when that time reaches the remaining time. Clocks never go up, and never go negative |
| ChessClock.MoveStep | ChessGame/src/view/ChessGUI.java:599-649 | with the clock disabled nothing changes. A running clock flags exactly when the elapsed time reaches the active side's remaining time. Otherwise each side ends with its time, minus what it spent, plus the increment if it moved. The clock then follows the side to move and runs unless the game is over |
| ChessClock.NewGameStep | ChessGame/src/view/ChessGUI.java:553-564 | both sides get minutes × 60 000 ms; the clock follows the side to move; it runs exactly when enabled and the game goes on, from now, and otherwise last-tick is 0 |
| ChessClock.ToggleStep | ChessGame/src/view/ChessGUI.java:566-574 | the running flag flips; starting records the wall time; times and the active side do not change |
| ChessClock.ToggleTwice | ChessGame/src/view/ChessGUI.java:566-574 | pausing and resuming restores both times and the active side, and the last tick becomes the resume's wall time |
| ChessClock.PauseResumeTick | ChessGame/src/view/ChessGUI.java:515-548 | after a pause and a resume, the next tick charges only the time since the resume, so the paused interval is never charged |
| ChessClock.PausedIgnoresTicks | ChessGame/src/view/ChessGUI.java:516 | after a pause, a timer tick at any later wall time changes nothing |
| ChessClock.NewGameFirstTick | ChessGame/src/view/ChessGUI.java:553-564 | a tick at the reset's own wall time charges nothing |
| ChessClock.BackwardsClockCredits | ChessGame/src/view/ChessGUI.java:602-635 | a move processed after the wall clock went backwards never flags, and gives the active clock the lost time back, plus the increment when the active side is also the side that just moved |
| ChessClock.TicksChargeElapsed | ChessGame/src/view/ChessGUI.java:515-548 | while no flag falls, ticks at non-decreasing wall times take off the active clock exactly the wall time since the last tick; the other clock is untouched |
| ChessClock.ApplyValid | ChessGame/src/view/ChessGUI.java:515-649 | every admissible event keeps both clocks non-negative, and keeps a running clock with a real tick time |
| ChessClock.RunValid | ChessGame/src/view/ChessGUI.java:515-649 | any admissible sequence of events keeps the clock valid |
| ChessClock.Clock.constructor | ChessGame/src/view/ChessGUI.java:57-62 | the field initialisers: empty clocks, stopped, White active, never ticked; a valid state |
| ChessClock.Clock.Tick | ChessGame/src/view/ChessGUI.java:515-548 | the timer body updates the fields as TickStep and returns its flag |
| ChessClock.Clock.ChargeActive | ChessGame/src/view/ChessGUI.java:609-629 | the in-place charge performs Charge |
| ChessClock.Clock.InitClocksForNewGame | ChessGame/src/view/ChessGUI.java:553-564 | the fields become NewGameStep |
| ChessClock.Clock.ToggleClockRunning | ChessGame/src/view/ChessGUI.java:566-574 | the fields become ToggleStep |
| ChessClock.Clock.OnMoveProcessed | ChessGame/src/view/ChessGUI.java:599-649 | the fields and the flag are those of MoveStep |
| GuiTables.PromotionPiece | ChessGame/src/view/ChessGUI.java:257-266 | the answer is always one of Q, R, B, N; any answer other than buttons 1..3, including a closed dialog, gives a queen; each of the four buttons gives the piece its label names (Rainha Q, Torre R, Bispo B, Cavalo N) |
| GuiTables.PromotionOption | ChessGame/src/view/ChessGUI.java:258 | every promotion piece has a button of the four-button dialog |
| GuiTables.PromotionRoundTrip | ChessGame/src/view/ChessGUI.java:257-266 | the buttons and the pieces correspond one to one |
| GuiTables.ToUnicode | ChessGame/src/view/ChessGUI.java:476-486 | a glyph exists exactly for K, Q, R, B, N, P. It is one character: U+2654..U+2659 for White, U+265A..U+265F for Black, in the order K, Q, R, B, N, P of the Unicode chess symbols block |
| GuiTables.ToUnicodeInjective | ChessGame/src/view/ChessGUI.java:476-486 | a glyph determines the symbol and the colour |
| GuiTables.GlyphIffValued | ChessGame/src/view/ChessGUI.java:476-486 | a piece has a glyph exactly when the computer player gives it a value |
| GuiTables.StartsWith | ChessGame/src/view/ChessGUI.java:461 | true exactly when the text is the prefix followed by something |
| GuiTables.Contains | ChessGame/src/view/ChessGUI.java:462 | true exactly when the part occurs at some position of the text |
| GuiTables.Announcement | ChessGame/src/view/ChessGUI.java:454-472 | nothing while the game goes on. A last entry starting with "Timeout" means a loss on time, White's exactly when it mentions "White". Otherwise checkmate of the side to move if it is in check, else stalemate |
| GuiTables.EndMessage | ChessGame/src/view/ChessGUI.java:462-471 | a loss on time opens with "Tempo esgotado — " and the losing side's name, a mate with "Xeque-mate! " and the mated side's name, a stalemate with "Empate" |
| GuiTables.EndMessageInjective | ChessGame/src/view/ChessGUI.java:462-471 | different endings are announced with different messages |

## Left out

- The Swing user interface is not modelled: widgets, layout, icons,
  the colour chooser, status texts, label colours below 10 s, and the
  on-screen clock labels of `updateClockLabels`. None of it computes
  anything the core uses.
- `handleClick` is left out. It calls the rules engine (`Game`), which is
  not part of this model.
- `maybeTriggerAI` and `SwingWorker` scheduling are left out. The model
  keeps the background task's selection logic: `SelectBest`, `ChooseMove`
  and `CollectAllLegalMovesForSide`. It does not model threads or the
  `done()` callback.
- The computer always promotes to 'Q'. That constant is not modelled.
- `javax.swing.Timer` scheduling, `System.currentTimeMillis` and
  `Random.nextInt` are not modelled. Wall times are parameters. The random
  index is a parameter `draw`, reduced modulo the list size.
- The game's rules engine is left out: `Game`, `Board`, `Piece`, `Pawn`,
  `legalMovesFrom`, `isPromotion`, `flagTimeout`, `history`, `inCheck`.
  It appears only as parameters.
- Dialog texts are left out, except the end-of-game messages in
  `GuiTables.EndMessage`.
- ClockText.FormatTime, Decimal.Pad2: these assume a default locale whose zero digit is '0'. `String.format` localises digits, so in a locale with other digits the label holds non-ASCII digits; locales are not modelled.
- The model does not represent `long` or `int` overflow. All values in
  these code paths stay far from the limits.
- `ChessClock.MoveStep` and `ChessClock.Clock.OnMoveProcessed` read
  `enableClockCheck.isSelected()` only once. The source reads it again at
  line 641, but no other code runs between the two reads.
- `ChessClock.ApplyValid`, `ChessClock.RunValid`: these assume positive wall
  times and spinner values within the spinners' ranges (1..180 minutes,
  0..60 s of increment). That is their precondition `Admissible`, which
  the Java code never checks.
