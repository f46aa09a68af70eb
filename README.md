# Hand-tracking reflex game: the session logic

A player touches a target on screen with the tip of a tracked index finger.
Each touch scores one point and moves the target. A session lasts as long as
its time budget, and the final scores go to a leaderboard file. The
repository holds the game twice, and this project models both versions:

- **gameapp.py**: a Qt window, `GameWindow`. A session is started at one of
  three levels, whose difficulty factor (1.0, 1.5, 2.0) speeds up the clock.
  A hit adds five seconds to the budget. A target that sits idle for more
  than three seconds moves. When the session ends by timeout or by the Stop
  button, a `Score: <n>` line is appended to `leaderboard.txt`. The panel
  then shows the five best scores.
- **game.py**: a plain OpenCV loop over camera frames. It has a fixed
  30-second budget and no levels. The target moves every two seconds, and a
  hit also gives the target a random colour.

Modules:

- `Wrappers`: `Option` and `Result`.
- `Rules` (rules.dfy): what both versions share.
  - The strict square hit test, `|dx| < 25` and `|dy| < 25`.
  - The remaining time `int(limit - elapsed * factor)`, truncated toward
    zero. Time is in integer milliseconds. The factor is carried as twice
    its value ("halves": 2, 3, 4), so the arithmetic is exact.
- `Leaderboard` (leaderboard.dfy): the file and its view, as pure functions.
  - The store is the text of `leaderboard.txt`, `None` while the file does
    not exist.
  - `Lines` is `readlines()`; `Strip(StrBlanks, ·)` is `str.strip()` over
    the `isspace` characters; `SecondField` is `split(": ")[1]`; `ParseInt`
    is `int()` on ASCII digit strings of any length (sign, digits, single
    underscores, surrounding whitespace; "## Left out" names what differs).
    `int()` skips the `isspace` characters except U+001C to U+001F, so
    `ParseInt` strips with `IntBlanks`.
  - A line that `int()` or the index rejects makes the whole board a
    `Failure`, as the list comprehension raises.
  - The view is `TopFive(SortDescending(scores))`.
- `GameApp` (gameapp.dfy): the class `GameWindow`, which has the window's
  game fields and the methods `StartGame`, `UpdateFrame` (with its hands
  loop `CheckHits`), `EndGame`, `StopGame` and `UpdateLeaderboard`.
  - Each method is specified by a pure function on the value
    `WindowState` (`Started`, `Frame`, `Ended`, `ShownBoard`).
  - The game's rules are lemmas about those functions.
- `Script` (game.dfy): the module-level variables of game.py as the class
  `ScriptGame`. `PlayFrame` is one pass of the `while` loop and `Run` is the
  loop itself. They are specified by the pure functions `Step` and `Play`.

Inputs the program gets from its surroundings become parameters:

- The clock becomes a `now` per frame, in ms.
- The hand tracker becomes a fingertip pixel per detected hand (in game.py
  an `Option`, because the pixel mapping can fail).
- `random.randint` becomes explicit draws, whose ranges are preconditions
  (`DrawsFit`).
- The Stop button and the `q` key become method calls and a flag per frame.

Behaviours of the code worth knowing:

- **Session length.** The remaining time is truncated toward zero, so a
  session ends on the first tick where the scaled elapsed time exceeds
  `limit - 1` seconds. A fresh Hard session ends after 14.5 s of wall clock
  (Easy 29 s, Medium 19.333 s); see `GameApp.FreshSessionLength` and
  `Script.GameOverIff`.
- **Records per session.** `end_game` appends a record whenever it is
  called, whether or not a session is running. Pressing Stop after a
  timeout therefore appends the same score a second time
  (`GameApp.StopAfterTimeoutRecordsTwice`).
- **Malformed lines.** A non-blank line without `": "` or whose field is not
  an integer makes `update_leaderboard` raise
  (`Leaderboard.MalformedLineFailsBoard`); blank lines are skipped
  (`Leaderboard.BlankLineSkipped`).
- **Ties.** Scores are plain integers, so any two non-increasing orderings
  of the same scores are equal (`Leaderboard.SortedPermutationIsUnique`).
- **Idle move order.** In gameapp.py the idle move happens before the
  timeout check; in game.py, after it.
- **Target colour.** gameapp.py never changes the target colour; game.py
  recolours it on every hit.

## Model

| member | source | states |
|---|---|---|
| Rules.IsHit | gameapp.py:163 | the collision test of both versions (also game.py:70): both axis offsets between fingertip and target strictly below 25 px |
| Rules.HitIsChebyshevBall | gameapp.py:163 | a fingertip scores exactly when its Chebyshev distance to the target is below 25, so the hit region is a square |
| Rules.HitBoundary | gameapp.py:163 | the test is strict on both axes and in both directions: an offset of 24 hits, an offset of 25 misses |
| Rules.HitIsSymmetric | game.py:70 | swapping fingertip and target does not change whether it is a hit |
| Rules.CornerHitsOutsideDisc | gameapp.py:139-163 | a point near the corner of the square scores although it lies outside the drawn disc of radius 25 |
| Rules.RemainingSeconds | gameapp.py:142 | `int(time_limit − elapsed·factor)` in whole seconds, truncated toward zero, from integer-ms times and the factor in halves; game.py:42 is the case of factor 1 |
| Rules.TruncDiv | gameapp.py:142 | the quotient is truncated toward zero: for n ≥ 0, q·d ≤ n < q·d + d; for n < 0, q·d − d < n ≤ q·d |
| Rules.RemainingPositiveIff | gameapp.py:142-147 | `int(limit − elapsed·factor)` is positive exactly when the scaled elapsed time is at most `limit − 1` seconds |
| Leaderboard.SplitLines | gameapp.py:196 | `readlines()` of the file text: the text cut right after each '\n' |
| Leaderboard.Lines | gameapp.py:194-198 | the lines of the file; a missing file reads as no lines, as the `FileNotFoundError` branch does |
| Leaderboard.LineLength | gameapp.py:196 | the first line of a non-empty text is non-empty and ends in '\n' unless it is the whole text |
| Leaderboard.LineLengthIsFirstNewline | gameapp.py:196 | the first line holds no '\n' before its last character |
| Leaderboard.SplitLinesJoin | gameapp.py:196 | the lines `readlines()` returns concatenate back to the whole file text |
| Leaderboard.SplitLinesShape | gameapp.py:196 | no line is empty, every line but the last ends in '\n', and no line holds a '\n' before its last character |
| Leaderboard.TrimStart | gameapp.py:200 | the result is a suffix of the input, every character removed is a blank of the given kind (`str.strip()`'s or `int()`'s), and it does not start with one |
| Leaderboard.TrimEnd | gameapp.py:200 | the result is a prefix of the input, every character removed is a blank of the given kind, and it does not end with one |
| Leaderboard.Strip | gameapp.py:200 | trailing then leading blanks removed: `str.strip()` with `StrBlanks`, the whitespace `int()` skips with `IntBlanks` |
| Leaderboard.SecondField | gameapp.py:200 | `split(": ")[1]`: a field exists exactly when the line holds a ": ", and that field holds no ": " itself |
| Leaderboard.ParseInt | gameapp.py:200 | `int()` of a base-10 string: optional sign, ASCII digits with single underscores between them, `int()`'s whitespace around; None where `int()` raises |
| Leaderboard.ParseEntry | gameapp.py:200 | one line of the comprehension: nothing for a line that strips to nothing, else the integer after ": " or the error raised |
| Leaderboard.ParseScores | gameapp.py:200 | the comprehension over all lines: the scores of the non-blank lines in file order, or the first line's error |
| Leaderboard.Record | gameapp.py:189 | the line `f"Score: {score}\n"` |
| Leaderboard.Append | gameapp.py:188-189 | opening in append mode and writing a record: the file is created when missing and its text is extended by the record |
| Leaderboard.TopFive | gameapp.py:200 | the slice `[:5]`: the first min(5, n) elements |
| Leaderboard.Board | gameapp.py:193-200 | what `update_leaderboard` computes: the five best scores of the file, best first, or the error the comprehension raises |
| Leaderboard.FindSeparator | gameapp.py:200 | the result is the first index at or after i where ": " starts, and None when there is none |
| Leaderboard.NatToString | gameapp.py:189 | `f"{score}"` is a non-empty string of decimal digits |
| Leaderboard.Insert | gameapp.py:200 | inserting into a descending list keeps it descending and adds exactly that one element |
| Leaderboard.SortDescending | gameapp.py:200 | `sorted(..., reverse=True)` is non-increasing and a permutation of its input |
| Leaderboard.MissingStoreShowsNothing | gameapp.py:194-198 | a missing file shows an empty board, not an error |
| Leaderboard.SortedPermutationIsUnique | gameapp.py:200 | two non-increasing orderings of the same scores are equal, so sort stability cannot show |
| Leaderboard.SeparatorNotSkipped | gameapp.py:200 | U+001C is whitespace to `str.isspace()`, yet `int()` rejects a field that starts with it |
| Leaderboard.SpacesSkipped | gameapp.py:200 | `int()` skips a leading space and a trailing no-break space around any digit string and reads its value |
| Leaderboard.BlankLineSkipped | gameapp.py:200 | a line that strips to nothing adds no score and no failure to a parseable file |
| Leaderboard.ViewIsTopFive | gameapp.py:200 | the view has min(5, n) scores in non-increasing order, drawn from the scores, and no score left off beats one shown |
| Leaderboard.DigitsValueOfNatToString | gameapp.py:189-200 | the digits written for n are a valid digit string whose value is n |
| Leaderboard.StripRecord | gameapp.py:200 | stripping a record leaves `Score: ` and the digits, without the newline |
| Leaderboard.RecordIsOneLine | gameapp.py:189-196 | `readlines()` of a record is the record itself, one line |
| Leaderboard.RecordField | gameapp.py:200 | the field after ": " in a stripped record is the digits of the score |
| Leaderboard.ParseIntOfNatToString | gameapp.py:200 | `int()` reads the digits `f"{n}"` wrote back as n |
| Leaderboard.RecordEntry | gameapp.py:189-200 | a record line parses to exactly the score that was written |
| Leaderboard.RecordParses | gameapp.py:189-200 | a file holding one record reads back as exactly that one score |
| Leaderboard.SplitLinesAppend | gameapp.py:188-196 | appending a whole line to a text that ends at a line boundary adds exactly that line to `readlines()` |
| Leaderboard.ParseScoresSnoc | gameapp.py:200 | one more record line adds its score at the end of the parsed scores |
| Leaderboard.AppendRecordsScore | gameapp.py:188-189 | appending a record to a whole-line, parseable file keeps it whole-line and extends its scores by exactly the new score |
| Leaderboard.WrittenReadsBack | gameapp.py:188-200 | a file built only by appending records reads back as exactly the recorded scores, in order |
| Leaderboard.BoardOfWritten | gameapp.py:188-200 | the board of such a file is the top five of the recorded scores |
| Leaderboard.ViewIsUnique | gameapp.py:200 | for at most five scores, the view is the unique non-increasing arrangement of them |
| Leaderboard.ExampleView | gameapp.py:200 | scores 5, 10, 5, 8 show as 10, 8, 5, 5 |
| Leaderboard.CollectFails | gameapp.py:200 | one failing entry anywhere makes the whole parse fail |
| Leaderboard.MalformedLineFailsBoard | gameapp.py:194-200 | one malformed line anywhere in the file makes the board fail, as the comprehension raises |
| GameApp.CollisionsFacts | gameapp.py:152-168 | the hands loop changes only score, budget and target; it scores at most once per hand, each point adds exactly 5 s, no hit means no change, and a moved target is one of the draws, seen now |
| GameApp.IdleWindowIgnoresTicks | gameapp.py:123-124 | a tick while not running changes nothing |
| GameApp.FrameEndsIff | gameapp.py:142-149 | a running tick ends the session exactly when the remaining time is ≤ 0, that is when the scaled elapsed time exceeds `limit − 1` s |
| GameApp.EndingTickRecordsScore | gameapp.py:142-149 | the tick that ends a session scores nothing, leaves the budget, and appends one record of the current score |
| GameApp.FrameNeverLosesPoints | gameapp.py:152-168 | score and budget never decrease, the budget grows by exactly 5 s per point, at most one point per hand, and a tick that does not end the session leaves the leaderboard alone |
| GameApp.FramePlacesTarget | gameapp.py:134-168 | a target that moves lands in [100, w−100] × [100, h−100]; one idle for more than 3 s moves and is marked seen now |
| GameApp.OneHandTick | gameapp.py:152-168 | with one hand, a tick scores exactly on a hit against the (possibly moved) target; a hit gives +1 point, +5 s, the drawn position and seen-now; a miss changes nothing more |
| GameApp.NoHandNoPoints | gameapp.py:152 | a tick without a detected hand never scores |
| GameApp.FreshSessionLength | gameapp.py:142-147 | a fresh session survives a tick exactly up to 29 s (Easy), 19.333 s (Medium) or 14.5 s (Hard) after its start |
| GameApp.EndRecordsScore | gameapp.py:180-201 | ending a session extends the recorded scores by its score, and the panel then shows the top five of them |
| GameApp.StopAfterTimeoutRecordsTwice | gameapp.py:175-189 | Stop after a timeout appends the same score a second time |
| GameApp.GameWindow.constructor | gameapp.py:65-91 | not running, score 0, budget 30, factor 1.0, the drawn target, clocks at now, the board of the file |
| GameApp.GameWindow.UpdateLeaderboard | gameapp.py:193-201 | returns the board of the file and shows it; on a failure the panel keeps what it showed |
| GameApp.GameWindow.StartGame | gameapp.py:102-117 | running, score 0, budget 30, start and seen clocks at now, factor 1.0/1.5/2.0 for Easy/Medium/Hard; nothing else changes |
| GameApp.GameWindow.EndGame | gameapp.py:180-191 | not running, one record of the score appended, the panel refreshed; returns the board of the new file, a failure being the error `end_game` raises after writing |
| GameApp.GameWindow.StopGame | gameapp.py:175-176 | the same new state and result as EndGame, so its error propagates as in `stop_game` |
| GameApp.GameWindow.UpdateFrame | gameapp.py:122-168 | the new state is `Frame` of the old one, so the GameApp lemmas above hold of every tick; a board result is returned exactly on the running tick whose remaining time is ≤ 0, and it is the board after the record, a failure being the error the tick raises |
| GameApp.GameWindow.CheckHits | gameapp.py:152-168 | the new state is the hands loop `Collisions` of the old one |
| Script.CatchesFacts | game.py:59-74 | the hands loop changes only score, target and colour; at most one point per hand; no hit means no change; valid draws keep the target in [50, 600] × [50, 400] with colour components in [0, 255] |
| Script.GameOverIff | game.py:42-48 | the loop stops exactly on a frame more than 29 s after the start |
| Script.StepKeepsDeadline | game.py:15 | no frame, hits included, changes when the game is over: the budget is never extended |
| Script.StepFacts | game.py:51-74 | a frame never loses points, scores at most once per hand, and keeps the target in the arena with a valid colour |
| Script.MoveTimerIgnoresHits | game.py:51-74 | the move timer is reset by the timed move only, never by a hit; a timed move without a hit leaves the target at the draw |
| Script.OneHandStep | game.py:59-74 | with one hand, a frame scores exactly when the fingertip maps to a pixel inside the square; a hit gives +1 point, the drawn position and the drawn colour |
| Script.PlayFacts | game.py:33-80 | the loop never loses points, keeps the target valid and the start time, and runs out exactly when a frame comes more than 29 s after the start with no `q` before it |
| Script.ScriptGame.constructor | game.py:10-16 | score 0, the drawn target, colour (0, 255, 0), both clocks at now |
| Script.ScriptGame.PlayFrame | game.py:42-74 | says whether the game is over; if so nothing changes, otherwise the new state is `Step` of the old one |
| Script.ScriptGame.Run | game.py:33-80 | the final state, score and time-out flag are those of `Play` over the frames |

## Left out

- Qt widgets, styling, buttons, `update_level_color`, full-screen handling and `close_application` (gameapp.py:14-63, 93-100, 203-212): user interface. `close_application` calls `stop_game`, which is modelled, and then closes the window.
- Camera capture, image flips and colour conversion, all drawing, `imshow`, and the panel's text formatting (gameapp.py:201): rendering and I/O. The board is kept as its list of scores.
- MediaPipe hand detection and the normalised-to-pixel mapping are foreign library calls. The model takes the fingertip pixels as input; in game.py a tip is `None` when the mapping fails.
- gameapp.py configures the tracker for one hand (`max_num_hands=1`). The model allows any number of hands, and `GameApp.OneHandTick` states the one-hand case.
- `random.randint` draws are parameters, and their ranges are preconditions.
- GameApp.GameWindow.UpdateFrame: ticks are taken to come from frames at least 200 × 200 px (`DrawsFit` asks every draw to lie in the playfield), so the `ValueError` that `randint` raises on an empty range for a narrower frame (gameapp.py:135-136, 166-167) is not modelled.
- Wall-clock time and floating point: the source reads `time.time()` several times per frame. The model uses one integer-millisecond `now` per frame and exact rational arithmetic for the factor.
- The 20 ms `QTimer` and `cap.release()`/`destroyAllWindows()`: ticks are calls to `UpdateFrame`, which does nothing once `running` is false.
- `last_move_time` in gameapp.py (line 75) is set but never read, so it has no field.
- File I/O on leaderboard.txt: the store is the file's text in memory. Universal-newline translation on reading (`\r` and `\r\n` → `\n`; a lone `\r` ends a line for `readlines()`, but not for the model), write failures and concurrent writers are not modelled.
- Leaderboard.ParseInt: Python `int()` also accepts non-ASCII Unicode decimal digits, and it raises `ValueError` on a decimal string of more than 4300 digits (the interpreter's default limit on integer string conversion). The model accepts ASCII digits only and any number of them. The program itself never writes such a record, because `f"{score}"` is subject to the same limit.
- GameApp.GameWindow.constructor: when leaderboard.txt holds a malformed line, `__init__` raises. The model's constructor shows the empty board instead.
- GameApp.GameWindow.UpdateLeaderboard: in Python the parse error propagates to the caller, also out of `end_game` after the record is written. The model returns the failure as a `Result` and leaves the panel unchanged; `EndGame`, `StopGame` and, on the tick that ends a session, `UpdateFrame` pass that `Result` on to their callers.
- The `print` of the final score in game.py (lines 47, 79) is output only.
