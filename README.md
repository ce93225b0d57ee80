# Flappy Bird and Tic-Tac-Toe game logic in Dafny

This project models the game logic of two small Swing games and proves properties of it.

**Flappy Bird (`GamePanel` of `Flappybird.java`).** A bird falls under gravity. SPACE starts a round, flaps, or restarts a finished round; R restarts a finished round. Pairs of pipes scroll from right to left. Touching the ground or a pipe ends the round. Each top pipe the bird passes scores one point, and the high score outlives rounds.

The model has two layers:

- `flappy_pipes.dfy` (module `FlappyPipes`): the `GamePipe` record, pair spawning (`addPipe`), scrolling and recycling (`movePipes`), the rectangle overlap used for collisions, and the scan that finds the pipe to score.
- `flappy_game.dfy` (module `FlappyGame`): the whole panel state as a value `Panel`, with one pure transition per operation (`Restarted`, `Started`, `Fallen`, `AfterCollisions`, `AfterScoring`, `AfterTick`, `AfterKey`) and lemmas about them. Class `GamePanel` holds the same state in mutable fields. Each method, with its loops, is proved to perform exactly the corresponding transition (`ensures State() == AfterTick(old(State()), draw)` and similar). The invariant `Invariant` (bird inside the playfield, pipes forming well-formed pairs within range, score not above high score) is proved to survive every tick and key press.

**Tic-Tac-Toe (`TicTacToe.java`).** Two players click the nine buttons in turn. A completed line wins: the tally goes up, the line is highlighted and the board resets. A full board is a draw and resets too. "Restart Game" clears the board. "New Game" also zeroes the tallies.

- `tictactoe_board.dfy` (module `TicTacToeBoard`): the board abstracted from the button texts (`Empty`, `X`, `O`), the eight lines in scan order, the win check and mark counting.
- `tictactoe_game.dfy` (module `TicTacToeGame`): class `TicTacToe`. The buttons are an `array<Cell>`, their winning background an `array<bool>`, and the turn, move count and tallies are fields. The class invariant `Valid` states: the move count equals the number of marks, X has moved as often as O or once more depending on the turn, and between clicks no line is complete and nothing is highlighted.

Random heights are inputs. Wherever `random.nextInt(240)` is called, the model takes a parameter `draw` (or `first`, `second`) with `0 <= draw < 240`.

## Model

Five of the definitions carry no contract of their own; each is stated by the lemmas named here. `FlappyGame.AfterCollisions` (Flappybird.java:98-123) by `CollisionRules`. `FlappyGame.AfterScoring` (Flappybird.java:125-137) by `ScoringRules`. `FlappyGame.AfterKey` (Flappybird.java:337-350) by `KeyPressCases`. `FlappyPipes.Scrolled` (Flappybird.java:81-90) by `ScrolledMembers` and `ScrolledAppend`. `FlappyPipes.Moved` (Flappybird.java:80-96) by `MovedKeepsShape`.

| member | source | states |
|---|---|---|
| FlappyPipes.PairAt | Flappybird.java:63-77 | a spawned pair is a top pipe at y 0 with height 60 + draw in [60, 300) and a bottom pipe 250 below it reaching y 600, both 70 wide, at the given x, neither passed |
| FlappyPipes.AppendPairWellFormed | Flappybird.java:76-77 | appending a pair to a list of pairs keeps it a list of pairs |
| FlappyGame.GamePanel.AddPipe | Flappybird.java:63-78 | appends exactly the pair for the drawn height at x 800 when starting or when the list is empty, else at the last pipe's x + 350 |
| FlappyPipes.IntersectsIffSharedPixel | Flappybird.java:113-118 | the AWT overlap test holds exactly when the two rectangles share a pixel |
| FlappyPipes.PipeHit | Flappybird.java:116-122 | the pipe loop reports a hit exactly when some pipe rectangle overlaps the bird's box |
| FlappyPipes.ScrolledMembers | Flappybird.java:81-90 | a pipe survives the loop of movePipes exactly when it is some pipe moved 3 left whose right edge is still at or right of x 0 |
| FlappyPipes.ScrolledAppend | Flappybird.java:81-90 | scrolling treats each pipe on its own, so survivors keep their relative order |
| FlappyPipes.ScrolledWellFormed | Flappybird.java:81-90 | scrolling drops or keeps a pair as a whole, so a list of pairs stays one |
| FlappyPipes.ScrolledInRange | Flappybird.java:81-90 | every surviving pipe lies between x -70 and x 800 |
| FlappyPipes.ScrollStep | Flappybird.java:82-89 | one step of the loop, shifting the pipe at the current index in place and removing it when off screen, turns what the loop produced from the first n pipes plus the untouched rest into what it produces from n + 1 pipes plus the rest, and leaves the index on the next untouched pipe |
| FlappyGame.GamePanel.ScrollPipes | Flappybird.java:81-90 | the index loop with in-place removal and `i--` produces exactly the scrolled list |
| FlappyPipes.MovedKeepsShape | Flappybird.java:80-96 | after movePipes the list is non-empty, still pairs and in range, and when none survived or the last one is left of x 350 the survivors are followed by exactly the pair for the drawn height at the last survivor's x + 350 (x 800 if none survived); otherwise the list is the survivors |
| FlappyPipes.MovedKeepsSurvivor | Flappybird.java:80-96 | a pipe still on screen after its shift is in the list after movePipes |
| FlappyGame.GamePanel.MovePipes | Flappybird.java:80-96 | scrolls, then spawns a pair exactly when the list is empty or its last pipe is left of x 350 |
| FlappyPipes.FirstScorable | Flappybird.java:126-128 | finds the first top pipe, at or after a start index, that the bird has passed and that is not yet scored, or reports that none exists |
| FlappyPipes.MarkPassedWellFormed | Flappybird.java:128-130 | marking a top pipe passed keeps the list a list of pairs |
| FlappyPipes.MarkPassedInRange | Flappybird.java:130 | marking a pipe passed keeps the list's length and every pipe's x, so the list stays within x -70 to 800 |
| FlappyPipes.PassedCountMark | Flappybird.java:128-130 | marking an unscored pipe passed adds exactly one to the number of scored pipes |
| FlappyGame.Restarted | Flappybird.java:139-151 | reset puts the bird at (100, 250) at rest, not started and not over, with score 0, the high score kept, and the pipes exactly the two unscored pairs for the two drawn heights, both at x 800; the result satisfies the panel invariant |
| FlappyGame.GamePanel.ResetGame | Flappybird.java:139-151 | the fields become exactly the restarted panel with the old high score |
| FlappyGame.GamePanel.constructor | Flappybird.java:50-61 | a new panel is the restarted panel with high score 0 and satisfies the invariant |
| FlappyGame.Started | Flappybird.java:156-161 | startGame leaves the round started and changes nothing else |
| FlappyGame.StartIdempotent | Flappybird.java:156-161 | starting twice is the same as starting once; starting a started round changes nothing |
| FlappyGame.GamePanel.StartGame | Flappybird.java:156-161 | the fields change exactly as Started says |
| FlappyGame.Fallen | Flappybird.java:320-321 | velocity grows by gravity 1, then y moves by the new velocity; nothing else changes |
| FlappyGame.CollisionRules | Flappybird.java:98-123 | y ends in [5, 530]; at or below the ground y is clamped to 530 and the round ends; at or above the ceiling y is clamped to 5 and the velocity zeroed; the round ends exactly when it was over, the bird hit the ground, or the shrunk box at the clamped y overlaps a pipe; nothing else changes |
| FlappyGame.GamePanel.CheckCollisions | Flappybird.java:98-123 | the fields change exactly as the transition AfterCollisions computes, whose effect CollisionRules states |
| FlappyGame.ScoringRules | Flappybird.java:125-137 | the score rises by one exactly when some top pipe is scorable, otherwise it stays; when it rises, exactly the first scorable pipe in list order is marked passed and can no longer score, and when it stays the pipes are unchanged; the high score becomes the maximum of itself and the new score when the score rose; nothing else changes |
| FlappyGame.ScoreCountsPassedPipes | Flappybird.java:125-137 | the score rises by exactly the number of pipes that scoring marks passed |
| FlappyGame.GamePanel.UpdateScore | Flappybird.java:125-137 | the loop with break changes the fields exactly as the transition AfterScoring computes, whose effect ScoringRules states |
| FlappyGame.ScoringKeepsInvariant | Flappybird.java:125-137 | scoring keeps the panel invariant: marking a top pipe passed keeps the pairs and their positions, and the high score keeps up with the score |
| FlappyGame.ScoringKeepsPassed | Flappybird.java:126-130 | scoring never clears `passed`: a scored pipe is still in the list afterwards |
| FlappyGame.AfterTick | Flappybird.java:317-334 | a tick changes nothing unless the round is started and not over |
| FlappyGame.TickKeepsInvariant | Flappybird.java:317-334 | a tick keeps the bird in [5, 530], the score at most the high score, and the pipes a non-empty in-range list of pairs |
| FlappyGame.TickMotion | Flappybird.java:317-334 | while running, with y' the old y plus the old velocity plus 1: if y' is at or below the ground, y becomes 530, the velocity grows by 1 and the round ends; if y' is at or above the ceiling, y becomes 5 and the velocity 0; otherwise y becomes y' and the velocity grows by 1. The score rises by at most one and the high score stays the maximum of itself and the score |
| FlappyGame.TickKeepsPassed | Flappybird.java:317-334 | a tick never clears `passed`: a scored pipe that survives scrolling is still in the list, shifted and still scored, so no pipe scores twice |
| FlappyGame.GamePanel.Tick | Flappybird.java:317-334 | the timer callback keeps the invariant and changes the fields exactly as AfterTick says |
| FlappyGame.FirstTickScenario | Flappybird.java:318-321 | from a fresh start, one tick gives velocity 1 and y 251 with no collision or point; a flap then a tick gives velocity -11 and y 239 |
| FlappyGame.FlapOverridesVelocity | Flappybird.java:338-345 | SPACE in a running round sets the velocity to -12 whatever it was and changes nothing else |
| FlappyGame.OverIsSticky | Flappybird.java:317-350 | a finished round ignores ticks and every key except SPACE and R, which both restart it |
| FlappyGame.KeyPressCases | Flappybird.java:337-350 | SPACE starts a fresh round, restarts a finished one, flaps a running one; R restarts only a finished round; C and other keys change nothing |
| FlappyGame.KeyKeepsInvariant | Flappybird.java:337-350 | a key press keeps the panel invariant |
| FlappyGame.GamePanel.KeyPressed | Flappybird.java:337-350 | the key handler keeps the invariant and changes the fields exactly as AfterKey says |
| TicTacToeBoard.FirstWinningLine | TicTacToe.java:212-222 | finds the first line in scan order, at or after a start index, whose three cells hold the same mark, or reports that none exists |
| TicTacToeBoard.CheckWin | TicTacToe.java:198-209 | the win check holds exactly when one of the eight lines holds three equal marks |
| TicTacToeBoard.CheckWinByCells | TicTacToe.java:199-208 | the win check is the disjunction over the eight lines written out cell by cell |
| TicTacToeBoard.NewLineIsMovers | TicTacToe.java:181-183 | on a board without a line, a mark placed in an empty cell can only complete lines through that cell, and they are the mover's |
| TicTacToeBoard.PlaceMark | TicTacToe.java:165-193 | the mover's mark in an empty cell adds exactly one mark, and with the turn handed over X has again moved as often as O or once more |
| TicTacToeBoard.CountOfUpdate | TicTacToe.java:165-178 | writing a mark over a cell moves exactly one count from the old content to the new mark |
| TicTacToeBoard.CountsPartition | TicTacToe.java:165-178 | every cell is empty, X or O, so the three counts add up to the board size |
| TicTacToeBoard.CountOfZero | TicTacToe.java:237-241 | a mark is counted zero times exactly when no cell holds it |
| TicTacToeBoard.NineMarksFillBoard | TicTacToe.java:189 | nine marks on the board exactly when no cell is empty, so `moves == 9` means a full board |
| TicTacToeBoard.EmptyBoardFacts | TicTacToe.java:231-241 | a cleared board holds no X, no O and no line |
| TicTacToeBoard.DiagonalWinScenario | TicTacToe.java:181-188 | X 0, O 1, X 4, O 2 complete no line; X 8 then completes the diagonal 0-4-8, the first line found |
| TicTacToeGame.TicTacToe.constructor | TicTacToe.java:11-89 | a new window has nine empty cells, none highlighted, X to move, no moves and zero tallies |
| TicTacToeGame.TicTacToe.ResetGame | TicTacToe.java:231-242 | clears every cell and its highlight, X moves next, the move count is 0, and the tallies are unchanged |
| TicTacToeGame.TicTacToe.NewGame | TicTacToe.java:100-104 | both tallies become 0 and the board is reset |
| TicTacToeGame.TicTacToe.HighlightWinningLine | TicTacToe.java:211-224 | exactly the three cells of the first complete line in scan order gain the highlight; no other cell changes |
| TicTacToeGame.TicTacToe.Place | TicTacToe.java:165-178 | the clicked empty cell gets the mover's mark, the move count rises by one, and no other cell changes |
| TicTacToeGame.TicTacToe.Move | TicTacToe.java:162-196 | an occupied cell changes nothing. Otherwise, if the placed mark completes a line, the mover wins, their tally rises by one and the board is cleared; else, after the ninth move, a draw clears the board; else the board holds the new mark and the turn passes. The class invariant holds after each click |

## Left out

- Painting is not modelled: `paintComponent` of both games, colours, fonts, the wing animation, the status and score labels (`updateScores`), and the button hover effects. None of them affects game state.
- The Swing `Timer` is not modelled: its start in `startGame` and stop in `resetGame`, its 20 ms period, and `repaint`. The timer runs while `gameStarted` holds, from `startGame` until `resetGame`, including after the round is over. A tick is a call of `Tick`, and it does nothing unless `gameStarted && !gameOver`, which `AfterTick` states as `!Running(s) ==> r == s`.
- `JOptionPane` dialogs are not modelled: the win and draw messages, and the C cheat key, whose only effect is a dialog. In the model, C changes nothing.
- `java.util.Random` is not modelled: every height draw is an input in [0, 240).
- 32-bit `int` overflow is not modelled, because integers are unbounded. The bird's y and every pipe's x are proved to stay in small ranges. The velocity (it grows by 1 per tick while falling, and the ground ends the round within about 30 ticks) and the scores are not bounded in the model.
- `GamePipe` is a mutable object in the source. In the model it is a value in a sequence, because the list is the only holder of each pipe, so no aliasing is lost. `pipes.remove(pipe)` is modelled as removing the element at the current index. They coincide because only the same object at index `i` is equal to `pipe`.
- FlappyGame.GamePanel.ScrollPipes: the source has a single `movePipes`. Its loop is a separate method here to keep each proof small. `MovePipes` calls it and then spawns, exactly as the source does.
- The frame setup (`main`, window sizes, layouts, look and feel) is not modelled.
- TicTacToeGame.TicTacToe.Move: the source identifies the clicked button from the event. The model takes its index, `cell` in [0, 9). The returned `Outcome` names which branch was taken, in place of the dialog the source shows.
- A decided Tic-Tac-Toe game has no persistent state in the model. The handler resets the board within the same click, right after the dialog, so between clicks no line is ever complete. The model follows this code. The highlight set by `highlightWinningLine` is cleared by that reset in the same click.
- New Flappy Bird pairs spawn 350 to the right of the last pipe, not at the right edge. Only a reset, or an empty list, spawns at x 800. A reset places both initial pairs at x 800, on top of each other. The model keeps this, as the code does.
