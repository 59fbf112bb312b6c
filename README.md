# Game of Life in Python — a verified Dafny model

This project models the core of a small Conway's Game of Life program (`game.py`).
It has two parts.

The first is the Life engine, class `Model`. It counts the occupied neighbours of a cell on a
torus: coordinates wrap with `%`, so the last row and column touch the first. It applies the
birth/survival rule table. It builds the next generation as a fresh grid, computed from the old
grid alone.

The second is the session logic of the window, class `View`, with all drawing removed. The window
has an editing loop and a running loop. In the editing loop, a click can hit the start button
(the simulation starts), the reset button (every cell becomes 0), the slower or faster button
(halve or double the frame rate), or the grid (the cell under the mouse flips). In the running
loop only the start/pause button is read, and every pass computes exactly one generation.

Files:

- `life.dfy`, module `Life`: grids as `seq<seq<int>>`, the reference definitions (`NeighbourSum`,
  an explicit sum of the eight wrapped neighbours, and `Step`, the next generation), the class
  `Model` with its two loops as methods proved against them, and lemmas about the engine.
- `view.dfy`, module `GameView`: the button hit tests, the speed rules on a small `Speed` value,
  the class `View` with one method per handler, and two client sessions that show what a caller
  can conclude from the contracts.

Python's `%` floors. Dafny's `%` is Euclidean. The two agree whenever the divisor is positive.
Here the divisor is always the row or column count of a non-empty board. Python 2's `/` on
non-negative integers is floor division, as Dafny's is.

The model follows the code as written. Some of its behaviour is easy to misread:

- The faster button doubles while the speed is below 600. From 64 the speed therefore reaches
  1024, not 600. The reachable speeds are the powers of two from 8 to 1024 (`PowerOfTwoValues`,
  `PressedKeepsSpeedOk`).
- `cannotSlower` and `cannotFaster` are not derived from the speed. A flag is set only by a
  failed press and cleared only by a successful press the other way. What does hold is one-way:
  a set flag means the speed sits at 8 or at 1024 (`SpeedOk`).
- A click is not rejected when it misses the grid, and nothing checks a column bound. The grid
  handler tests only `0 < my < height`, so pixel row 0 is ignored. The model takes the mouse
  position to lie inside the window (`0 <= mx < width`), which is where a mouse position comes from.
- In a running pass, a pause click clears the flag but does not stop that pass: its generation
  step still happens (`RunningPass`).
- The editing handler does not look at the flag. Events that arrive in the same batch as a start
  click are still handled as edits. So `ClickWhileEditing` does not require the editing mode.

## Model

| member | source | states |
|---|---|---|
| `Life.Model.NumNeighbours` | game.py:24-41 | the count, which starts from minus the cell and adds the 3x3 block, equals the sum of the eight wrapped neighbours; on a 0/1 grid it lies in [0, 8] |
| `Life.Model.UpdateState` | game.py:43-51 | the fresh grid built cell by cell is exactly the next generation `Step` of the old grid |
| `Life.Model.GetStateCell` | game.py:53-71 | the rule returns only 0 or 1, and returns 1 exactly when there are 3 neighbours and the cell is 0 or 1, or 2 neighbours and the cell is 1 |
| `Life.NeighbourSumBounds` | game.py:33-41 | on a 0/1 grid every neighbour count is between 0 and 8 |
| `Life.CornerWraps` | game.py:37-38 | on a board of at least 3x3 with only (0, 0) occupied, the opposite corner (rows-1, columns-1) has exactly one neighbour: the edges wrap |
| `Life.StepShape` | game.py:43-51 | a generation keeps the rows x columns shape and always yields a 0/1 grid |
| `Life.StepCell` | game.py:47-49 | on a 0/1 grid a cell of the next generation is 1 exactly when it has 3 neighbours, or 2 and was occupied (B3/S23) |
| `Life.StepBlank` | game.py:43-51 | an empty board stays empty |
| `Life.Model.constructor` | game.py:20-22 | an engine keeps the board's number of rows and columns it was built with |
| `Life.Toggled` | game.py:163-166 | the flipped grid has the same number of rows and the same length of the chosen row, and the chosen cell always changes: 0 becomes 1, anything else 0 (the rest is in `ToggledCells`) |
| `Life.Blank` | game.py:88 | the initial board has the given shape and every cell is 0 |
| `Life.ToggledCells` | game.py:163-166 | a toggle flips the chosen cell between 0 and 1, keeps the shape and the 0/1 property, and leaves every other cell alone |
| `Life.ToggleTwice` | game.py:163-166 | toggling the same cell twice restores the grid |
| `GameView.CheckStartButton` | game.py:273-275 | the source's strict pixel bounds; a hit lies in the button bar below the grid; exclusivity is in `ButtonsExclusive` |
| `GameView.CheckResetButton` | game.py:277-279 | the source's strict pixel bounds; a hit lies in the button bar below the grid |
| `GameView.CheckSlowerButton` | game.py:281-283 | the source's strict pixel bounds; a hit lies in the button bar below the grid |
| `GameView.CheckFasterButton` | game.py:285-287 | the source's strict pixel bounds; a hit lies in the button bar below the grid |
| `GameView.OnGrid` | game.py:156 | the grid-click guard `0 < my < height`; a click it admits is on a pixel row whose 20-pixel row of cells starts inside the grid |
| `GameView.SlowerPressed` | game.py:143-147 | a slower press never raises the speed; it either lowers it or sets the floor flag, and it never sets the ceiling flag |
| `GameView.FasterPressed` | game.py:150-154 | from a positive speed a faster press either raises it or sets the ceiling flag, and it never sets the floor flag |
| `GameView.ButtonsExclusive` | game.py:273-287 | the four button regions do not overlap and lie below the grid, so a click presses at most one button and never also edits a cell |
| `GameView.ClickedCell` | game.py:159-160 | a click on the grid maps to an in-bounds cell whose 20-pixel box contains the clicked pixel |
| `GameView.InitialSpeedOk` | game.py:94 | the initial speed 64 with both flags clear satisfies the speed invariant |
| `GameView.PowerOfTwoValues` | game.py:142-154 | the speeds the invariant admits are exactly 8, 16, 32, 64, 128, 256, 512 and 1024 |
| `GameView.SlowerKeepsSpeedOk` | game.py:142-147 | a slower press keeps the speed invariant |
| `GameView.FasterKeepsSpeedOk` | game.py:149-154 | a faster press keeps the speed invariant, although its guard is 600 |
| `GameView.PressedKeepsSpeedOk` | game.py:142-154 | any sequence of slower and faster presses from a valid speed, in particular from 64, ends at a valid speed |
| `GameView.SlowerUndoesFaster` | game.py:142-154 | one slower press undoes a successful faster press and leaves both flags clear |
| `GameView.FasterUndoesSlower` | game.py:142-154 | one faster press undoes a successful slower press and leaves both flags clear |
| `GameView.FasterPassesSixHundred` | game.py:149-154 | 512 doubles to 1024; at 1024 a faster press only sets the ceiling flag |
| `GameView.View.constructor` | game.py:85-109 | a new window over an empty board (30 x 40 by default) has speed 64, both flags clear, editing mode, and derives its pixel size from the board |
| `GameView.View.FromConfiguration` | game.py:89-94 | a window over a loaded rectangular 0/1 grid takes its dimensions from the grid, starts in editing mode at speed 64 |
| `GameView.View.Reset` | game.py:137-140 | resetting empties every cell in place, keeps the dimensions and touches no other field |
| `GameView.View.Slower` | game.py:142-147 | the slower button changes only the speed fields, as `SlowerPressed` says, and keeps the invariant |
| `GameView.View.Faster` | game.py:149-154 | the faster button changes only the speed fields, as `FasterPressed` says, and keeps the invariant |
| `GameView.View.ToggleCell` | game.py:156-166 | a grid click flips exactly the cell under the mouse and changes nothing else |
| `GameView.View.ClickWhileEditing` | game.py:133-166 | an editing click sets running on the start button, resets on the reset button, changes the speed on a speed button, or toggles the cell under the mouse; nothing else changes |
| `GameView.View.RunningPass` | game.py:213-243 | a running pass reads only the start button, which pauses, and then replaces the grid with exactly one generation; speed and flags are untouched |

## Left out

- Drawing: lines, rectangles, labels, colours, fonts and `display.flip` (game.py:99-120, 168-210, 225-269, 293-299). They are presentation through a foreign graphics library.
- `colorFlag`, which alternates the colour of live cells between passes. It only affects drawing.
- Event polling, `pygame.mouse.get_pos`, the QUIT event, the `done` flag and `pygame.quit`. These are input and process exit. A mouse click is a method call with integer coordinates. The editing and running loops of `View.start` are the entry points `ClickWhileEditing` and `RunningPass`, which a host calls in the order the loops would.
- Several clicks in one editing batch all use the mouse position read before that batch. The model handles one click per call, and a host repeats the call with the same position.
- `clock.tick(frame_speed)`: pacing in real time is the host's job. `frameSpeed` is kept only as a number.
- Reading the configuration file and parsing it with `int` (game.py:90-92). This is file input and Python number parsing. The model takes the parsed grid as a precondition: non-empty, rectangular, 0/1. The source does not validate row lengths.
- The debug output to standard error (game.py:157, 162).
- Aliasing of the list of rows: the grid is a value, so the in-place writes of reset and toggle become reassignments of `state`. No other holder of the old lists exists in the source.
