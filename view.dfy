// The session logic of the Life window with the drawing taken out: the start
// and pause button, reset, the speed buttons, editing cells by clicking, and
// one generation per pass of the running loop.

module GameView {
  import opened Life

  /** Side of one cell on screen, in pixels. */
  const BOX_SIZE := 20
  /** Height of the button bar under the grid, in pixels. */
  const MENU_BAR_SIZE := 50

  // ---------------------------------------------------------------------------
  // Hit tests. `height` is the pixel height of the grid; (mx, my) is the mouse.

  predicate CheckStartButton(height: int, mx: int, my: int): (hit: bool)
    ensures hit ==> height < my < height + MENU_BAR_SIZE
  {
    height + 2 < my < height + 22 && 10 < mx < 60
  }

  predicate CheckResetButton(height: int, mx: int, my: int): (hit: bool)
    ensures hit ==> height < my < height + MENU_BAR_SIZE
  {
    height + 2 < my < height + 22 && 100 < mx < 150
  }

  predicate CheckSlowerButton(height: int, mx: int, my: int): (hit: bool)
    ensures hit ==> height < my < height + MENU_BAR_SIZE
  {
    height + 25 < my < height + 45 && 10 < mx < 60
  }

  predicate CheckFasterButton(height: int, mx: int, my: int): (hit: bool)
    ensures hit ==> height < my < height + MENU_BAR_SIZE
  {
    height + 25 < my < height + 45 && 100 < mx < 150
  }

  /** The row test that makes a click edit a cell (pixel row 0 is excluded). */
  predicate OnGrid(height: int, my: int): (on: bool)
    ensures on ==> 0 <= my / BOX_SIZE && my / BOX_SIZE * BOX_SIZE < height
  {
    0 < my < height
  }

  /** How many of the four buttons a click lands on. */
  function ButtonsHit(height: int, mx: int, my: int): nat {
    (if CheckStartButton(height, mx, my) then 1 else 0)
    + (if CheckResetButton(height, mx, my) then 1 else 0)
    + (if CheckSlowerButton(height, mx, my) then 1 else 0)
    + (if CheckFasterButton(height, mx, my) then 1 else 0)
  }

  /** The four buttons do not overlap and lie below the grid, so a click
      presses at most one button and never also edits a cell. */
  lemma ButtonsExclusive(height: int, mx: int, my: int)
    ensures ButtonsHit(height, mx, my) <= 1
    ensures ButtonsHit(height, mx, my) == 1 ==> my > height && !OnGrid(height, my)
  {
  }

  /** The cell under a click on the grid: the one whose box holds the pixel. */
  function ClickedCell(rows: nat, columns: nat, mx: int, my: int): (cell: (nat, nat))
    requires 0 <= mx < columns * BOX_SIZE && 0 < my < rows * BOX_SIZE
    ensures cell.0 < rows && cell.1 < columns
    ensures cell.0 * BOX_SIZE <= my < cell.0 * BOX_SIZE + BOX_SIZE
    ensures cell.1 * BOX_SIZE <= mx < cell.1 * BOX_SIZE + BOX_SIZE
  {
    (my / BOX_SIZE, mx / BOX_SIZE)
  }

  // ---------------------------------------------------------------------------
  // Playback speed.

  /** The frame rate and the two "cannot go further" flags shown on the buttons. */
  datatype Speed = Speed(frameSpeed: int, cannotSlower: bool, cannotFaster: bool)

  /** The speed of a new window. */
  const INITIAL_SPEED := Speed(64, false, false)

  function Pow2(k: nat): nat {
    if k == 0 then 1 else 2 * Pow2(k - 1)
  }

  /** 8, 16, ..., 1024. */
  ghost predicate PowerOfTwoInRange(f: int) {
    exists k: nat :: 3 <= k <= 10 && f == Pow2(k)
  }

  /** What holds of every speed a window reaches: a power of two from 8 to 1024,
      and a flag is set only while the speed sits at the matching end. */
  ghost predicate SpeedOk(s: Speed) {
    PowerOfTwoInRange(s.frameSpeed)
    && (s.cannotSlower ==> s.frameSpeed == 8)
    && (s.cannotFaster ==> s.frameSpeed == 1024)
  }

  /** The slower button: halve above 8, otherwise flag the floor. */
  function SlowerPressed(s: Speed): (t: Speed)
    ensures t.frameSpeed <= s.frameSpeed
    ensures t.frameSpeed < s.frameSpeed || t.cannotSlower
    ensures t.cannotFaster ==> s.cannotFaster
  {
    if s.frameSpeed > 8 then s.(frameSpeed := s.frameSpeed / 2, cannotFaster := false)
    else s.(cannotSlower := true)
  }

  /** The faster button: double below 600, otherwise flag the ceiling. */
  function FasterPressed(s: Speed): (t: Speed)
    ensures s.frameSpeed > 0 ==> t.frameSpeed > s.frameSpeed || t.cannotFaster
    ensures t.cannotSlower ==> s.cannotSlower
  {
    if s.frameSpeed < 600 then s.(frameSpeed := s.frameSpeed * 2, cannotSlower := false)
    else s.(cannotFaster := true)
  }

  /** The speed after a sequence of presses, `true` for faster, `false` for slower. */
  function Pressed(s: Speed, presses: seq<bool>): Speed
    decreases |presses|
  {
    if presses == [] then s
    else Pressed(if presses[0] then FasterPressed(s) else SlowerPressed(s), presses[1..])
  }

  lemma InitialSpeedOk()
    ensures SpeedOk(INITIAL_SPEED)
  {
    assert Pow2(6) == 64;
  }

  /** The speeds allowed by SpeedOk are exactly the eight powers of two from 8 to 1024. */
  lemma PowerOfTwoValues(f: int)
    ensures PowerOfTwoInRange(f) <==> f in {8, 16, 32, 64, 128, 256, 512, 1024}
  {
    assert Pow2(3) == 8 && Pow2(4) == 16 && Pow2(5) == 32 && Pow2(6) == 64;
    assert Pow2(7) == 128 && Pow2(8) == 256 && Pow2(9) == 512 && Pow2(10) == 1024;
    if PowerOfTwoInRange(f) {
      var k: nat :| 3 <= k <= 10 && f == Pow2(k);
      assert k in {3, 4, 5, 6, 7, 8, 9, 10};
    }
  }

  lemma SlowerKeepsSpeedOk(s: Speed)
    requires SpeedOk(s)
    ensures SpeedOk(SlowerPressed(s))
  {
    var k: nat :| 3 <= k <= 10 && s.frameSpeed == Pow2(k);
    PowerOfTwoValues(s.frameSpeed);
    if s.frameSpeed > 8 {
      assert k > 3;
      assert SlowerPressed(s).frameSpeed == Pow2(k - 1);
    }
  }

  lemma FasterKeepsSpeedOk(s: Speed)
    requires SpeedOk(s)
    ensures SpeedOk(FasterPressed(s))
  {
    var k: nat :| 3 <= k <= 10 && s.frameSpeed == Pow2(k);
    PowerOfTwoValues(s.frameSpeed);
    if s.frameSpeed < 600 {
      assert Pow2(10) == 1024;
      assert FasterPressed(s).frameSpeed == Pow2(k + 1);
    }
  }

  /** From a valid speed, any sequence of presses yields a valid speed; in
      particular every speed reached from INITIAL_SPEED is a power of two in [8, 1024]. */
  lemma {:induction false} PressedKeepsSpeedOk(s: Speed, presses: seq<bool>)
    requires SpeedOk(s)
    ensures SpeedOk(Pressed(s, presses))
    decreases |presses|
  {
    if presses != [] {
      var t := if presses[0] then FasterPressed(s) else SlowerPressed(s);
      if presses[0] { FasterKeepsSpeedOk(s); } else { SlowerKeepsSpeedOk(s); }
      PressedKeepsSpeedOk(t, presses[1..]);
    }
  }

  /** A successful faster press is undone by one slower press (both flags end clear). */
  lemma SlowerUndoesFaster(s: Speed)
    requires SpeedOk(s) && s.frameSpeed < 600
    ensures SlowerPressed(FasterPressed(s)) == Speed(s.frameSpeed, false, false)
  {
    PowerOfTwoValues(s.frameSpeed);
  }

  /** A successful slower press is undone by one faster press (both flags end clear). */
  lemma FasterUndoesSlower(s: Speed)
    requires SpeedOk(s) && s.frameSpeed > 8
    ensures FasterPressed(SlowerPressed(s)) == Speed(s.frameSpeed, false, false)
  {
    PowerOfTwoValues(s.frameSpeed);
  }

  /** The guard is "< 600", not a cap: 512 doubles to 1024, where the next press
      only raises the flag. */
  lemma FasterPassesSixHundred()
    ensures FasterPressed(Speed(512, false, false)) == Speed(1024, false, false)
    ensures FasterPressed(Speed(1024, false, false)) == Speed(1024, false, true)
  {
  }

  // ---------------------------------------------------------------------------
  // The window's state and the event handling of its two loops.

  /** The non-drawing state of the Life window. */
  class View {
    /** The engine for this board's dimensions. */
    const game: Model
    /** Pixel size of the grid area. */
    const height: int
    const width: int

    /** The cells, row by row. */
    var state: seq<seq<int>>
    var frameSpeed: int
    /** Set while the simulation runs; clear while the user edits. */
    var gameStartFlag: bool
    var cannotSlower: bool
    var cannotFaster: bool

    ghost function SpeedOf(): Speed
      reads this
    {
      Speed(frameSpeed, cannotSlower, cannotFaster)
    }

    ghost predicate Valid()
      reads this
    {
      height == game.rows * BOX_SIZE && width == game.columns * BOX_SIZE
      && IsGrid(state, game.rows, game.columns) && Binary(state)
      && SpeedOk(SpeedOf())
    }

    /** A window over an empty board, 30 by 40 unless told otherwise. */
    constructor (rows: nat := 30, columns: nat := 40)
      ensures Valid() && game.rows == rows && game.columns == columns
      ensures state == Blank(rows, columns)
      ensures SpeedOf() == INITIAL_SPEED && !gameStartFlag
    {
      game := new Model(rows, columns);
      height, width := rows * BOX_SIZE, columns * BOX_SIZE;
      state := Blank(rows, columns);
      frameSpeed := 64;
      gameStartFlag, cannotSlower, cannotFaster := false, false, false;
      new;
      InitialSpeedOk();
    }

    /** A window over a loaded configuration; its dimensions come from the grid. */
    constructor FromConfiguration(grid: seq<seq<int>>)
      requires |grid| > 0 && IsGrid(grid, |grid|, |grid[0]|) && Binary(grid)
      ensures Valid() && game.rows == |grid| && game.columns == |grid[0]|
      ensures state == grid
      ensures SpeedOf() == INITIAL_SPEED && !gameStartFlag
    {
      game := new Model(|grid|, |grid[0]|);
      height, width := |grid| * BOX_SIZE, |grid[0]| * BOX_SIZE;
      state := grid;
      frameSpeed := 64;
      gameStartFlag, cannotSlower, cannotFaster := false, false, false;
      new;
      InitialSpeedOk();
    }

    /** The reset button: every cell becomes 0, in place. */
    method Reset()
      requires Valid()
      modifies this`state
      ensures Valid() && state == Blank(game.rows, game.columns)
    {
      for x := 0 to game.rows
        invariant Valid()
        invariant forall r, c :: 0 <= r < x && 0 <= c < game.columns ==> state[r][c] == 0
      {
        for y := 0 to game.columns
          invariant Valid()
          invariant forall r, c :: 0 <= r < x && 0 <= c < game.columns ==> state[r][c] == 0
          invariant forall c :: 0 <= c < y ==> state[x][c] == 0
        {
          state := state[x := state[x][y := 0]];
        }
      }
      BlankCellwise(state, game.rows, game.columns);
    }

    /** The slower button. */
    method Slower()
      requires Valid()
      modifies this`frameSpeed, this`cannotSlower, this`cannotFaster
      ensures Valid() && SpeedOf() == SlowerPressed(old(SpeedOf()))
    {
      SlowerKeepsSpeedOk(SpeedOf());
      if frameSpeed > 8 {
        frameSpeed := frameSpeed / 2;
        cannotFaster := false;
      } else {
        cannotSlower := true;
      }
    }

    /** The faster button. */
    method Faster()
      requires Valid()
      modifies this`frameSpeed, this`cannotSlower, this`cannotFaster
      ensures Valid() && SpeedOf() == FasterPressed(old(SpeedOf()))
    {
      FasterKeepsSpeedOk(SpeedOf());
      if frameSpeed < 600 {
        frameSpeed := frameSpeed * 2;
        cannotSlower := false;
      } else {
        cannotFaster := true;
      }
    }

    /** A click on the grid flips the cell under the mouse. */
    method ToggleCell(mx: int, my: int)
      requires Valid() && 0 <= mx < width && OnGrid(height, my)
      modifies this`state
      ensures Valid()
      ensures var cell := ClickedCell(game.rows, game.columns, mx, my);
        state == Toggled(old(state), cell.0, cell.1)
    {
      var x, y := my / BOX_SIZE, mx / BOX_SIZE;
      assert (x, y) == ClickedCell(game.rows, game.columns, mx, my);
      ToggledCells(state, game.rows, game.columns, x, y);
      if state[x][y] == 0 {
        state := state[x := state[x][y := 1]];
      } else {
        state := state[x := state[x][y := 0]];
      }
    }

    /** One mouse click handled by the editing loop, at a position inside the
        window. The handlers run in the source's order; at most one of them fires. */
    method ClickWhileEditing(mx: int, my: int)
      requires Valid()
      requires 0 <= mx < width && 0 <= my < height + MENU_BAR_SIZE
      modifies this
      ensures Valid()
      ensures gameStartFlag == (old(gameStartFlag) || CheckStartButton(height, mx, my))
      ensures state ==
        if CheckResetButton(height, mx, my) then Blank(game.rows, game.columns)
        else if OnGrid(height, my) then
          var cell := ClickedCell(game.rows, game.columns, mx, my);
          Toggled(old(state), cell.0, cell.1)
        else old(state)
      ensures SpeedOf() ==
        if CheckSlowerButton(height, mx, my) then SlowerPressed(old(SpeedOf()))
        else if CheckFasterButton(height, mx, my) then FasterPressed(old(SpeedOf()))
        else old(SpeedOf())
    {
      ButtonsExclusive(height, mx, my);
      if CheckStartButton(height, mx, my) {
        gameStartFlag := true;
      }
      if CheckResetButton(height, mx, my) {
        Reset();
      }
      if CheckSlowerButton(height, mx, my) {
        Slower();
      }
      if CheckFasterButton(height, mx, my) {
        Faster();
      }
      if OnGrid(height, my) {
        ToggleCell(mx, my);
      }
    }

    /** One pass of the running loop. `clicked` says whether a mouse button went
        down during the pass; every event of a pass is read against the same
        mouse position (mx, my), and a start-button click only clears the flag,
        so one click and several act alike. Only the start button is read; the
        generation step then happens whatever the click did. */
    method RunningPass(mx: int, my: int, clicked: bool)
      requires Valid() && gameStartFlag
      modifies this`state, this`gameStartFlag
      ensures Valid()
      ensures gameStartFlag == !(clicked && CheckStartButton(height, mx, my))
      ensures state == Step(old(state), game.rows, game.columns)
    {
      if clicked && CheckStartButton(height, mx, my) {
        gameStartFlag := false;
      }
      StepShape(state, game.rows, game.columns);
      state := game.UpdateState(state);
    }
  }

  // ---------------------------------------------------------------------------
  // Client sessions: what a caller can conclude from the contracts alone.

  /** Five faster clicks from 64 reach 1024 and flag the ceiling; one slower
      click then gives 512 and clears the flag. */
  method SpeedWalk() {
    var v := new View();
    var row := v.height + 35;
    v.ClickWhileEditing(120, row);
    v.ClickWhileEditing(120, row);
    v.ClickWhileEditing(120, row);
    v.ClickWhileEditing(120, row);
    assert v.frameSpeed == 1024 && !v.cannotFaster;
    v.ClickWhileEditing(120, row);
    assert v.frameSpeed == 1024 && v.cannotFaster;
    v.ClickWhileEditing(30, row);
    assert v.frameSpeed == 512 && !v.cannotFaster && !v.cannotSlower;
  }

  /** Editing a 5x5 board, starting, and pausing: a pause click in a running
      pass still lets that pass take its generation step. */
  method EditStartPause() {
    var v := new View(5, 5);
    v.ClickWhileEditing(45, 50);   // cell (2, 2)
    assert v.state == Toggled(Blank(5, 5), 2, 2);
    v.ClickWhileEditing(45, 50);
    ToggleTwice(Blank(5, 5), 5, 5, 2, 2);
    assert v.state == Blank(5, 5);
    v.ClickWhileEditing(30, v.height + 10);
    assert v.gameStartFlag;
    v.RunningPass(30, v.height + 10, true);
    StepBlank(5, 5);
    assert !v.gameStartFlag && v.state == Blank(5, 5);
  }
}
