/** Win detection: four cells in a row, column or diagonal, all on the
    board and all held by one player. */
module WinDetection {
  import opened Board

  /** The four ways to win, seen from the first cell of the line:
      right, down, down-right and down-left. */
  datatype Direction = Horizontal | Vertical | DiagDownRight | DiagDownLeft

  /** A (row, column) pair; it may lie off the board. */
  type Cell = (int, int)

  /** The four cells starting at (y, x) in direction `d`. */
  function Line(y: int, x: int, d: Direction): (cells: seq<Cell>)
    ensures |cells| == 4 && cells[0] == (y, x)
  {
    match d
    case Horizontal => [(y, x), (y, x + 1), (y, x + 2), (y, x + 3)]
    case Vertical => [(y, x), (y + 1, x), (y + 2, x), (y + 3, x)]
    case DiagDownRight => [(y, x), (y + 1, x + 1), (y + 2, x + 2), (y + 3, x + 3)]
    case DiagDownLeft => [(y, x), (y + 1, x - 1), (y + 2, x - 2), (y + 3, x - 3)]
  }

  /** Cell `c` is on the board and holds `p`; the bounds are tested before
      the board is read. */
  predicate Owns(g: Grid, h: nat, w: nat, c: Cell, p: int)
    requires IsRect(g, h, w)
  {
    InBounds(h, w, c.0, c.1) && g[c.0][c.1] == p
  }

  /** Every cell of `cells` is on the board and holds `p`. */
  predicate Win(g: Grid, h: nat, w: nat, cells: seq<Cell>, p: int)
    requires IsRect(g, h, w)
  {
    forall i :: 0 <= i < |cells| ==> Owns(g, h, w, cells[i], p)
  }

  /** Some origin on the board starts a winning line for `p`. */
  ghost predicate HasWin(g: Grid, h: nat, w: nat, p: int)
    requires IsRect(g, h, w)
  {
    exists y: int, x: int, d: Direction :: 0 <= y < h && 0 <= x < w && Win(g, h, w, Line(y, x, d), p)
  }

  /** A line of four wins exactly when its four cells are owned: the
      four-cell reading of `_win`, kept only to document it. */
  lemma WinOfFour(g: Grid, h: nat, w: nat, cells: seq<Cell>, p: int)
    requires IsRect(g, h, w) && |cells| == 4
    ensures Win(g, h, w, cells, p) <==>
              Owns(g, h, w, cells[0], p) && Owns(g, h, w, cells[1], p) &&
              Owns(g, h, w, cells[2], p) && Owns(g, h, w, cells[3], p)
  {
  }

  /** An origin none of whose four lines wins starts no win at all. */
  lemma NoWinFrom(g: Grid, h: nat, w: nat, p: int, y: int, x: int)
    requires IsRect(g, h, w)
    requires !Win(g, h, w, Line(y, x, Horizontal), p) && !Win(g, h, w, Line(y, x, Vertical), p)
    requires !Win(g, h, w, Line(y, x, DiagDownRight), p) && !Win(g, h, w, Line(y, x, DiagDownLeft), p)
    ensures forall d :: !Win(g, h, w, Line(y, x, d), p)
  {
  }

  // ---------------------------------------------------------------------
  // An independent statement of the winning condition by step vectors.

  /** The step (dy, dx) of a direction. */
  function Delta(d: Direction): (int, int)
  {
    match d
    case Horizontal => (0, 1)
    case Vertical => (1, 0)
    case DiagDownRight => (1, 1)
    case DiagDownLeft => (1, -1)
  }

  predicate IsDelta(dy: int, dx: int) {
    (dy, dx) in {(0, 1), (1, 0), (1, 1), (1, -1)}
  }

  /** The k-th cell from (y, x) along (dy, dx) is on the board and holds `p`. */
  ghost predicate RunCell(g: Grid, h: nat, w: nat, p: int, y: int, x: int, dy: int, dx: int, k: int)
    requires IsRect(g, h, w)
  {
    InBounds(h, w, y + k * dy, x + k * dx) && g[y + k * dy][x + k * dx] == p
  }

  ghost predicate Run(g: Grid, h: nat, w: nat, p: int, y: int, x: int, dy: int, dx: int)
    requires IsRect(g, h, w)
  {
    forall k :: 0 <= k < 4 ==> RunCell(g, h, w, p, y, x, dy, dx, k)
  }

  lemma LineAt(y: int, x: int, d: Direction, k: int)
    requires 0 <= k < 4
    ensures Line(y, x, d)[k] == (y + k * Delta(d).0, x + k * Delta(d).1)
  {
  }

  /** A winning line gives a winning run along its step. */
  lemma WinGivesRun(g: Grid, h: nat, w: nat, p: int, y: int, x: int, d: Direction)
    requires IsRect(g, h, w) && Win(g, h, w, Line(y, x, d), p)
    ensures Run(g, h, w, p, y, x, Delta(d).0, Delta(d).1)
  {
    forall k | 0 <= k < 4 ensures RunCell(g, h, w, p, y, x, Delta(d).0, Delta(d).1, k) {
      LineAt(y, x, d, k);
      assert Owns(g, h, w, Line(y, x, d)[k], p);
    }
  }

  /** A winning run along the step of `d` is a winning line. */
  lemma RunGivesWin(g: Grid, h: nat, w: nat, p: int, y: int, x: int, d: Direction)
    requires IsRect(g, h, w) && Run(g, h, w, p, y, x, Delta(d).0, Delta(d).1)
    ensures Win(g, h, w, Line(y, x, d), p)
  {
    forall i | 0 <= i < 4 ensures Owns(g, h, w, Line(y, x, d)[i], p) {
      LineAt(y, x, d, i);
      assert RunCell(g, h, w, p, y, x, Delta(d).0, Delta(d).1, i);
    }
  }

  /** `p` has a win exactly when some origin (y, x) on the board and some
      step (dy, dx) among right, down, down-right and down-left give four
      cells (y + k*dy, x + k*dx), k = 0..3, all on the board and all held
      by `p`. */
  lemma WinCharacterisation(g: Grid, h: nat, w: nat, p: int)
    requires IsRect(g, h, w)
    ensures HasWin(g, h, w, p) <==>
              exists y, x, dy, dx :: IsDelta(dy, dx) && 0 <= y < h && 0 <= x < w && Run(g, h, w, p, y, x, dy, dx)
  {
    if HasWin(g, h, w, p) {
      var y: int, x: int, d: Direction :| 0 <= y < h && 0 <= x < w && Win(g, h, w, Line(y, x, d), p);
      WinGivesRun(g, h, w, p, y, x, d);
      assert IsDelta(Delta(d).0, Delta(d).1);
    }
    if exists y, x, dy, dx :: IsDelta(dy, dx) && 0 <= y < h && 0 <= x < w && Run(g, h, w, p, y, x, dy, dx) {
      var y, x, dy, dx :| IsDelta(dy, dx) && 0 <= y < h && 0 <= x < w && Run(g, h, w, p, y, x, dy, dx);
      var d := if dy == 0 then Horizontal
               else if dx == 0 then Vertical
               else if dx == 1 then DiagDownRight
               else DiagDownLeft;
      assert Delta(d) == (dy, dx);
      RunGivesWin(g, h, w, p, y, x, d);
    }
  }

  /** Where a winning line can start: the whole line has to fit on the
      board, so a down-left line starts at column 3 or further right. */
  lemma WinningOrigins(g: Grid, h: nat, w: nat, p: int, y: int, x: int, d: Direction)
    requires IsRect(g, h, w) && Win(g, h, w, Line(y, x, d), p)
    ensures 0 <= y < h && 0 <= x < w
    ensures d == Horizontal ==> x + 3 < w
    ensures d == Vertical ==> y + 3 < h
    ensures d == DiagDownRight ==> y + 3 < h && x + 3 < w
    ensures d == DiagDownLeft ==> y + 3 < h && 3 <= x
  {
    assert Owns(g, h, w, Line(y, x, d)[0], p);
    assert Owns(g, h, w, Line(y, x, d)[3], p);
  }

  /** No player has a win on the empty board. */
  lemma EmptyHasNoWin(h: nat, w: nat, p: int)
    requires p != EMPTY
    ensures !HasWin(EmptyGrid(h, w), h, w, p)
  {
    var g := EmptyGrid(h, w);
    forall y: int, x: int, d: Direction | 0 <= y < h && 0 <= x < w
      ensures !Win(g, h, w, Line(y, x, d), p)
    {
      assert !Owns(g, h, w, Line(y, x, d)[0], p);
    }
  }

  /** A piece of `p` cannot give another player `q` a win: any win of `q`
      after the placement was already there before it. */
  lemma PlaceKeepsOtherWins(g: Grid, h: nat, w: nat, y: nat, x: nat, p: int, q: int)
    requires IsRect(g, h, w) && y < h && x < w && p != q
    ensures IsRect(Place(g, y, x, p), h, w)
    ensures HasWin(Place(g, y, x, p), h, w, q) ==> HasWin(g, h, w, q)
  {
    var g' := Place(g, y, x, p);
    if HasWin(g', h, w, q) {
      var y0: int, x0: int, d: Direction :| 0 <= y0 < h && 0 <= x0 < w && Win(g', h, w, Line(y0, x0, d), q);
      forall i | 0 <= i < 4 ensures Owns(g, h, w, Line(y0, x0, d)[i], q) {
        assert Owns(g', h, w, Line(y0, x0, d)[i], q);
      }
      assert Win(g, h, w, Line(y0, x0, d), q);
    }
  }

  /** A win that a placement creates runs through the placed cell, so a
      search restricted to lines through the last move finds the same
      wins as the full rescan. */
  lemma NewWinUsesPlacedCell(g: Grid, h: nat, w: nat, y: nat, x: nat, p: int)
    requires IsRect(g, h, w) && y < h && x < w
    requires !HasWin(g, h, w, p)
    ensures IsRect(Place(g, y, x, p), h, w)
    ensures HasWin(Place(g, y, x, p), h, w, p) <==>
              exists y0: int, x0: int, d: Direction, i :: 0 <= y0 < h && 0 <= x0 < w && 0 <= i < 4 &&
                Line(y0, x0, d)[i] == (y, x) && Win(Place(g, y, x, p), h, w, Line(y0, x0, d), p)
  {
    var g' := Place(g, y, x, p);
    if HasWin(g', h, w, p) {
      var y0: int, x0: int, d: Direction :| 0 <= y0 < h && 0 <= x0 < w && Win(g', h, w, Line(y0, x0, d), p);
      var i := PlacedCellOnLine(g, h, w, y, x, p, y0, x0, d);
    }
  }

  /** A winning line after the placement that the board before did not
      have passes through the placed cell; `i` is its position on the line. */
  lemma PlacedCellOnLine(g: Grid, h: nat, w: nat, y: nat, x: nat, p: int, y0: int, x0: int, d: Direction)
      returns (i: nat)
    requires IsRect(g, h, w) && y < h && x < w
    requires !Win(g, h, w, Line(y0, x0, d), p)
    requires IsRect(Place(g, y, x, p), h, w) && Win(Place(g, y, x, p), h, w, Line(y0, x0, d), p)
    ensures i < 4 && Line(y0, x0, d)[i] == (y, x)
  {
    var g' := Place(g, y, x, p);
    var line := Line(y0, x0, d);
    i :| 0 <= i < 4 && !Owns(g, h, w, line[i], p);
    assert Owns(g', h, w, line[i], p);
  }

  // ---------------------------------------------------------------------
  // Symmetries of the winning condition.

  /** The board turned by 180 degrees. */
  function Rotate(g: Grid, h: nat, w: nat): (r: Grid)
    requires IsRect(g, h, w)
    ensures IsRect(r, h, w)
    ensures forall y, x :: InBounds(h, w, y, x) ==> r[y][x] == g[h - 1 - y][w - 1 - x]
  {
    seq(h, y requires 0 <= y < h => seq(w, x requires 0 <= x < w => g[h - 1 - y][w - 1 - x]))
  }

  /** The board reflected left to right. */
  function Mirror(g: Grid, h: nat, w: nat): (r: Grid)
    requires IsRect(g, h, w)
    ensures IsRect(r, h, w)
    ensures forall y, x :: InBounds(h, w, y, x) ==> r[y][x] == g[y][w - 1 - x]
  {
    seq(h, y requires 0 <= y < h => seq(w, x requires 0 <= x < w => g[y][w - 1 - x]))
  }

  lemma RotateTwice(g: Grid, h: nat, w: nat)
    requires IsRect(g, h, w)
    ensures Rotate(Rotate(g, h, w), h, w) == g
  {
    SameCells(Rotate(Rotate(g, h, w), h, w), g, h, w);
  }

  lemma MirrorTwice(g: Grid, h: nat, w: nat)
    requires IsRect(g, h, w)
    ensures Mirror(Mirror(g, h, w), h, w) == g
  {
    SameCells(Mirror(Mirror(g, h, w), h, w), g, h, w);
  }

  /** Where cell `c` goes when the board is turned by 180 degrees. */
  function RotateCell(h: nat, w: nat, c: Cell): Cell {
    (h - 1 - c.0, w - 1 - c.1)
  }

  /** Where cell `c` goes when the board is reflected left to right. */
  function MirrorCell(w: nat, c: Cell): Cell {
    (c.0, w - 1 - c.1)
  }

  /** The first cell, after turning, of the line that starts at (y, x)
      in direction `d`: the turned image of its last cell. */
  function RotateOrigin(h: nat, w: nat, y: int, x: int, d: Direction): Cell {
    RotateCell(h, w, Line(y, x, d)[3])
  }

  /** Reflection swaps the two diagonals. */
  function MirrorDirection(d: Direction): Direction {
    match d
    case Horizontal => Horizontal
    case Vertical => Vertical
    case DiagDownRight => DiagDownLeft
    case DiagDownLeft => DiagDownRight
  }

  /** The first cell, after reflecting, of the line that starts at (y, x)
      in direction `d`. */
  function MirrorOrigin(w: nat, y: int, x: int, d: Direction): Cell {
    if d == Horizontal then MirrorCell(w, Line(y, x, d)[3]) else MirrorCell(w, (y, x))
  }

  lemma RotatedLineAt(h: nat, w: nat, y: int, x: int, d: Direction, i: nat)
    requires i < 4
    ensures Line(RotateOrigin(h, w, y, x, d).0, RotateOrigin(h, w, y, x, d).1, d)[i]
            == RotateCell(h, w, Line(y, x, d)[3 - i])
  {
  }

  lemma MirroredLineAt(w: nat, y: int, x: int, d: Direction, i: nat)
    requires i < 4
    ensures Line(MirrorOrigin(w, y, x, d).0, MirrorOrigin(w, y, x, d).1, MirrorDirection(d))[i]
            == MirrorCell(w, Line(y, x, d)[if d == Horizontal then 3 - i else i])
  {
  }

  /** A winning line, turned, is a winning line of the same direction
      on the turned board, seen from its other end. */
  lemma RotateLine(g: Grid, h: nat, w: nat, p: int, y: int, x: int, d: Direction)
    requires IsRect(g, h, w) && Win(g, h, w, Line(y, x, d), p)
    ensures Win(Rotate(g, h, w), h, w, Line(RotateOrigin(h, w, y, x, d).0, RotateOrigin(h, w, y, x, d).1, d), p)
  {
    var r := Rotate(g, h, w);
    var o := RotateOrigin(h, w, y, x, d);
    forall i | 0 <= i < 4 ensures Owns(r, h, w, Line(o.0, o.1, d)[i], p) {
      RotatedLineAt(h, w, y, x, d, i);
      assert Owns(g, h, w, Line(y, x, d)[3 - i], p);
    }
  }

  lemma RotateWinOneWay(g: Grid, h: nat, w: nat, p: int)
    requires IsRect(g, h, w) && HasWin(g, h, w, p)
    ensures HasWin(Rotate(g, h, w), h, w, p)
  {
    var y: int, x: int, d: Direction :| 0 <= y < h && 0 <= x < w && Win(g, h, w, Line(y, x, d), p);
    var o := RotateOrigin(h, w, y, x, d);
    RotateLine(g, h, w, p, y, x, d);
    assert Owns(Rotate(g, h, w), h, w, Line(o.0, o.1, d)[0], p);
  }

  /** The turned board has the same winners. */
  lemma RotatePreservesWin(g: Grid, h: nat, w: nat, p: int)
    requires IsRect(g, h, w)
    ensures HasWin(Rotate(g, h, w), h, w, p) <==> HasWin(g, h, w, p)
  {
    if HasWin(g, h, w, p) {
      RotateWinOneWay(g, h, w, p);
    }
    if HasWin(Rotate(g, h, w), h, w, p) {
      RotateWinOneWay(Rotate(g, h, w), h, w, p);
      RotateTwice(g, h, w);
    }
  }

  /** Reflection keeps rows and columns and swaps the two diagonals: a
      winning line, reflected, is a winning line on the reflected board. */
  lemma MirrorLine(g: Grid, h: nat, w: nat, p: int, y: int, x: int, d: Direction)
    requires IsRect(g, h, w) && Win(g, h, w, Line(y, x, d), p)
    ensures Win(Mirror(g, h, w), h, w,
                Line(MirrorOrigin(w, y, x, d).0, MirrorOrigin(w, y, x, d).1, MirrorDirection(d)), p)
  {
    var r := Mirror(g, h, w);
    var o := MirrorOrigin(w, y, x, d);
    var d' := MirrorDirection(d);
    forall i | 0 <= i < 4 ensures Owns(r, h, w, Line(o.0, o.1, d')[i], p) {
      MirroredLineAt(w, y, x, d, i);
      assert Owns(g, h, w, Line(y, x, d)[if d == Horizontal then 3 - i else i], p);
    }
  }

  lemma MirrorWinOneWay(g: Grid, h: nat, w: nat, p: int)
    requires IsRect(g, h, w) && HasWin(g, h, w, p)
    ensures HasWin(Mirror(g, h, w), h, w, p)
  {
    var y: int, x: int, d: Direction :| 0 <= y < h && 0 <= x < w && Win(g, h, w, Line(y, x, d), p);
    var o := MirrorOrigin(w, y, x, d);
    MirrorLine(g, h, w, p, y, x, d);
    assert Owns(Mirror(g, h, w), h, w, Line(o.0, o.1, MirrorDirection(d))[0], p);
  }

  /** The reflected board has the same winners. */
  lemma MirrorPreservesWin(g: Grid, h: nat, w: nat, p: int)
    requires IsRect(g, h, w)
    ensures HasWin(Mirror(g, h, w), h, w, p) <==> HasWin(g, h, w, p)
  {
    if HasWin(g, h, w, p) {
      MirrorWinOneWay(g, h, w, p);
    }
    if HasWin(Mirror(g, h, w), h, w, p) {
      MirrorWinOneWay(Mirror(g, h, w), h, w, p);
      MirrorTwice(g, h, w);
    }
  }
}
