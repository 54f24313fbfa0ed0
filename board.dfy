/** The board of a Connect Four game as a value: `height` rows of `width`
    cells, row 0 at the top, pieces falling toward larger row indices.
    A cell holds EMPTY or the number of the player whose piece sits there. */
module Board {

  datatype Option<T> = None | Some(value: T)

  /** The empty cell (the game leaves such cells `undefined`). */
  const EMPTY: int := 0

  /** `g[y][x]` is the cell in row `y`, column `x`. */
  type Grid = seq<seq<int>>

  /** `g` has exactly `h` rows of `w` cells each. */
  predicate IsRect(g: Grid, h: nat, w: nat) {
    |g| == h && forall y :: 0 <= y < h ==> |g[y]| == w
  }

  predicate InBounds(h: nat, w: nat, y: int, x: int) {
    0 <= y < h && 0 <= x < w
  }

  /** A cell the game treats as taken: every value but the empty one is truthy. */
  predicate Occupied(c: int) {
    c != EMPTY
  }

  /** The board the game starts with. */
  function EmptyGrid(h: nat, w: nat): (g: Grid)
    ensures IsRect(g, h, w)
    ensures forall y, x :: InBounds(h, w, y, x) ==> g[y][x] == EMPTY
  {
    seq(h, _ => seq(w, _ => EMPTY))
  }

  /** The board with cell (y, x) set to `v` and nothing else changed. */
  function Place(g: Grid, y: nat, x: nat, v: int): (g': Grid)
    requires y < |g| && x < |g[y]|
    ensures |g'| == |g| && forall i :: 0 <= i < |g| ==> |g'[i]| == |g[i]|
    ensures g'[y][x] == v
    ensures forall i, j :: 0 <= i < |g| && 0 <= j < |g[i]| && (i != y || j != x) ==> g'[i][j] == g[i][j]
  {
    g[y := g[y][x := v]]
  }

  /** The tie test: every cell of the board is taken. */
  predicate IsFull(g: Grid, h: nat, w: nat)
    requires IsRect(g, h, w)
  {
    forall y, x :: 0 <= y < h && 0 <= x < w ==> Occupied(g[y][x])
  }

  /** Cell (y, x) rests on the bottom row or on a taken cell. */
  ghost predicate Supported(g: Grid, h: nat, w: nat, y: nat, x: nat)
    requires IsRect(g, h, w) && y < h && x < w
  {
    y + 1 < h ==> Occupied(g[y + 1][x])
  }

  /** No piece floats: a taken cell has a taken cell below it. */
  ghost predicate Gravity(g: Grid, h: nat, w: nat)
    requires IsRect(g, h, w)
  {
    forall y: nat, x: nat :: y < h && x < w && Occupied(g[y][x]) ==> Supported(g, h, w, y, x)
  }

  /** The row a piece dropped into column `x` comes to rest in: the
      lowest (largest-index) empty cell of the column, None when the
      column is full. */
  function LandingRow(g: Grid, h: nat, w: nat, x: nat): (r: Option<nat>)
    requires IsRect(g, h, w) && x < w
    ensures r.Some? ==> r.value < h && !Occupied(g[r.value][x])
    ensures r.Some? ==> forall y :: r.value < y < h ==> Occupied(g[y][x])
    ensures r.None? <==> forall y :: 0 <= y < h ==> Occupied(g[y][x])
  {
    LandingFrom(g, h, w, x, h - 1)
  }

  /** The scan of LandingRow from row `y` upward. */
  function LandingFrom(g: Grid, h: nat, w: nat, x: nat, y: int): (r: Option<nat>)
    requires IsRect(g, h, w) && x < w && -1 <= y < h
    ensures r.Some? ==> r.value <= y && !Occupied(g[r.value][x])
    ensures r.Some? ==> forall y' :: r.value < y' <= y ==> Occupied(g[y'][x])
    ensures r.None? <==> forall y' :: 0 <= y' <= y ==> Occupied(g[y'][x])
    decreases y + 1
  {
    if y < 0 then None
    else if !Occupied(g[y][x]) then Some(y)
    else LandingFrom(g, h, w, x, y - 1)
  }

  /** Under gravity a taken cell has only taken cells below it. */
  lemma {:induction false} GravityBelow(g: Grid, h: nat, w: nat, x: nat, y1: nat, y2: nat)
    requires IsRect(g, h, w) && Gravity(g, h, w)
    requires x < w && y1 <= y2 < h && Occupied(g[y1][x])
    ensures Occupied(g[y2][x])
    decreases y2 - y1
  {
    if y1 < y2 {
      assert Supported(g, h, w, y1, x);
      GravityBelow(g, h, w, x, y1 + 1, y2);
    }
  }

  /** Under gravity the cells from the top of a column down to its landing
      row are all empty, and a column is full exactly when its top cell is
      taken. */
  lemma LandingRowUnderGravity(g: Grid, h: nat, w: nat, x: nat)
    requires IsRect(g, h, w) && Gravity(g, h, w) && x < w
    ensures LandingRow(g, h, w, x).Some? ==>
              forall y :: 0 <= y <= LandingRow(g, h, w, x).value ==> !Occupied(g[y][x])
    ensures h > 0 ==> (LandingRow(g, h, w, x).None? <==> Occupied(g[0][x]))
  {
    var r := LandingRow(g, h, w, x);
    if r.Some? {
      forall y | 0 <= y <= r.value ensures !Occupied(g[y][x]) {
        if Occupied(g[y][x]) {
          GravityBelow(g, h, w, x, y, r.value);
        }
      }
    }
    if h > 0 && Occupied(g[0][x]) {
      forall y | 0 <= y < h ensures Occupied(g[y][x]) {
        GravityBelow(g, h, w, x, 0, y);
      }
    }
  }

  /** Dropping a piece on the landing row keeps gravity. */
  lemma PlaceKeepsGravity(g: Grid, h: nat, w: nat, x: nat, v: int)
    requires IsRect(g, h, w) && Gravity(g, h, w) && x < w
    requires LandingRow(g, h, w, x).Some? && Occupied(v)
    ensures IsRect(Place(g, LandingRow(g, h, w, x).value, x, v), h, w)
    ensures Gravity(Place(g, LandingRow(g, h, w, x).value, x, v), h, w)
  {
    var y := LandingRow(g, h, w, x).value;
    var g' := Place(g, y, x, v);
    forall i: nat, j: nat | i < h && j < w && Occupied(g'[i][j])
      ensures Supported(g', h, w, i, j)
    {
      if i != y || j != x {
        assert g'[i][j] == g[i][j];
        assert Supported(g, h, w, i, j);
      }
    }
  }

  /** Two boards of the same shape with the same cells are equal. */
  lemma SameCells(a: Grid, b: Grid, h: nat, w: nat)
    requires IsRect(a, h, w) && IsRect(b, h, w)
    requires forall y, x :: 0 <= y < h && 0 <= x < w ==> a[y][x] == b[y][x]
    ensures a == b
  {
    forall y | 0 <= y < h ensures a[y] == b[y] {
      assert |a[y]| == |b[y]|;
    }
  }
}
