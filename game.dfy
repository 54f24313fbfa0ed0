/** The `Game` object of connect4.js without its page: a board of
    `height` rows by `width` columns in a two-dimensional array, the player
    whose turn it is, and whether the game has ended. */
module Connect4 {
  import opened Board
  import opened WinDetection
  import opened Engine

  class Game {
    const height: nat
    const width: nat
    const players: seq<Player>
    var board: array2<int>
    var currPlayer: Player
    var ended: bool
    /** The contents of `board` as a value. */
    ghost var cells: Grid

    /** `board` has the game's dimensions and holds `cells`. */
    ghost predicate Coupled()
      reads this`board, this`cells, board
    {
      board.Length0 == height && board.Length1 == width && IsRect(cells, height, width) &&
      forall y, x :: 0 <= y < height && 0 <= x < width ==> cells[y][x] == board[y, x]
    }

    /** A copy of the board's contents. */
    function Snapshot(): (g: Grid)
      reads this`board, this`cells, board
      requires Coupled()
      ensures g == cells
    {
      var b := board;
      var g := seq(b.Length0, y requires 0 <= y < b.Length0 reads b =>
                 seq(b.Length1, x requires 0 <= x < b.Length1 reads b => b[y, x]));
      SameCells(g, cells, height, width);
      g
    }

    /** The whole game as a value of the engine's state machine. */
    ghost function State(): GameState
      reads this
    {
      GameState(height, width, players, cells, currPlayer, ended)
    }

    ghost predicate Valid()
      reads this, board
    {
      Coupled() && Invariant(State())
    }

    constructor (height: nat, width: nat, players: seq<Player>)
      requires ValidPlayers(players)
      ensures Valid() && fresh(board)
      ensures State() == NewGame(height, width, players)
    {
      this.height := height;
      this.width := width;
      this.players := players;
      currPlayer := players[0];
      ended := false;
      var empty := Game.MakeBoard(height, width);
      board := empty;
      cells := EmptyGrid(height, width);
      new;
      NewGameInvariant(height, width, players);
    }

    /** A fresh board of `height` rows of `width` empty cells. */
    static method MakeBoard(height: nat, width: nat) returns (board: array2<int>)
      ensures fresh(board) && board.Length0 == height && board.Length1 == width
      ensures forall y, x :: 0 <= y < height && 0 <= x < width ==> board[y, x] == EMPTY
    {
      board := new int[height, width];
      for y := 0 to height
        invariant forall i, j :: 0 <= i < y && 0 <= j < width ==> board[i, j] == EMPTY
      {
        for x := 0 to width
          invariant forall i, j :: 0 <= i < y && 0 <= j < width ==> board[i, j] == EMPTY
          invariant forall j :: 0 <= j < x ==> board[y, j] == EMPTY
        {
          board[y, x] := EMPTY;
        }
      }
    }

    /** The row a piece dropped into column `x` lands in, scanning from
        the bottom row up; None when the column is full. */
    method FindSpotForCol(x: nat) returns (spot: Option<nat>)
      requires Coupled() && x < width
      ensures spot == LandingRow(cells, height, width, x)
    {
      var y: int := height - 1;
      while y >= 0
        invariant -1 <= y < height
        invariant forall i :: y < i < height ==> Occupied(board[i, x])
      {
        if !Occupied(board[y, x]) {
          return Some(y);
        }
        y := y - 1;
      }
      return None;
    }

    /** Does some cell start four in a row for the current player? Every
        cell of the board is tried as an origin in every direction. */
    method CheckForWin() returns (won: bool)
      requires Coupled()
      ensures won == HasWin(cells, height, width, currPlayer.number)
    {
      var g := Snapshot();
      var p := currPlayer.number;
      for y := 0 to height
        invariant Scanned(g, height, width, p, y, 0)
      {
        for x := 0 to width
          invariant Scanned(g, height, width, p, y, x)
        {
          var horiz := Line(y, x, Horizontal);
          var vert := Line(y, x, Vertical);
          var diagDR := Line(y, x, DiagDownRight);
          var diagDL := Line(y, x, DiagDownLeft);
          if Win(g, height, width, horiz, p) || Win(g, height, width, vert, p) ||
             Win(g, height, width, diagDR, p) || Win(g, height, width, diagDL, p)
          {
            ghost var d := if Win(g, height, width, horiz, p) then Horizontal
                           else if Win(g, height, width, vert, p) then Vertical
                           else if Win(g, height, width, diagDR, p) then DiagDownRight
                           else DiagDownLeft;
            assert Win(g, height, width, Line(y, x, d), p);
            return true;
          }
          ScanStep(g, height, width, p, y, x);
        }
        ScanRow(g, height, width, p, y);
      }
      ScanDone(g, height, width, p);
      return false;
    }

    /** End the game: the page stops listening for moves. */
    method EndGame()
      modifies this`ended
      ensures ended
    {
      ended := true;
    }

    /** The current player drops a piece into column `x`. */
    method HandleClick(x: nat) returns (outcome: Outcome)
      requires Valid() && x < width
      modifies this, board
      ensures Valid() && board == old(board)
      ensures (State(), outcome) == Move(old(State()), x)
    {
      MovePreservesInvariant(State(), x);
      if ended {
        return AlreadyOver;
      }
      var spot := FindSpotForCol(x);
      if spot.None? {
        return ColumnFull;
      }
      outcome := Drop(spot.value, x);
    }

    /** The second half of a click: the mover's piece goes into cell
        (y, x), then a win ends the game, a full board ends it as a tie,
        and otherwise the turn passes. */
    method Drop(y: nat, x: nat) returns (outcome: Outcome)
      requires Coupled() && |players| == 2 && y < height && x < width
      modifies this, board
      ensures Coupled() && board == old(board)
      ensures (State(), outcome) ==
              Settle(old(State()), Place(old(cells), y, x, old(currPlayer).number))
    {
      board[y, x] := currPlayer.number;
      cells := Place(cells, y, x, currPlayer.number);
      var won := CheckForWin();
      if won {
        EndGame();
        return Won(currPlayer);
      }
      if IsFull(Snapshot(), height, width) {
        EndGame();
        return Tie;
      }
      currPlayer := if currPlayer.number == 1 then players[1] else players[0];
      outcome := Continue(currPlayer);
    }
  }

  /** No origin before (y, x) in row-major order starts a winning line. */
  ghost predicate Scanned(g: Grid, h: nat, w: nat, p: int, y: int, x: int)
    requires IsRect(g, h, w)
  {
    forall i, j, d :: 0 <= i < h && 0 <= j < w && (i < y || (i == y && j < x)) ==>
      !Win(g, h, w, Line(i, j, d), p)
  }

  lemma ScanStep(g: Grid, h: nat, w: nat, p: int, y: int, x: int)
    requires IsRect(g, h, w) && Scanned(g, h, w, p, y, x)
    requires !Win(g, h, w, Line(y, x, Horizontal), p) && !Win(g, h, w, Line(y, x, Vertical), p)
    requires !Win(g, h, w, Line(y, x, DiagDownRight), p) && !Win(g, h, w, Line(y, x, DiagDownLeft), p)
    ensures Scanned(g, h, w, p, y, x + 1)
  {
    NoWinFrom(g, h, w, p, y, x);
  }

  lemma ScanRow(g: Grid, h: nat, w: nat, p: int, y: int)
    requires IsRect(g, h, w) && Scanned(g, h, w, p, y, w)
    ensures Scanned(g, h, w, p, y + 1, 0)
  {
  }

  lemma ScanDone(g: Grid, h: nat, w: nat, p: int)
    requires IsRect(g, h, w) && Scanned(g, h, w, p, h, 0)
    ensures !HasWin(g, h, w, p)
  {
  }
}
