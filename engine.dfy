/** The game engine as a state machine on values: one move of the current
    player into a column, as the game's click handler performs it once the
    page is taken away. The class in game.dfy is proved to follow it. */
module Engine {
  import opened Board
  import opened WinDetection

  /** A player; only `number`, the marker put in the cells, matters to
      the engine. */
  datatype Player = Player(name: string, color: string, number: int)

  /** The two players as the new-game form builds them: numbers 1 and 2,
      the first moves first. */
  predicate ValidPlayers(players: seq<Player>) {
    |players| == 2 && players[0].number == 1 && players[1].number == 2
  }

  /** What a move request comes to: over before it started (the page no
      longer listens for clicks), a full column (ignored), a win for the
      mover, a tie, or the other player's turn. */
  datatype Outcome = AlreadyOver | ColumnFull | Won(winner: Player) | Tie | Continue(next: Player)

  datatype GameState = GameState(
    height: nat,
    width: nat,
    players: seq<Player>,
    board: Grid,
    currPlayer: Player,
    ended: bool)

  /** The shape every state has: a `height` by `width` board and two players. */
  predicate Shaped(s: GameState) {
    IsRect(s.board, s.height, s.width) && |s.players| == 2
  }

  /** The cells hold nothing but EMPTY and the players' numbers. */
  ghost predicate CellsHeldByPlayers(s: GameState)
    requires Shaped(s)
  {
    forall y, x :: 0 <= y < s.height && 0 <= x < s.width ==>
      s.board[y][x] == EMPTY || s.board[y][x] == s.players[0].number || s.board[y][x] == s.players[1].number
  }

  /** What holds of every state a game reaches: the current player is one
      of the two, pieces obey gravity, and while the game goes on nobody
      has four in a row. */
  ghost predicate Invariant(s: GameState) {
    Shaped(s) && ValidPlayers(s.players) &&
    (s.currPlayer == s.players[0] || s.currPlayer == s.players[1]) &&
    CellsHeldByPlayers(s) &&
    Gravity(s.board, s.height, s.width) &&
    (!s.ended ==> !HasWin(s.board, s.height, s.width, s.players[0].number) &&
                  !HasWin(s.board, s.height, s.width, s.players[1].number))
  }

  /** A new game: empty board, the first player to move, not ended. */
  function NewGame(height: nat, width: nat, players: seq<Player>): (s: GameState)
    requires ValidPlayers(players)
  {
    GameState(height, width, players, EmptyGrid(height, width), players[0], false)
  }

  lemma NewGameInvariant(height: nat, width: nat, players: seq<Player>)
    requires ValidPlayers(players)
    ensures Invariant(NewGame(height, width, players))
  {
    EmptyHasNoWin(height, width, players[0].number);
    EmptyHasNoWin(height, width, players[1].number);
  }

  /** The player who moves after the current one. */
  function NextPlayer(s: GameState): Player
    requires |s.players| == 2
  {
    if s.currPlayer.number == 1 then s.players[1] else s.players[0]
  }

  /** One move of the current player into column `x`. */
  ghost function Move(s: GameState, x: nat): (r: (GameState, Outcome))
    requires Shaped(s) && x < s.width
    ensures Shaped(r.0)
    ensures r.0.height == s.height && r.0.width == s.width && r.0.players == s.players
  {
    if s.ended then (s, AlreadyOver)
    else match LandingRow(s.board, s.height, s.width, x)
      case None => (s, ColumnFull)
      case Some(y) => Settle(s, Place(s.board, y, x, s.currPlayer.number))
  }

  /** What follows once the mover's piece is on board `b`: a win is
      tested first, then a tie, and only otherwise does the turn pass. */
  ghost function Settle(s: GameState, b: Grid): (r: (GameState, Outcome))
    requires Shaped(s) && IsRect(b, s.height, s.width)
    ensures Shaped(r.0)
    ensures r.0.height == s.height && r.0.width == s.width && r.0.players == s.players
  {
    if HasWin(b, s.height, s.width, s.currPlayer.number) then
      (s.(board := b, ended := true), Won(s.currPlayer))
    else if IsFull(b, s.height, s.width) then
      (s.(board := b, ended := true), Tie)
    else
      var next := NextPlayer(s);
      (s.(board := b, currPlayer := next), Continue(next))
  }

  /** A move changes the state exactly when the game is still on and the
      column has room; a rejected move reports why. */
  lemma RejectedMove(s: GameState, x: nat)
    requires Invariant(s) && x < s.width
    ensures Move(s, x).0 == s <==> s.ended || LandingRow(s.board, s.height, s.width, x).None?
    ensures s.ended ==> Move(s, x).1 == AlreadyOver
    ensures !s.ended && LandingRow(s.board, s.height, s.width, x).None? ==> Move(s, x).1 == ColumnFull
  {
    if !s.ended && LandingRow(s.board, s.height, s.width, x).Some? {
      var y := LandingRow(s.board, s.height, s.width, x).value;
      assert Move(s, x).0.board[y][x] != s.board[y][x];
    }
  }

  /** An accepted move puts the mover's number into the landing cell of
      the column, which was empty, and changes no other cell. */
  lemma AcceptedMoveChangesOneCell(s: GameState, x: nat)
    requires Invariant(s) && x < s.width && !s.ended
    requires LandingRow(s.board, s.height, s.width, x).Some?
    ensures var y := LandingRow(s.board, s.height, s.width, x).value;
            var b := Move(s, x).0.board;
            !Occupied(s.board[y][x]) && b[y][x] == s.currPlayer.number && Occupied(b[y][x]) &&
            forall i, j :: 0 <= i < s.height && 0 <= j < s.width && (i != y || j != x) ==> b[i][j] == s.board[i][j]
  {
  }

  /** After an accepted move exactly one thing happens: the mover wins,
      the game is tied, or the turn passes to the other player. A win is
      reported even when the board is also full, a tie only when there is
      no win and every cell is taken, and the turn never passes on a move
      that ends the game. */
  lemma AcceptedMoveOutcome(s: GameState, x: nat)
    requires Invariant(s) && x < s.width && !s.ended
    requires LandingRow(s.board, s.height, s.width, x).Some?
    ensures var (t, o) := Move(s, x);
            var p := s.currPlayer.number;
            (o.Won? || o.Tie? || o.Continue?) &&
            (o.Won? <==> HasWin(t.board, t.height, t.width, p)) &&
            (o.Won? ==> o.winner == s.currPlayer) &&
            (o.Tie? <==> !HasWin(t.board, t.height, t.width, p) && IsFull(t.board, t.height, t.width)) &&
            (t.ended <==> !o.Continue?) &&
            (!o.Continue? ==> t.currPlayer == s.currPlayer) &&
            (o.Continue? ==> t.currPlayer == o.next && t.currPlayer != s.currPlayer &&
                             (t.currPlayer == s.players[0] || t.currPlayer == s.players[1]))
  {
  }

  /** Every move keeps the invariant. */
  lemma MovePreservesInvariant(s: GameState, x: nat)
    requires Invariant(s) && x < s.width
    ensures Invariant(Move(s, x).0)
  {
    if !s.ended && LandingRow(s.board, s.height, s.width, x).Some? {
      var h, w := s.height, s.width;
      var y := LandingRow(s.board, h, w, x).value;
      var p := s.currPlayer.number;
      var b := Place(s.board, y, x, p);
      var t := Move(s, x).0;
      assert t.board == b;
      PlaceKeepsGravity(s.board, h, w, x, p);
      var q := if p == 1 then 2 else 1;
      PlaceKeepsOtherWins(s.board, h, w, y, x, p, q);
      forall i, j | 0 <= i < h && 0 <= j < w
        ensures b[i][j] == EMPTY || b[i][j] == s.players[0].number || b[i][j] == s.players[1].number
      {
        if i != y || j != x {
          assert b[i][j] == s.board[i][j];
        }
      }
      assert CellsHeldByPlayers(t);
    }
  }

  /** A sequence of moves, one column after another. */
  ghost function Play(s: GameState, xs: seq<nat>): (t: GameState)
    requires Shaped(s) && forall i :: 0 <= i < |xs| ==> xs[i] < s.width
    ensures Shaped(t) && t.height == s.height && t.width == s.width && t.players == s.players
    decreases |xs|
  {
    if xs == [] then s else Play(Move(s, xs[0]).0, xs[1..])
  }

  /** Once the game has ended no further move changes anything. */
  lemma {:induction false} PlayAfterEnd(s: GameState, xs: seq<nat>)
    requires Shaped(s) && s.ended && forall i :: 0 <= i < |xs| ==> xs[i] < s.width
    ensures Play(s, xs) == s
    decreases |xs|
  {
    if xs != [] {
      PlayAfterEnd(s, xs[1..]);
    }
  }

  /** Every state reached from a valid one by moves is valid. */
  lemma {:induction false} PlayPreservesInvariant(s: GameState, xs: seq<nat>)
    requires Invariant(s) && forall i :: 0 <= i < |xs| ==> xs[i] < s.width
    ensures Invariant(Play(s, xs))
    decreases |xs|
  {
    if xs != [] {
      MovePreservesInvariant(s, xs[0]);
      PlayPreservesInvariant(Move(s, xs[0]).0, xs[1..]);
    }
  }

  /** Pieces never move or vanish: a taken cell keeps its value through
      any sequence of moves. */
  lemma {:induction false} PlayKeepsPieces(s: GameState, xs: seq<nat>, y: nat, x: nat)
    requires Shaped(s) && forall i :: 0 <= i < |xs| ==> xs[i] < s.width
    requires y < s.height && x < s.width && Occupied(s.board[y][x])
    ensures Play(s, xs).board[y][x] == s.board[y][x]
    decreases |xs|
  {
    if xs != [] {
      var t := Move(s, xs[0]).0;
      assert t.board[y][x] == s.board[y][x];
      PlayKeepsPieces(t, xs[1..], y, x);
    }
  }
}
