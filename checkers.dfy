/** Vocabulary shared by the evaluation function and the improved player:
    colours, pieces, the board as a map from (row, column) to a piece marker,
    game states, extended-real scores, and piece counts over a board. */
module Checkers {

  datatype Color = Red | Black

  /** OPPONENT_COLOR */
  function Opponent(c: Color): (o: Color)
    ensures o != c
  {
    if c == Red then Black else Red
  }

  /** A board marker: EM, or a pawn or king of one colour (RP, RK, BP, BK). */
  datatype Piece = Empty | Pawn(color: Color) | King(color: Color)
  {
    /** The marker is one of MY_COLORS[c], i.e. c's pawn or c's king. */
    predicate IsOf(c: Color) {
      !Empty? && color == c
    }
  }

  type Square = (int, int)
  type Board = map<Square, Piece>

  /** The parts of a game state the core reads. The moves are produced by the
      game-state collaborator and are opaque tokens here. */
  datatype GameState<M> = GameState(board: Board, currPlayer: Color, turnsSinceLastJump: int, moves: seq<M>)

  /** A score: a real number or one of the two INFINITY sentinels. */
  datatype Score = NegInf | Fin(value: real) | PosInf

  datatype Option<T> = None | Some(value: T)

  /** The squares that hold exactly the marker p. */
  function Occupied(board: Board, p: Piece): (s: set<Square>)
    ensures forall sq :: sq in s <==> sq in board && board[sq] == p
  {
    set sq | sq in board && board[sq] == p
  }

  /** How many squares hold the marker p (piece_counts[p] after the counting loop). */
  function Count(board: Board, p: Piece): nat
  {
    |Occupied(board, p)|
  }

  /** The squares that hold a piece of colour c. */
  function PiecesOf(board: Board, c: Color): (s: set<Square>)
    ensures forall sq :: sq in s <==> sq in board && board[sq].IsOf(c)
  {
    set sq | sq in board && board[sq].IsOf(c)
  }

  predicate HasPieces(board: Board, c: Color)
  {
    exists sq :: sq in board && board[sq].IsOf(c)
  }

  /** The pieces of a colour are its pawns and its kings, with no square in both. */
  lemma PiecesOfSplits(board: Board, c: Color)
    ensures |PiecesOf(board, c)| == Count(board, Pawn(c)) + Count(board, King(c))
  {
    var pawns, kings := Occupied(board, Pawn(c)), Occupied(board, King(c));
    assert PiecesOf(board, c) == pawns + kings;
    assert pawns !! kings;
  }

  /** A colour has no pawn and no king exactly when it has no piece at all. */
  lemma NoPiecesIffZeroCounts(board: Board, c: Color)
    ensures Count(board, Pawn(c)) + Count(board, King(c)) == 0 <==> !HasPieces(board, c)
  {
    PiecesOfSplits(board, c);
    if HasPieces(board, c) {
      var sq :| sq in board && board[sq].IsOf(c);
      assert sq in PiecesOf(board, c);
    } else {
      assert PiecesOf(board, c) == {};
    }
  }
}
