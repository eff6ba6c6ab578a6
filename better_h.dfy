/** The positional evaluation function of the "better heuristic" player: a
    strictly ordered decision chain (no legal moves, the no-jump draw, material
    exhaustion) ending in an additive blend of material, a back-row bonus, a
    side-column differential and a cohesion penalty. Every helper only reads the
    board, so each is a function; the loops of the original become set
    cardinalities. */
module BetterH {
  import opened Checkers

  const PawnWeight := 10
  const KingWeight := 15
  const SideWeight := 4
  const BackRowBonus := 5
  const ClosenessWeight := 5

  /** The constants this player reads from the rules module: the no-jump draw
      threshold MAX_TURNS_NO_JUMP and the row index BACK_ROW of each colour. */
  datatype Rules = Rules(maxTurnsNoJump: int, redBackRow: int, blackBackRow: int)
  {
    function BackRow(c: Color): int {
      if c == Red then redBackRow else blackBackRow
    }
  }

  // ---------------------------------------------------------------------------
  // score_from_back_row
  // ---------------------------------------------------------------------------

  /** The squares of the opponent's back row that hold one of player's pieces. */
  function BackRowPieces(board: Board, rules: Rules, player: Color): (s: set<Square>)
    ensures forall sq :: sq in s <==>
      sq in board && sq.0 == rules.BackRow(Opponent(player)) && board[sq].IsOf(player)
  {
    set sq | sq in board && sq.0 == rules.BackRow(Opponent(player)) && board[sq].IsOf(player)
  }

  /** BACK_ROW_BONUS per piece on the opponent's back row, and one bonus more
      when the running score equals four bonuses. */
  function ScoreFromBackRow(board: Board, rules: Rules, player: Color): (score: int)
    ensures score >= 0 && score % BackRowBonus == 0
    ensures var n := |BackRowPieces(board, rules, player)|;
      (n == 4 ==> score == BackRowBonus * 5) && (n != 4 ==> score == BackRowBonus * n)
  {
    var score := BackRowBonus * |BackRowPieces(board, rules, player)|;
    if score == BackRowBonus * 4 then score + BackRowBonus else score
  }

  /** Only squares on the opponent's back row can change the back-row score. */
  lemma BackRowIgnoresOtherRows(board: Board, rules: Rules, player: Color, sq: Square, p: Piece)
    requires sq.0 != rules.BackRow(Opponent(player))
    ensures ScoreFromBackRow(board[sq := p], rules, player) == ScoreFromBackRow(board, rules, player)
  {
    assert BackRowPieces(board[sq := p], rules, player) == BackRowPieces(board, rules, player);
  }

  // ---------------------------------------------------------------------------
  // pieces_on_sides
  // ---------------------------------------------------------------------------

  predicate OnSide(sq: Square) {
    sq.1 == 0 || sq.1 == 7
  }

  /** The squares in column 0 or 7 that hold a piece of colour c. */
  function SidePieces(board: Board, c: Color): (s: set<Square>)
    ensures forall sq :: sq in s <==> sq in board && OnSide(sq) && board[sq].IsOf(c)
  {
    set sq | sq in board && OnSide(sq) && board[sq].IsOf(c)
  }

  /** Own pieces on the two edge columns minus the opponent's pieces there. */
  function PiecesOnSides(board: Board, color: Color): (sides: int)
    ensures -|SidePieces(board, Opponent(color))| <= sides <= |SidePieces(board, color)|
  {
    |SidePieces(board, color)| - |SidePieces(board, Opponent(color))|
  }

  /** Seen from the other colour, the side differential changes sign. */
  lemma PiecesOnSidesAntisymmetric(board: Board, c: Color)
    ensures PiecesOnSides(board, Opponent(c)) == -PiecesOnSides(board, c)
  {
    assert Opponent(Opponent(c)) == c;
  }

  /** A square outside columns 0 and 7 never contributes, whatever it holds. */
  lemma PiecesOnSidesIgnoresInnerColumns(board: Board, c: Color, sq: Square, p: Piece)
    requires !OnSide(sq)
    ensures PiecesOnSides(board[sq := p], c) == PiecesOnSides(board, c)
  {
    assert SidePieces(board[sq := p], c) == SidePieces(board, c);
    assert SidePieces(board[sq := p], Opponent(c)) == SidePieces(board, Opponent(c));
  }

  // ---------------------------------------------------------------------------
  // group_distances (only its precondition) and material
  // ---------------------------------------------------------------------------

  /** group_distances divides by the number of red pieces and by the number of
      black pieces; both must be non-zero. */
  predicate GroupDistancesDefined(board: Board) {
    HasPieces(board, Red) && HasPieces(board, Black)
  }

  /** PAWN_WEIGHT per pawn plus KING_WEIGHT per king of colour c. */
  function Material(board: Board, c: Color): (u: nat)
    ensures u == 0 <==> !HasPieces(board, c)
  {
    NoPiecesIffZeroCounts(board, c);
    PawnWeight * Count(board, Pawn(c)) + KingWeight * Count(board, King(c))
  }

  // ---------------------------------------------------------------------------
  // utility
  // ---------------------------------------------------------------------------

  /** The state gets past the two terminal checks: a move exists and the
      no-jump counter is below the draw threshold. */
  predicate PastTerminalChecks<M>(state: GameState<M>, rules: Rules) {
    |state.moves| > 0 && state.turnsSinceLastJump < rules.maxTurnsNoJump
  }

  /** The blend computed once both sides still have material. */
  function Positional(board: Board, rules: Rules, me: Color, distance: real): real
  {
    (Material(board, me) - Material(board, Opponent(me))
      + ScoreFromBackRow(board, rules, me)
      + SideWeight * PiecesOnSides(board, me)) as real
    - ClosenessWeight as real * distance
  }

  /** Player.utility for the player of colour me. distance stands for what
      group_distances returns on the state's board. */
  function Utility<M>(state: GameState<M>, me: Color, rules: Rules, distance: real): (r: Score)
    ensures |state.moves| == 0 ==> r == (if state.currPlayer != me then PosInf else NegInf)
    ensures |state.moves| > 0 && state.turnsSinceLastJump >= rules.maxTurnsNoJump ==> r == Fin(0.0)
    ensures PastTerminalChecks(state, rules) ==> (r == NegInf <==> !HasPieces(state.board, me))
    ensures PastTerminalChecks(state, rules) ==>
      (r == PosInf <==> HasPieces(state.board, me) && !HasPieces(state.board, Opponent(me)))
    ensures PastTerminalChecks(state, rules) && r.Fin? ==> GroupDistancesDefined(state.board)
  {
    if |state.moves| == 0 then
      (if state.currPlayer != me then PosInf else NegInf)
    else if state.turnsSinceLastJump >= rules.maxTurnsNoJump then
      Fin(0.0)
    else
      var myU := Material(state.board, me);
      var opU := Material(state.board, Opponent(me));
      if myU == 0 then NegInf
      else if opU == 0 then PosInf
      else
        assert me == Red || me == Black;
        Fin(Positional(state.board, rules, me, distance))
  }

  /** The draw check wins over material: two states that differ only in their
      boards score the same 0 once the no-jump counter reaches the threshold. */
  lemma DrawIgnoresMaterial<M>(state: GameState<M>, board: Board, me: Color, rules: Rules, d1: real, d2: real)
    requires |state.moves| > 0 && state.turnsSinceLastJump >= rules.maxTurnsNoJump
    ensures Utility(state, me, rules, d1) == Utility(state.(board := board), me, rules, d2) == Fin(0.0)
  {
  }

  /** In the positional branch the score is finite and is the additive blend. */
  lemma PositionalBranchValue<M>(state: GameState<M>, me: Color, rules: Rules, distance: real)
    requires PastTerminalChecks(state, rules)
    requires HasPieces(state.board, me) && HasPieces(state.board, Opponent(me))
    ensures Utility(state, me, rules, distance) == Fin(Positional(state.board, rules, me, distance))
  {
  }

  /** A smaller distance between the two centroids never lowers the
      positional score: the cohesion term is a penalty. */
  lemma CohesionIsPenalty<M>(state: GameState<M>, me: Color, rules: Rules, near: real, far: real)
    requires PastTerminalChecks(state, rules)
    requires HasPieces(state.board, me) && HasPieces(state.board, Opponent(me))
    requires near <= far
    ensures Utility(state, me, rules, far).value <= Utility(state, me, rules, near).value
  {
  }
}
