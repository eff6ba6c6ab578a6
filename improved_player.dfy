/** The "improved" player: an iterative-deepening driver over an alpha-beta
    search, a per-move time allotment chosen from material and king counts,
    and the per-round bookkeeping of turns and time left in the round.

    The search itself, the clock and the deadline mechanism are outside the
    model: each depth's search is given as an outcome (interrupted, or
    completed with a score and a move and the value no_more_time() then had),
    and the time the move took is given as a number. */
module ImprovedPlayer {
  import opened Checkers

  /** The safety margin subtracted from every per-move allotment. */
  const Margin: real := 0.05

  // ---------------------------------------------------------------------------
  // Counting the markers on the board (the defaultdict loops)
  // ---------------------------------------------------------------------------

  /** A defaultdict(lambda: 0) lookup. */
  function Tally(counts: map<Piece, nat>, p: Piece): nat {
    if p in counts then counts[p] else 0
  }

  /** The squares outside rest that hold marker p: what the counting loop has
      already seen of p. */
  function Seen(board: Board, rest: set<Square>, p: Piece): set<Square> {
    set sq | sq in board && sq !in rest && board[sq] == p
  }

  lemma SeenStep(board: Board, rest: set<Square>, sq: Square, p: Piece)
    requires sq in rest && sq in board
    ensures |Seen(board, rest - {sq}, p)| == |Seen(board, rest, p)| + (if board[sq] == p then 1 else 0)
  {
    if board[sq] == p {
      assert Seen(board, rest - {sq}, p) == Seen(board, rest, p) + {sq};
    } else {
      assert Seen(board, rest - {sq}, p) == Seen(board, rest, p);
    }
  }

  /** Counts every non-empty marker on the board, as a defaultdict would. */
  method CountPieces(board: Board) returns (counts: map<Piece, nat>)
    ensures Empty !in counts
    ensures forall p :: p != Empty ==> Tally(counts, p) == Count(board, p)
  {
    counts := map[];
    var rest := board.Keys;
    while rest != {}
      invariant rest <= board.Keys
      invariant Empty !in counts
      invariant forall p :: p != Empty ==> Tally(counts, p) == |Seen(board, rest, p)|
      decreases rest
    {
      var sq :| sq in rest;
      var v := board[sq];
      if v != Empty {
        counts := counts[v := Tally(counts, v) + 1];
      }
      forall p | p != Empty
        ensures |Seen(board, rest - {sq}, p)| == |Seen(board, rest, p)| + (if v == p then 1 else 0)
      {
        SeenStep(board, rest, sq, p);
      }
      rest := rest - {sq};
    }
    forall p | p != Empty
      ensures Tally(counts, p) == Count(board, p)
    {
      assert Seen(board, {}, p) == Occupied(board, p);
    }
  }

  // ---------------------------------------------------------------------------
  // pawn_close_to_op_king
  // ---------------------------------------------------------------------------

  /** distance < 2 with distance = sqrt(dx ** 2 + dy ** 2), over integers. */
  predicate Near(a: Square, b: Square) {
    (a.0 - b.0) * (a.0 - b.0) + (a.1 - b.1) * (a.1 - b.1) < 4
  }

  /** Some pawn of colour c stands near some king of c's opponent. */
  predicate PawnNearOpKing(board: Board, c: Color) {
    exists pawn, king :: pawn in Occupied(board, Pawn(c)) && king in Occupied(board, King(Opponent(c)))
      && Near(pawn, king)
  }

  /** What pawn_close_to_op_king does as written: the module never imports
      sqrt, so the first distance it computes raises NameError. */
  datatype Outcome = Returned(value: bool) | NameError

  function PawnCloseToOpKingAsWritten(board: Board, c: Color): Outcome
  {
    if Occupied(board, Pawn(c)) == {} || Occupied(board, King(Opponent(c))) == {} then Returned(false)
    else NameError
  }

  /** The original raises exactly when both lists are non-empty, and when it
      does return, it agrees with the corrected predicate. */
  lemma AsWrittenRaisesIffBothPresent(board: Board, c: Color)
    ensures PawnCloseToOpKingAsWritten(board, c) == NameError <==>
      Count(board, Pawn(c)) > 0 && Count(board, King(Opponent(c))) > 0
    ensures PawnCloseToOpKingAsWritten(board, c).Returned? ==>
      PawnCloseToOpKingAsWritten(board, c).value == PawnNearOpKing(board, c)
  {
  }

  /** A red pawn diagonally next to a black king: the original raises
      NameError where the intended answer is true. */
  lemma SqrtNameErrorWitness()
    ensures var board := map[(2, 2) := Pawn(Red), (3, 3) := King(Black)];
      PawnCloseToOpKingAsWritten(board, Red) == NameError && PawnNearOpKing(board, Red)
  {
    var board := map[(2, 2) := Pawn(Red), (3, 3) := King(Black)];
    assert (2, 2) in Occupied(board, Pawn(Red));
    assert (3, 3) in Occupied(board, King(Black));
    assert Near((2, 2), (3, 3));
  }

  // ---------------------------------------------------------------------------
  // The two time-allocation policies
  // ---------------------------------------------------------------------------

  /** The divisor chosen by the effective get_time_for_current_move (the second
      definition, which replaces the first): the first matching branch wins. */
  function EffectiveDivisor(myKings: nat, opKings: nat, myU: nat, opU: nat,
                            moveCount: nat, pawnNear: bool, turns: int): (d: real)
    requires turns >= 1
    ensures d >= 1.0
  {
    if opKings > myKings && opU > myU then 1.5
    else if moveCount < 2 then 3.0
    else if pawnNear then 2.0
    else turns as real
  }

  /** The divisor of the first, shadowed definition of get_time_for_current_move. */
  function ShadowedDivisor(myPawns: nat, myKings: nat, opPawns: nat, opKings: nat,
                           k: int, turns: int): (d: real)
    requires turns >= 1
    ensures d >= 1.0
  {
    if myPawns < opPawns && myKings == 0 && opKings == 0 then
      (if k <= 2 then 2.0 else 3.0)
    else if myPawns < opPawns && myKings < opKings then 2.0
    else if myPawns == 0 && opPawns == 0 && myKings > opKings then turns as real
    else turns as real
  }

  /** The kings-only branch of the shadowed policy gives what its final branch
      gives, so that policy has only three distinct outcomes. */
  lemma ShadowedKingsOnlyBranchIsUniform(myPawns: nat, myKings: nat, opPawns: nat, opKings: nat,
                                         k: int, turns: int)
    requires turns >= 1
    ensures ShadowedDivisor(myPawns, myKings, opPawns, opKings, k, turns) ==
      if myPawns < opPawns && myKings == 0 && opKings == 0 then (if k <= 2 then 2.0 else 3.0)
      else if myPawns < opPawns && myKings < opKings then 2.0
      else turns as real
  {
  }

  /** For a budget T >= 0, a share T / d with d >= 1 lies between 0 and T. */
  lemma ShareOfBudget(time: real, d: real)
    requires time >= 0.0 && d >= 1.0
    ensures 0.0 <= time / d <= time
  {
    assert time == (time / d) * d;
    assert (time / d) * d >= (time / d) * 1.0 by {
      assert time / d >= 0.0;
    }
  }

  /** The effective per-move allotment for a player of colour c holding
      `time` seconds and `turns` turns of the round, on the given state. */
  function EffectiveAllotment<M>(time: real, turns: int, state: GameState<M>, c: Color): real
    requires turns >= 1
  {
    var b := state.board;
    var myKings, opKings := Count(b, King(c)), Count(b, King(Opponent(c)));
    var myU := Count(b, Pawn(c)) + myKings;
    var opU := Count(b, Pawn(Opponent(c))) + opKings;
    time / EffectiveDivisor(myKings, opKings, myU, opU, |state.moves|, PawnNearOpKing(b, c), turns) - Margin
  }

  /** The shadowed per-move allotment, for a round of k turns. */
  function ShadowedAllotment(time: real, turns: int, board: Board, c: Color, k: int): real
    requires turns >= 1
  {
    var myPawns, myKings := Count(board, Pawn(c)), Count(board, King(c));
    var opPawns, opKings := Count(board, Pawn(Opponent(c))), Count(board, King(Opponent(c)));
    time / ShadowedDivisor(myPawns, myKings, opPawns, opKings, k, turns) - Margin
  }

  /** Neither policy ever allots more than the remaining round time minus the
      margin, nor less than minus the margin. */
  lemma AllotmentsWithinBudget<M>(time: real, turns: int, state: GameState<M>, c: Color, k: int)
    requires time >= 0.0 && turns >= 1
    ensures -Margin <= EffectiveAllotment(time, turns, state, c) <= time - Margin
    ensures -Margin <= ShadowedAllotment(time, turns, state.board, c, k) <= time - Margin
  {
    var b := state.board;
    var myKings, opKings := Count(b, King(c)), Count(b, King(Opponent(c)));
    var myU := Count(b, Pawn(c)) + myKings;
    var opU := Count(b, Pawn(Opponent(c))) + opKings;
    ShareOfBudget(time, EffectiveDivisor(myKings, opKings, myU, opU, |state.moves|, PawnNearOpKing(b, c), turns));
    ShareOfBudget(time, ShadowedDivisor(Count(b, Pawn(c)), myKings, Count(b, Pawn(Opponent(c))), opKings, k, turns));
  }

  // ---------------------------------------------------------------------------
  // Round accounting
  // ---------------------------------------------------------------------------

  /** The per-round counters: turns and time remaining in the round. */
  datatype Round = Round(turns: int, time: real)

  /** The bookkeeping at the end of a searched move that took `elapsed`. */
  function Account(r: Round, k: int, full: real, elapsed: real): (r': Round)
    ensures 1 <= r.turns <= k ==> 1 <= r'.turns <= k
  {
    if r.turns == 1 then Round(k, full)
    else Round(r.turns - 1, r.time - elapsed)
  }

  /** The bookkeeping of consecutive moves, one elapsed time per move. */
  function AccountAll(r: Round, k: int, full: real, elapsed: seq<real>): Round
    decreases |elapsed|
  {
    if elapsed == [] then r
    else AccountAll(Account(r, k, full, elapsed[0]), k, full, elapsed[1..])
  }

  /** From any point of a round, after as many moves as turns remain the
      counters are back at (k, full), whatever each move took. */
  lemma {:induction false} RoundEndsAfterRemainingTurns(r: Round, k: int, full: real, elapsed: seq<real>)
    requires r.turns >= 1 && |elapsed| == r.turns
    ensures AccountAll(r, k, full, elapsed) == Round(k, full)
    decreases |elapsed|
  {
    if r.turns == 1 {
      assert elapsed[1..] == [];
    } else {
      RoundEndsAfterRemainingTurns(Account(r, k, full, elapsed[0]), k, full, elapsed[1..]);
    }
  }

  /** A full round of k moves started from (k, full) returns to (k, full). */
  lemma FullRoundReturnsToStart(k: int, full: real, elapsed: seq<real>)
    requires k >= 1 && |elapsed| == k
    ensures AccountAll(Round(k, full), k, full, elapsed) == Round(k, full)
  {
    RoundEndsAfterRemainingTurns(Round(k, full), k, full, elapsed);
  }

  /** The turns counter stays within [1, k] over any number of moves. */
  lemma {:induction false} TurnsStayInRange(r: Round, k: int, full: real, elapsed: seq<real>)
    requires 1 <= r.turns <= k
    ensures 1 <= AccountAll(r, k, full, elapsed).turns <= k
    decreases |elapsed|
  {
    if elapsed != [] {
      TurnsStayInRange(Account(r, k, full, elapsed[0]), k, full, elapsed[1..]);
    }
  }

  /** A move that spends no more than its allotment plus the margin never
      drives the round's remaining time below zero. */
  lemma WithinAllotmentKeepsTimeNonNegative<M>(r: Round, k: int, full: real, state: GameState<M>, c: Color, elapsed: real)
    requires r.turns >= 1 && r.time >= 0.0 && full >= 0.0
    requires elapsed <= EffectiveAllotment(r.time, r.turns, state, c) + Margin
    ensures Account(r, k, full, elapsed).time >= 0.0
  {
    AllotmentsWithinBudget(r.time, r.turns, state, c, k);
  }

  /** Each move of a sequence, played on the given states from round counters
      r onwards, spends no more than its effective allotment plus the margin. */
  ghost predicate WithinAllotments<M>(r: Round, k: int, full: real, states: seq<GameState<M>>, c: Color,
                                      elapsed: seq<real>)
    decreases |elapsed|
  {
    |states| == |elapsed| &&
    (elapsed == [] ||
      (r.turns >= 1
       && elapsed[0] <= EffectiveAllotment(r.time, r.turns, states[0], c) + Margin
       && WithinAllotments(Account(r, k, full, elapsed[0]), k, full, states[1..], c, elapsed[1..])))
  }

  /** Across any number of moves, over round boundaries too, moves that keep
      within their allotments never drive the remaining round time below zero. */
  lemma {:induction false} RoundNeverOverspends<M>(r: Round, k: int, full: real, states: seq<GameState<M>>,
                                                   c: Color, elapsed: seq<real>)
    requires 1 <= r.turns <= k && r.time >= 0.0 && full >= 0.0
    requires WithinAllotments(r, k, full, states, c, elapsed)
    ensures AccountAll(r, k, full, elapsed).time >= 0.0
    decreases |elapsed|
  {
    if elapsed != [] {
      WithinAllotmentKeepsTimeNonNegative(r, k, full, states[0], c, elapsed[0]);
      RoundNeverOverspends(Account(r, k, full, elapsed[0]), k, full, states[1..], c, elapsed[1..]);
    }
  }

  // ---------------------------------------------------------------------------
  // Iterative deepening
  // ---------------------------------------------------------------------------

  /** What one depth's search came to: interrupted (ExceededTimeError or
      MemoryError), or completed with (alpha, move), together with the value
      no_more_time() had right after it. */
  datatype SearchOutcome<M> = Interrupted | Completed(alpha: Score, move: M, noMoreTime: bool)

  /** The depth's result is kept as the best so far. */
  predicate Recorded<M>(o: SearchOutcome<M>) {
    o.Completed? && !o.noMoreTime
  }

  /** The depth's result is kept and the loop goes one depth deeper. */
  predicate Deepens<M>(o: SearchOutcome<M>) {
    Recorded(o) && o.alpha.Fin?
  }

  /** How many depths in a row, from depth 1, were kept and searched deeper. */
  function DeepenedDepths<M>(outcomes: seq<SearchOutcome<M>>): (n: nat)
    ensures n <= |outcomes|
    ensures forall i :: 0 <= i < n ==> Deepens(outcomes[i])
    ensures n < |outcomes| ==> !Deepens(outcomes[n])
  {
    if outcomes == [] || !Deepens(outcomes[0]) then 0
    else 1 + DeepenedDepths(outcomes[1..])
  }

  /** The move get_move returns after searching: the move of the depth where
      the loop stopped if that depth's result was kept, otherwise the move of
      the depth before it, otherwise the fallback. */
  function ChosenMove<M>(outcomes: seq<SearchOutcome<M>>, fallback: M): M
  {
    match KeptOutcome(outcomes)
    case None => fallback
    case Some(o) => o.move
  }

  /** The prev_alpha the loop ends with: the score of the kept outcome, or the
      initial -INFINITY. */
  function FinalAlpha<M>(outcomes: seq<SearchOutcome<M>>): Score
  {
    match KeptOutcome(outcomes)
    case None => NegInf
    case Some(o) => o.alpha
  }

  /** The outcome whose result the loop holds when it stops: the depth where
      it stopped if that result was kept, otherwise the depth before it. */
  function KeptOutcome<M>(outcomes: seq<SearchOutcome<M>>): (kept: Option<SearchOutcome<M>>)
    ensures kept.Some? ==> Recorded(kept.value)
  {
    var n := DeepenedDepths(outcomes);
    if n < |outcomes| && Recorded(outcomes[n]) then Some(outcomes[n])
    else if n == 0 then None
    else Some(outcomes[n - 1])
  }

  /** The last kept result among the searched depths, scanning back from the
      deepest; the fallback when none was kept. */
  function LastRecordedMove<M>(searched: seq<SearchOutcome<M>>, fallback: M): M
  {
    if searched == [] then fallback
    else if Recorded(searched[|searched| - 1]) then searched[|searched| - 1].move
    else LastRecordedMove(searched[..|searched| - 1], fallback)
  }

  /** The depths the loop actually searched: those that deepened and the one
      where it stopped, if there was one. */
  function Searched<M>(outcomes: seq<SearchOutcome<M>>): seq<SearchOutcome<M>>
  {
    var n := DeepenedDepths(outcomes);
    if n < |outcomes| then outcomes[..n + 1] else outcomes
  }

  /** The chosen move is the result of the deepest searched depth that
      completed without the no-more-time flag. */
  lemma ChosenIsLastRecorded<M>(outcomes: seq<SearchOutcome<M>>, fallback: M)
    ensures ChosenMove(outcomes, fallback) == LastRecordedMove(Searched(outcomes), fallback)
  {
    var n := DeepenedDepths(outcomes);
    var s := Searched(outcomes);
    if n < |outcomes| && !Recorded(outcomes[n]) {
      assert s[..|s| - 1] == outcomes[..n];
      if n > 0 {
        assert Recorded(outcomes[n - 1]);
      }
    } else if n == |outcomes| && n > 0 {
      assert Recorded(outcomes[n - 1]);
    }
  }

  /** When no depth completes (depth 1 is interrupted, or no_more_time() holds
      after it), the fallback move is returned. */
  lemma NoCompletedDepthFallsBack<M>(outcomes: seq<SearchOutcome<M>>, fallback: M)
    requires outcomes == [] || !Recorded(outcomes[0])
    ensures ChosenMove(outcomes, fallback) == fallback
  {
  }

  /** A kept result of +INFINITY or -INFINITY ends the search at that depth,
      unless an earlier depth already ended it. */
  lemma {:induction false} ForcedScoreStopsDeepening<M>(outcomes: seq<SearchOutcome<M>>, i: nat, fallback: M)
    requires i < |outcomes| && Recorded(outcomes[i]) && !outcomes[i].alpha.Fin?
    ensures DeepenedDepths(outcomes) <= i
    ensures DeepenedDepths(outcomes) == i ==> ChosenMove(outcomes, fallback) == outcomes[i].move
  {
    if i > 0 && Deepens(outcomes[0]) {
      ForcedScoreStopsDeepening(outcomes[1..], i - 1, fallback);
    }
  }

  /** The deepening loop of get_move. Depth d's search is outcomes[d - 1];
      depths past the end of outcomes count as interrupted (the deadline
      always fires eventually). Returns the best move, the depth the loop
      stopped at, and prev_alpha. */
  method IterativeDeepening<M>(outcomes: seq<SearchOutcome<M>>, fallback: M)
    returns (best: M, depth: nat, prevAlpha: Score)
    ensures depth == DeepenedDepths(outcomes) + 1
    ensures best == ChosenMove(outcomes, fallback)
    ensures prevAlpha == FinalAlpha(outcomes)
  {
    depth := 1;
    prevAlpha := NegInf;
    best := fallback;
    while true
      invariant 1 <= depth <= |outcomes| + 1
      invariant forall i :: 0 <= i < depth - 1 ==> Deepens(outcomes[i])
      invariant best == if depth == 1 then fallback else outcomes[depth - 2].move
      invariant prevAlpha == if depth == 1 then NegInf else outcomes[depth - 2].alpha
      decreases |outcomes| + 1 - depth
    {
      if depth > |outcomes| {
        break;
      }
      var outcome := outcomes[depth - 1];
      if outcome.Interrupted? || outcome.noMoreTime {
        break;
      }
      prevAlpha := outcome.alpha;
      best := outcome.move;
      if outcome.alpha == PosInf || outcome.alpha == NegInf {
        break;
      }
      depth := depth + 1;
    }
    DeepenedDepthsIsFirstStop(outcomes, depth - 1);
  }

  /** DeepenedDepths is the first index whose outcome does not deepen. */
  lemma DeepenedDepthsIsFirstStop<M>(outcomes: seq<SearchOutcome<M>>, n: nat)
    requires n <= |outcomes|
    requires forall i :: 0 <= i < n ==> Deepens(outcomes[i])
    requires n < |outcomes| ==> !Deepens(outcomes[n])
    ensures DeepenedDepths(outcomes) == n
  {
  }

  // ---------------------------------------------------------------------------
  // The player
  // ---------------------------------------------------------------------------

  /** The improved player: its colour, the round parameters, and the two
      per-round counters that get_move updates. */
  class Player {
    const color: Color
    const k: int
    const timePerKTurns: real
    var turnsRemaining: int
    var timeRemaining: real
    var timeForCurrentMove: real

    ghost predicate Valid()
      reads this
    {
      1 <= turnsRemaining <= k
    }

    function CurrentRound(): Round
      reads this
    {
      Round(turnsRemaining, timeRemaining)
    }

    /** The round starts full: k turns and time_per_k_turns seconds. */
    constructor (playerColor: Color, timePerK: real, turnsPerRound: int)
      requires turnsPerRound >= 1
      ensures Valid()
      ensures color == playerColor && k == turnsPerRound && timePerKTurns == timePerK
      ensures CurrentRound() == Round(turnsPerRound, timePerK)
    {
      color := playerColor;
      k := turnsPerRound;
      timePerKTurns := timePerK;
      turnsRemaining := turnsPerRound;
      timeRemaining := timePerK;
      timeForCurrentMove := 0.0;
    }

    /** pawn_close_to_op_king, with the distance test it evidently intends:
        collect own pawns and opponent kings, then test every pair. */
    method PawnCloseToOpKing(board: Board) returns (near: bool)
      ensures near <==> PawnNearOpKing(board, color)
      ensures Count(board, Pawn(color)) == 0 || Count(board, King(Opponent(color))) == 0 ==> !near
    {
      var pawns: seq<Square> := [];
      var kings: seq<Square> := [];
      var rest := board.Keys;
      while rest != {}
        invariant rest <= board.Keys
        invariant forall sq :: sq in pawns <==> sq in board && sq !in rest && board[sq] == Pawn(color)
        invariant forall sq :: sq in kings <==> sq in board && sq !in rest && board[sq] == King(Opponent(color))
        decreases rest
      {
        var sq :| sq in rest;
        if board[sq] != Empty {
          if board[sq] == Pawn(color) {
            pawns := pawns + [sq];
          }
          if board[sq] == King(Opponent(color)) {
            kings := kings + [sq];
          }
        }
        rest := rest - {sq};
      }
      if |pawns| == 0 || |kings| == 0 {
        return false;
      }
      var i := 0;
      while i < |pawns|
        invariant 0 <= i <= |pawns|
        invariant forall a, b :: 0 <= a < i && 0 <= b < |kings| ==> !Near(pawns[a], kings[b])
      {
        var j := 0;
        while j < |kings|
          invariant 0 <= j <= |kings|
          invariant forall b :: 0 <= b < j ==> !Near(pawns[i], kings[b])
        {
          if Near(pawns[i], kings[j]) {
            assert pawns[i] in Occupied(board, Pawn(color));
            assert kings[j] in Occupied(board, King(Opponent(color)));
            return true;
          }
          j := j + 1;
        }
        i := i + 1;
      }
      forall pawn, king | pawn in Occupied(board, Pawn(color)) && king in Occupied(board, King(Opponent(color)))
        ensures !Near(pawn, king)
      {
        assert pawn in pawns && king in kings;
        var a :| 0 <= a < |pawns| && pawns[a] == pawn;
        var b :| 0 <= b < |kings| && kings[b] == king;
      }
      near := false;
    }

    /** The effective get_time_for_current_move. */
    method TimeForCurrentMove<M>(state: GameState<M>) returns (t: real)
      requires Valid()
      ensures t == EffectiveAllotment(timeRemaining, turnsRemaining, state, color)
      ensures timeRemaining >= 0.0 ==> -Margin <= t <= timeRemaining - Margin
    {
      var counts := CountPieces(state.board);
      var opponent := Opponent(color);
      var myPieces, myKings := Tally(counts, Pawn(color)), Tally(counts, King(color));
      var opPieces, opKings := Tally(counts, Pawn(opponent)), Tally(counts, King(opponent));
      var myU, opU := myPieces + myKings, opPieces + opKings;
      if opKings > myKings && opU > myU {
        t := timeRemaining / 1.5 - Margin;
      } else if |state.moves| < 2 {
        t := timeRemaining / 3.0 - Margin;
      } else {
        var near := PawnCloseToOpKing(state.board);
        if near {
          t := timeRemaining / 2.0 - Margin;
        } else {
          t := timeRemaining / turnsRemaining as real - Margin;
        }
      }
      if timeRemaining >= 0.0 {
        AllotmentsWithinBudget(timeRemaining, turnsRemaining, state, color, k);
      }
    }

    /** The first definition of get_time_for_current_move, which the second
        one replaces; kept as an alternative allocation strategy. */
    method ShadowedTimeForCurrentMove(board: Board) returns (t: real)
      requires Valid()
      ensures t == ShadowedAllotment(timeRemaining, turnsRemaining, board, color, k)
    {
      var counts := CountPieces(board);
      var opponent := Opponent(color);
      var myPieces, myKings := Tally(counts, Pawn(color)), Tally(counts, King(color));
      var opPieces, opKings := Tally(counts, Pawn(opponent)), Tally(counts, King(opponent));
      if myPieces < opPieces && myKings == 0 && opKings == 0 {
        if k <= 2 {
          t := timeRemaining / 2.0 - Margin;
        } else {
          t := timeRemaining / 3.0 - Margin;
        }
      } else if myPieces < opPieces && myKings < opKings {
        t := timeRemaining / 2.0 - Margin;
      } else if myPieces == 0 && opPieces == 0 && myKings > opKings {
        t := timeRemaining / turnsRemaining as real - Margin;
      } else {
        t := timeRemaining / turnsRemaining as real - Margin;
      }
    }

    /** get_move. `outcomes` are the per-depth search outcomes and `elapsed` is
        the processor time the call took. An empty move list raises IndexError
        at the fallback choice (None here); a single move is returned before
        the round accounting; otherwise the deepening loop runs and the round
        counters are updated. */
    method GetMove<M>(state: GameState<M>, possibleMoves: seq<M>,
                      outcomes: seq<SearchOutcome<M>>, elapsed: real)
      returns (move: Option<M>)
      requires Valid()
      modifies this
      ensures Valid()
      ensures timeForCurrentMove == EffectiveAllotment(old(timeRemaining), old(turnsRemaining), state, color)
      ensures |possibleMoves| == 0 ==> move == None && CurrentRound() == old(CurrentRound())
      ensures |possibleMoves| == 1 ==> move == Some(possibleMoves[0]) && CurrentRound() == old(CurrentRound())
      ensures |possibleMoves| >= 2 ==>
        move == Some(ChosenMove(outcomes, possibleMoves[0])) &&
        CurrentRound() == Account(old(CurrentRound()), k, timePerKTurns, elapsed)
    {
      timeForCurrentMove := TimeForCurrentMove(state);
      if |possibleMoves| == 1 {
        return Some(possibleMoves[0]);
      }
      if |possibleMoves| == 0 {
        return None;
      }
      var best, depth, prevAlpha := IterativeDeepening(outcomes, possibleMoves[0]);
      if turnsRemaining == 1 {
        turnsRemaining := k;
        timeRemaining := timePerKTurns;
      } else {
        turnsRemaining := turnsRemaining - 1;
        timeRemaining := timeRemaining - elapsed;
      }
      move := Some(best);
    }
  }
}
