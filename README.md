# Checkers player: time budget, iterative deepening and positional evaluation

A Dafny model of two pieces of a checkers-playing agent:

- **The improved player** (`players/improved_player/moshe_old.py`, module
  `ImprovedPlayer` in `improved_player.dfy`). It is an iterative-deepening driver
  over an alpha-beta search. It keeps the move of the last depth that completed
  and stops on a forced win or loss. It chooses a per-move time allotment from
  material and king counts. It keeps two per-round counters, the turns and the
  time remaining in the round, and resets them when the last turn of a round
  ends. The player is a class: `GetMove` updates its fields
  `turnsRemaining`, `timeRemaining` and `timeForCurrentMove`. The loops of the
  original are methods with loop invariants: the piece-counting loop, the
  pawn/king proximity loops and the deepening loop. Each is proved against a
  specification function.
- **The "better heuristic" evaluation** (`players/better_h_player/__init__.py`,
  module `BetterH` in `better_h.dfy`). `utility` is an ordered decision chain:
  no legal moves, then the no-jump draw, then material exhaustion, then an
  additive blend of material, a back-row bonus, a side-column differential and a
  centroid-distance penalty. Nothing persists between calls, so these are pure
  functions. The counting loops become set cardinalities over the board.

`checkers.dfy` (module `Checkers`) holds the shared vocabulary. The board is a
`map<(int, int), Piece>`. A piece marker is `Empty`, `Pawn(colour)` or
`King(colour)`. A score is `NegInf | Fin(real) | PosInf`; the two sentinels
stand for `-INFINITY` and `INFINITY`. Time is a Dafny `real`, so float rounding
does not arise.

The search engine is an oracle. Each depth's search is given as a
`SearchOutcome`: `Interrupted` (`ExceededTimeError` or `MemoryError`), or
`Completed(alpha, move, noMoreTime)`, where the flag is what `no_more_time()`
returned right after that search. The processor time a move took is a
parameter `elapsed`.

Behaviour reproduced as the code has it:

- With exactly one legal move, `get_move` returns at line 33, before the round
  accounting at lines 71-76. So a one-move turn uses no turn or time of the
  round. `Player.GetMove` follows the code.
- The effective allocation policy is the second definition of
  `get_time_for_current_move` (line 117), because in Python it replaces the
  first (line 80). It has no "kings only and ahead" case.
  The first definition is kept as `ShadowedTimeForCurrentMove`, an alternative
  strategy. In that definition the kings-only branch (lines 108-109) returns
  the same value as the final `else` (lines 111-112). Its last `return` (line
  114) cannot be reached, because every branch before it returns.
- `get_move` with an empty move list raises `IndexError` at line 39. The round
  counters are not touched. `GetMove` returns `None` for that case.

## Model

| member | source | states |
|---|---|---|
| `Checkers.NoPiecesIffZeroCounts` | players/better_h_player/__init__.py:103-110 | A colour has zero pawns and zero kings exactly when no square holds a piece of that colour |
| `BetterH.ScoreFromBackRow` | players/better_h_player/__init__.py:32-43 | The back-row score is 5 per own piece on the opponent's back row, plus 5 more exactly when there are four such pieces; it is non-negative and a multiple of 5 |
| `BetterH.BackRowIgnoresOtherRows` | players/better_h_player/__init__.py:35-38 | Changing any square off the opponent's back row leaves the back-row score unchanged |
| `BetterH.PiecesOnSides` | players/better_h_player/__init__.py:48-62 | The side differential is own pieces minus opponent pieces in columns 0 and 7, bounded by those two counts |
| `BetterH.PiecesOnSidesAntisymmetric` | players/better_h_player/__init__.py:48-62 | Computing the side differential for the other colour negates it |
| `BetterH.PiecesOnSidesIgnoresInnerColumns` | players/better_h_player/__init__.py:52-60 | A square outside columns 0 and 7 never changes the side differential, whatever it holds |
| `BetterH.Material` | players/better_h_player/__init__.py:109-110 | Weighted material (10 per pawn, 15 per king) is zero exactly when the colour has no pieces |
| `BetterH.Utility` | players/better_h_player/__init__.py:97-126 | No legal moves gives +INFINITY when the mover is the opponent and -INFINITY when it is the player; otherwise the draw threshold gives exactly 0; otherwise -INFINITY exactly when the player has no pieces and +INFINITY exactly when only the opponent has none; a finite score past the terminal checks implies both colours have pieces, so group_distances divides by non-zero counts |
| `BetterH.DrawIgnoresMaterial` | players/better_h_player/__init__.py:100-101 | Once moves exist and the no-jump counter reaches the threshold, the score is 0 whatever the board and the distance |
| `BetterH.PositionalBranchValue` | players/better_h_player/__init__.py:119-126 | When both sides have pieces past the terminal checks, the score is finite and equals my_u - op_u + back_row + 4*sides - 5*distance |
| `BetterH.CohesionIsPenalty` | players/better_h_player/__init__.py:126 | In the positional branch a smaller centroid distance never gives a lower score |
| `ImprovedPlayer.CountPieces` | players/improved_player/moshe_old.py:119-122 | The counting loop yields, for every non-empty marker, the number of squares holding it, with the default-dict's 0 for absent markers, and no entry for EM |
| `ImprovedPlayer.Player.PawnCloseToOpKing` | players/improved_player/moshe_old.py:142-161 | Returns true exactly when some own pawn and some opponent king satisfy dx*dx + dy*dy < 4; false whenever there are no own pawns or no opponent kings |
| `ImprovedPlayer.AsWrittenRaisesIffBothPresent` | players/improved_player/moshe_old.py:153-160 | As written, the function raises NameError exactly when both lists are non-empty; when it returns, its answer matches the corrected predicate |
| `ImprovedPlayer.SqrtNameErrorWitness` | players/improved_player/moshe_old.py:158 | A red pawn at (2,2) and a black king at (3,3): the original raises NameError, while the intended answer is true |
| `ImprovedPlayer.EffectiveDivisor` | players/improved_player/moshe_old.py:133-140 | Every divisor of the effective policy (1.5, 3, 2, or turns remaining) is at least 1 |
| `ImprovedPlayer.ShadowedDivisor` | players/improved_player/moshe_old.py:97-112 | Every divisor of the shadowed policy (2 or 3, 2, or turns remaining) is at least 1 |
| `ImprovedPlayer.ShadowedKingsOnlyBranchIsUniform` | players/improved_player/moshe_old.py:108-112 | The shadowed policy's kings-only branch gives the same divisor as its final branch, so the policy has three distinct cases |
| `ImprovedPlayer.AllotmentsWithinBudget` | players/improved_player/moshe_old.py:97-140 | For remaining time T >= 0 and turns >= 1, both policies allot between -0.05 and T - 0.05 |
| `ImprovedPlayer.Player.TimeForCurrentMove` | players/improved_player/moshe_old.py:117-140 | The allotment is T / divisor - 0.05 with the effective divisor, from the counts on the board, where the first matching branch wins (king deficit, fewer than 2 moves, own pawn near an opponent king, uniform); with T >= 0 it is at most T - 0.05 |
| `ImprovedPlayer.Player.ShadowedTimeForCurrentMove` | players/improved_player/moshe_old.py:80-112 | The first definition's allotment, T / divisor - 0.05 with the shadowed divisor |
| `ImprovedPlayer.Account` | players/improved_player/moshe_old.py:71-76 | The end-of-move bookkeeping keeps turns remaining within [1, k] |
| `ImprovedPlayer.RoundEndsAfterRemainingTurns` | players/improved_player/moshe_old.py:71-76 | From any point of a round, after as many accounted moves as turns remain, the counters are (k, time_per_k_turns), whatever each move took |
| `ImprovedPlayer.FullRoundReturnsToStart` | players/improved_player/moshe_old.py:71-76 | Starting from (k, time_per_k_turns) with k >= 1, k accounted moves return to (k, time_per_k_turns) |
| `ImprovedPlayer.TurnsStayInRange` | players/improved_player/moshe_old.py:71-76 | Over any sequence of accounted moves, turns remaining stays within [1, k] |
| `ImprovedPlayer.WithinAllotmentKeepsTimeNonNegative` | players/improved_player/moshe_old.py:71-76 | A move that uses no more than its effective allotment plus the margin leaves the remaining round time non-negative |
| `ImprovedPlayer.RoundNeverOverspends` | players/improved_player/moshe_old.py:71-76 | Over any sequence of moves, across round resets too, if each move uses no more than its effective allotment plus the margin, the remaining round time stays non-negative |
| `ImprovedPlayer.DeepenedDepths` | players/improved_player/moshe_old.py:58-69 | The number of depths in a row, from depth 1, that completed with a finite score and without the no-more-time flag; the next outcome, if any, does not deepen |
| `ImprovedPlayer.ChosenIsLastRecorded` | players/improved_player/moshe_old.py:48-69 | The move returned is the result of the deepest searched depth that completed without the no-more-time flag, or the fallback when there is none |
| `ImprovedPlayer.NoCompletedDepthFallsBack` | players/improved_player/moshe_old.py:39-56 | If depth 1 is interrupted or no_more_time() holds after it, the fallback possible_moves[0] is returned |
| `ImprovedPlayer.ForcedScoreStopsDeepening` | players/improved_player/moshe_old.py:61-67 | A kept result of +INFINITY or -INFINITY at some depth ends the deepening at that depth or earlier; if it ends there, that depth's move is returned, whatever the fallback |
| `ImprovedPlayer.IterativeDeepening` | players/improved_player/moshe_old.py:35-69 | The loop starts at depth 1, goes up by exactly 1 per depth that completes with a finite score, stops at the first interruption, no-more-time flag or infinite score, and returns the chosen move and the matching prev_alpha |
| `ImprovedPlayer.Player.constructor` | players/improved_player/moshe_old.py:26-27 | A new player starts the round with k turns and time_per_k_turns seconds |
| `ImprovedPlayer.Player.GetMove` | players/improved_player/moshe_old.py:29-78 | Records the effective allotment; with one move returns it and leaves both counters unchanged; with no moves fails (IndexError) with the counters unchanged; otherwise returns the chosen move of the deepening loop and applies the round bookkeeping once |

## Findings

| source | as written | input that shows it | evidently intended | confidence | as-written member | corrected member |
|---|---|---|---|---|---|---|
| players/improved_player/moshe_old.py:158 | `sqrt` is called but never imported (imports at lines 5-12), so the call raises NameError whenever the player has a pawn and the opponent has a king; the effective allocation reaches this call in its third branch, so `get_move` fails there | board {(2,2): red pawn, (3,3): black king}, player red | `distance < 2` with `math.sqrt`, i.e. dx*dx + dy*dy < 4 over integer coordinates | not executed; high | `ImprovedPlayer.SqrtNameErrorWitness` | `ImprovedPlayer.Player.PawnCloseToOpKing` |

The rest of the model (`TimeForCurrentMove`, `GetMove`) uses the corrected
proximity test.

## Left out

- The alpha-beta search (`MiniMaxWithAlphaBetaPruning`) and the rest of `utils` are not part of this model. Each depth's search is an abstract `SearchOutcome`.
- `run_with_limited_time`, `ExceededTimeError`/`MemoryError` delivery and `time.process_time()` are left out: they are wall-clock and preemption mechanisms. The per-move elapsed time is a parameter, and the clock field is not modelled.
- `ImprovedPlayer.IterativeDeepening`: depths past the end of the given outcomes count as interrupted. This stands for the deadline, which always fires eventually; the real loop has no such bound of its own.
- `ImprovedPlayer.Player.constructor`: `simple_player.Player`, which sets the initial counters, is not part of this model. The counters are assumed to start at (k, time_per_k_turns). `no_more_time` and `selective_deepening_criterion` appear only through the search outcomes.
- `group_distances` is floating-point centroid arithmetic with `sqrt`. Only its precondition (both colours have pieces) is modelled; its value is an opaque `distance` argument to `Utility`.
- The values of `checkers.consts` (`MAX_TURNS_NO_JUMP`, `BACK_ROW`) are parameters (`BetterH.Rules`).
- Move generation (`get_possible_moves`) is an external collaborator. Moves are opaque tokens in a given sequence.
- `print` diagnostics and `__repr__` are output only and are left out.
- The unused globals `PAWN_WEIGHT` and `KING_WEIGHT` of `moshe_old.py` (lines 18-19) are not modelled.
