# Nine Men's Morris: game model and game-tree search

A Dafny model of a Nine Men's Morris engine. It has two parts:

- the game state class `NineMensMorris`, which covers board topology, the joint phase rule, mill detection, successor generation with the forced-capture rule, terminal detection and the phase-weighted heuristic evaluation;
- the two depth-limited searches that consume it, `minimax` and `minimax_alpha_beta`.

The project has five modules, one per file:

- `Board` (`board.dfy`): the 24 points, the adjacency table, the 16 mills, and the list and count helpers that the source writes as comprehensions and `board.count`.
- `Game` (`game.dfy`): the state, the constructor, `determine_phase`, `other_player`, `is_part_of_mill`, `has_valid_moves` and `is_terminal`.
- `Moves` (`moves.dfy`): `get_successors` and `successors_on_mill_closed`.
- `Evaluation` (`evaluate.dfy`): `evaluate` with its helpers `count_mills`, `count_blocked_pieces`, `count_two_and_three_piece_configs`, `count_double_mills` and `is_losing`, plus the weight table.
- `Search` (`search.dfy`): `minimax` and `minimax_alpha_beta`.

A state is never changed after construction; successors are fresh copies. So a state is a Dafny `datatype` value, and `copy.deepcopy` of the board is a sequence value.

The source computes with loops: the successor loops, the capture loop, `has_valid_moves`, `is_terminal`, the evaluator's counters, and both searches. Each loop is a Dafny `method` with its loop. Each method is proved equal to a recursive specification function, and the source's promises are proved as lemmas about those functions.

Scores are integers extended with the two infinities the searches start from (`ExtInt`).

The searches in `ex2.py` only call the three abstract methods of `GameState`: `is_terminal`, `get_successors` and `evaluate`. So the search functions `Minimax` and `AlphaBeta` and the methods `MinimaxSearch` and `AlphaBetaSearch` take them as one parameter, a `Rules` value. `MorrisRules` is Nine Men's Morris's own triple: `Terminal`, `Successors` and `Score`. `Moves.GetSuccessors` and `Evaluation.Evaluate` are proved to compute `Successors` and `Score`. `Game.IsTerminal` is proved to agree with `Terminal` through `Game.TerminalIffSomeLosing`. The lemmas about the searches hold for every `Rules`, `MorrisRules` included.

Two details of the code that the model follows:

- The placing phase holds while either player has *more than zero* pieces to place (`> 0`, `NineMenMorrisClass.py:79`). A count can go below zero: in the placing phase the player to move places a piece even when only the opponent has pieces left.
- In the flying phase, `has_valid_moves(player)` needs the player to have a piece on the board *and* some point to be empty (`NineMenMorrisClass.py:162-166`).

## Model

| member | source | states |
|---|---|---|
| Board.Other | NineMenMorrisClass.py:85-86 | the other player is never the player itself |
| Board.AdjacencyWellFormed | NineMenMorrisClass.py:36-43 | the adjacency table covers all 24 points; each point has one to four neighbours, none of them itself; adjacency is symmetric |
| Board.MillsWellFormed | NineMenMorrisClass.py:64-71 | there are 16 mills; each is three increasing points, each consecutive pair adjacent on the board |
| Board.PositionsSpec | NineMenMorrisClass.py:111 | the positions of a player list exactly the points holding it, in increasing order |
| Board.PositionsCount | NineMenMorrisClass.py:52-55 | the positions of a player are as many as `board.count(player)` |
| Game.NewGame | NineMenMorrisClass.py:45-57 | the constructor keeps board, player to move and pieces to place as given |
| Game.NewGameSpec | NineMenMorrisClass.py:78-83 | a constructed state counts each player's pieces on its board; it is placing iff either player has pieces left to place, flying iff not and either player has exactly three pieces, moving otherwise |
| Game.InitialGame | NineMenMorrisClass.py:45-47 | the default state is an empty board, X to move, nine pieces each to place, in the placing phase |
| Game.ConsistentUnique | NineMenMorrisClass.py:45-57 | board, player to move and pieces to place determine the rest of a constructed state |
| Game.PartOfMillPieces | NineMenMorrisClass.py:59-76 | `is_part_of_mill` on an occupied point (the source raises on an empty one): a piece in a filled mill means its owner has at least three pieces on the board |
| Game.HasValidMoves | NineMenMorrisClass.py:159-170 | true iff placing; or flying with a piece of the player on the board and an empty point; or moving with a piece of the player next to an empty point |
| Game.IsTerminal | NineMenMorrisClass.py:153-157 | true iff some player has fewer than three pieces on the board and to place together, or has no valid move |
| Game.TerminalIffSomeLosing | NineMenMorrisClass.py:153-157 | the terminal test is the disjunction of the per-player losing test over both players |
| Moves.PlaceAt | NineMenMorrisClass.py:91-103 | placing on i fills only i with the mover's piece, lowers only the mover's count to place by one, and passes the turn |
| Moves.MoveTo | NineMenMorrisClass.py:116-121 | moving empties the source, fills the destination, leaves nothing to place, and passes the turn |
| Moves.RemovePiece | NineMenMorrisClass.py:144-149 | a capture empties only the captured point and keeps player and counts |
| Moves.UnmilledBelowSpec | NineMenMorrisClass.py:139 | the unmilled list holds exactly the opponent's pieces outside any mill, in increasing order |
| Moves.RemovablePieces | NineMenMorrisClass.py:138-142 | a point is removable iff it holds a piece of the player losing one and is in no mill, or every such piece is in a mill; the list is strictly increasing |
| Moves.SuccessorsOnMillClosed | NineMenMorrisClass.py:130-151 | the capture loop yields one state per removable point, in order |
| Moves.ResolveMill | NineMenMorrisClass.py:104-108 | after a move, a closed mill branches into the captures, otherwise the state itself |
| Moves.MoveOn | NineMenMorrisClass.py:116-126 | one move followed by its capture branching |
| Moves.MovesFrom | NineMenMorrisClass.py:115-126 | the destination loop yields the moves to the empty destinations, in order |
| Moves.PlaceOn | NineMenMorrisClass.py:93-108 | one placement followed by its capture branching |
| Moves.PlacingSuccessors | NineMenMorrisClass.py:90-108 | the placing loop over the 24 points |
| Moves.MovingSuccessors | NineMenMorrisClass.py:110-126 | the moving and flying loop over the mover's pieces |
| Moves.GetSuccessors | NineMenMorrisClass.py:88-128 | `get_successors` computes the successor list |
| Moves.CaptureCounts | NineMenMorrisClass.py:144-149 | a capture lowers the captured player's piece count by one and leaves the other's |
| Moves.CapturesBelowShape | NineMenMorrisClass.py:144-151 | the k-th capture state removes the k-th removable point |
| Moves.RemovableUnmilled | NineMenMorrisClass.py:139 | when some opponent piece is outside every mill, only such pieces are removable |
| Moves.RemovableAllMilled | NineMenMorrisClass.py:140-142 | when every opponent piece is in a mill, any opponent piece is removable |
| Moves.RemovableIff | NineMenMorrisClass.py:138-142 | a point is removable iff it holds an opponent piece that is outside every mill, or all opponent pieces are in mills; the list is strictly increasing |
| Moves.MillCapturesSpec | NineMenMorrisClass.py:144-151 | one capture state per removable point, the k-th removing the k-th point, all distinct |
| Moves.MillCapturesIff | NineMenMorrisClass.py:130-151 | s is a capture state iff s removes some removable opponent piece |
| Moves.NoCaptureWithoutPieces | NineMenMorrisClass.py:139-144 | an opponent with no piece on the board yields no capture state |
| Moves.AfterMoveIff | NineMenMorrisClass.py:104-108 | after a move, s follows iff no mill was closed and s is the state itself, or a mill was closed and s captures a removable piece |
| Moves.PlacementsBelowIff | NineMenMorrisClass.py:91-108 | the placing loop over points below n yields s iff s follows a placement on an empty point below n |
| Moves.DestinationMovesIff | NineMenMorrisClass.py:115-126 | the destination loop yields s iff s follows a move of src to an empty listed destination |
| Moves.SourceMovesSound | NineMenMorrisClass.py:111-126 | everything the source-point loop yields follows a move of one of the mover's pieces to one of its destinations |
| Moves.SourceMovesComplete | NineMenMorrisClass.py:111-126 | every such move's outcome is yielded |
| Moves.SuccessorsIffMoves | NineMenMorrisClass.py:110-126 | outside placing, s is a successor iff it follows a move of one of the mover's pieces to one of its destinations |
| Moves.PlacingSuccessorsIff | NineMenMorrisClass.py:90-108 | while placing, s is a successor iff it follows a placement on an empty point |
| Moves.MovingSuccessorsIff | NineMenMorrisClass.py:110-113 | while moving, s is a successor iff it follows a move of a mover's piece to an empty neighbour |
| Moves.FlyingSuccessorsIff | NineMenMorrisClass.py:110-114 | while flying, s is a successor iff it follows a move of a mover's piece to any empty point |
| Moves.AfterMoveTurn | NineMenMorrisClass.py:135-149 | the capture branching keeps the player to move and yields constructed states |
| Moves.SuccessorTurn | NineMenMorrisClass.py:102-103 | every successor has the other player to move and is a constructed state (counts and phase agree with its board) |
| Evaluation.MillsBelowSpec | NineMenMorrisClass.py:182 | the mill count over the first n mills is at most n, and positive iff one of them is filled by the player |
| Evaluation.CountMillsIff | NineMenMorrisClass.py:173-182 | `count_mills` is at most 16, and positive iff some piece of the player is part of a mill in the sense of `is_part_of_mill` |
| Evaluation.BlockedBelowSpec | NineMenMorrisClass.py:187-190 | the blocked count is at most the player's pieces, and equal iff every one of them has all neighbours occupied |
| Evaluation.BlockedIffStuck | NineMenMorrisClass.py:184-190 | blocked pieces never exceed the pieces on the board; in the moving phase all are blocked iff the player has no valid move |
| Evaluation.ConfigsBelowBounds | NineMenMorrisClass.py:201-214 | at most one two-piece configuration per mill, and no more three-piece ones than two-piece ones |
| Evaluation.ConfigsBelowSeen | NineMenMorrisClass.py:203-212 | the seen set holds exactly the player's pieces on the two-piece configurations met so far |
| Evaluation.ConfigsAsWrittenAgree | NineMenMorrisClass.py:201-214 | the loop as written and the intended one meet the same two-piece configurations and see the same pieces; as written it never counts more three-piece configurations, and counts the same when point 0 holds no piece of the player |
| Evaluation.ConfigsBelowThree | NineMenMorrisClass.py:209-210 | the three-piece count is positive iff two two-piece configurations share a piece of the player |
| Evaluation.PointZeroNeverShared | NineMenMorrisClass.py:210 | on X at 0, 1 and 9 the mills (0,1,2) and (0,9,21) share point 0, yet the test as written counts no three-piece configuration; the corrected one counts one |
| Evaluation.CountTwoAndThreePieceConfigs | NineMenMorrisClass.py:192-214 | the loop computes the corrected counters; three-piece ≤ two-piece ≤ 16; three-piece > 0 iff two two-piece configurations share a piece |
| Evaluation.MillsThroughSpec | NineMenMorrisClass.py:220-227 | the filled mills through a point are among the player's filled mills, and exist only on the player's own pieces |
| Evaluation.DoubleMillsInSpec | NineMenMorrisClass.py:217-230 | the double-mill count over k points is at most k, and positive iff one of them lies on two filled mills |
| Evaluation.DoubleMillsIff | NineMenMorrisClass.py:216-230 | `count_double_mills` is at most the player's pieces, positive iff some piece lies on two filled mills, and then the player has at least two mills |
| Evaluation.CountDoubleMills | NineMenMorrisClass.py:216-230 | the loop over the player's points computes the double-mill count |
| Evaluation.PhaseWeights | NineMenMorrisClass.py:236-264 | the weight table: a win weighs something exactly outside the placing phase |
| Evaluation.IsLosing | NineMenMorrisClass.py:232-234 | losing iff fewer than three pieces on the board and to place together, or no valid move |
| Evaluation.WinBonus | NineMenMorrisClass.py:280-283 | the win weight: none while placing; +1086 or +1190 (moving or flying) when MIN is losing, otherwise the same subtracted when MAX is losing, otherwise none |
| Evaluation.Evaluate | NineMenMorrisClass.py:266-285 | the term-by-term accumulation computes the score |
| Evaluation.CountersSwap | NineMenMorrisClass.py:173-230 | every counter gives the same value for a player as for the other player on the board with X and O exchanged |
| Evaluation.LosingSwap | NineMenMorrisClass.py:232-234 | a player is losing iff the other player is losing once X and O are exchanged |
| Evaluation.MaterialSwap | NineMenMorrisClass.py:269-278 | the weighted differences change sign when X and O are exchanged |
| Evaluation.ScoreSwap | NineMenMorrisClass.py:266-285 | the evaluation is antisymmetric: exchanging X and O negates the score, unless both players are losing |
| Search.Max | ex2.py:21 | `max` is an upper bound of both arguments and one of them |
| Search.Min | ex2.py:37 | `min` is a lower bound of both arguments and one of them |
| Search.MinimaxSearch | ex2.py:44-78 | `minimax`, over any rules, computes the specified score and line |
| Search.MinimaxMaxLoop | ex2.py:60-68 | the MAX loop of `minimax` computes the loop function over the children's outcomes |
| Search.MinimaxMinLoop | ex2.py:70-78 | the MIN loop of `minimax` computes the loop function over the children's outcomes |
| Search.AlphaBetaSearch | ex2.py:5-41 | `minimax_alpha_beta`, over any rules, computes the specified score and line |
| Search.AlphaBetaMaxLoop | ex2.py:11-25 | the MAX loop, with its `break`, computes the pruned loop function |
| Search.AlphaBetaMinLoop | ex2.py:27-41 | the MIN loop, with its `break`, computes the pruned loop function |
| Search.PrunedStaysCut | ex2.py:22-23 | once `beta <= alpha` the remaining children change nothing |
| Search.PickScore | ex2.py:16-18 | the replacement test keeps the larger (MAX) or smaller (MIN) score, whatever the path lengths |
| Search.BestOfBounds | ex2.py:63-67 | the loop's score is at least as good as every child's, and is the worst start or some child's outcome |
| Search.BestOfChoice | ex2.py:65-67 | among the children with the best score, the loop keeps the first with the shortest line; it keeps its start only if every child scores the worst value |
| Search.MinimaxValue | ex2.py:55-78 | at an inner node, minimax's score is the maximum (MAX) or minimum (MIN) of the successors' scores, or the infinity it starts from when there are none |
| Search.PrunedMax | ex2.py:12-23 | the MAX loop's invariant against minimax: beta unchanged; while open, alpha is the larger of the start alpha and the best score, which agrees with minimax's once cut to the window; once closed, both best scores have reached beta |
| Search.PrunedMin | ex2.py:28-39 | the MIN loop's invariant against minimax, with alpha and beta exchanged |
| Search.AlphaBetaClamp | ex2.py:5-41 | for alpha < beta, alpha-beta's and minimax's scores agree once cut to [alpha, beta] |
| Search.AlphaBetaFullWindow | ex2.py:94 | called with (-inf, +inf) on Nine Men's Morris, alpha-beta returns exactly minimax's score |
| Search.MinimaxPrincipal | ex2.py:55-78 | minimax's line starts at the state, steps from state to successor, is at most max_depth - depth + 1 long, and for a finite score ends at a terminal state or the depth limit whose evaluation is the score |
| Search.PrunedPrincipal | ex2.py:14-18 | the pruned loop keeps its start or a line from one of the children |
| Search.AlphaBetaPrincipal | ex2.py:5-41 | alpha-beta's line has the same properties as minimax's |

## Left out

- `__repr__` (`NineMenMorrisClass.py:287-293`) only formats a state for display.
- `main` in `ex2.py` builds one position, prints the result and measures wall-clock time, all of it I/O and clocks. Its call with the full window is the subject of `Search.AlphaBetaFullWindow`.
- The abstract base class `GameState` is not modelled as an interface. The searches take its three abstract methods as a `Rules` value over `NineMensMorris` states, which is what they call. The search methods call the specification functions in `Rules`, not the loop methods that compute them.
- Scores are Python ints; floats appear only as the two infinities the searches start from (`ExtInt`).
- `is_part_of_mill` on an empty point raises. Here that is a precondition, `b[pos] != Empty`. Every call in the source is made on an occupied point.
- Game.HasValidMoves: it states the result of the loop, not that the loop stops at the first movable piece. The early `return` has no observable effect besides speed.
- Evaluation.Evaluate: it computes the three-piece term with the corrected shared-piece test (see Findings), not the test as written.
- Evaluation.CountTwoAndThreePieceConfigs: its loop uses the corrected shared-piece test (see Findings), not `any(...)` over the point indices as written. The two tests agree on the two-piece count. The corrected one can count more three-piece configurations, but only when point 0 holds a piece of the player (`Evaluation.ConfigsAsWrittenAgree`). `Material`, `Score` and `MorrisRules` inherit this. With X on 0, 1 and 9, the source returns (2, 0) and the model (2, 1).
- The evaluator's `is_losing` uses the phase recomputed from the counts, as `has_valid_moves` does. The weights are chosen by the stored phase, as the source does. For constructed states the two phases agree (`Game.NewGameSpec`).
- Evaluation.ScoreSwap: when both players are losing, MAX receives the win bonus whichever side it plays, so antisymmetry does not hold there. The lemma excludes that case.

## Findings

| source | as written | input that shows it | evidently intended | confidence | as-written member | corrected member |
|---|---|---|---|---|---|---|
| NineMenMorrisClass.py:210 | `any(p for p in mill if board[p] == player and p in seen)` tests the truth of the point index `p`, so a piece shared on point 0 never counts | X on points 0, 1 and 9, the rest empty: mills (0,1,2) and (0,9,21) are both two-piece configurations sharing point 0, yet the three-piece count is 0 | count a configuration that shares any already-seen piece, point 0 included (three-piece count 1 here) | not executed | Evaluation.PointZeroNeverShared | Evaluation.ConfigsBelowThree |
