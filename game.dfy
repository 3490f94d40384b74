/** The Nine Men's Morris game state (class NineMensMorris without its
    successor generator and evaluator): construction, phase, mill
    membership, valid moves and terminal detection. */
module Game {
  import opened Board

  datatype Phase = Placing | Moving | Flying

  /** A game state. The source computes the piece counts and the phase once,
      when the state is constructed, and never changes a state afterwards. */
  datatype Game = Game(
    board: Board,
    current: Player,
    toPlaceMax: int,
    toPlaceMin: int,
    onBoardMax: nat,
    onBoardMin: nat,
    phase: Phase)

  /** pieces_to_place[p]. It can drop below zero: during placing the mover
      places even when only the other player has pieces left to place. */
  function ToPlace(g: Game, p: Player): int
  {
    if p == X then g.toPlaceMax else g.toPlaceMin
  }

  /** pieces_on_board[p] */
  function OnBoard(g: Game, p: Player): nat
  {
    if p == X then g.onBoardMax else g.onBoardMin
  }

  /** The phase rule, over both players at once: flying applies to the whole
      state as soon as either player is down to three pieces. */
  function DeterminePhase(toPlaceMax: int, toPlaceMin: int, onBoardMax: int, onBoardMin: int): Phase
  {
    if toPlaceMax > 0 || toPlaceMin > 0 then Placing
    else if onBoardMax == 3 || onBoardMin == 3 then Flying
    else Moving
  }

  /** determine_phase(), recomputed from the stored counts. */
  function PhaseOf(g: Game): Phase
  {
    DeterminePhase(g.toPlaceMax, g.toPlaceMin, g.onBoardMax, g.onBoardMin)
  }

  /** What construction establishes: the stored counts are the board's and
      the stored phase follows the phase rule. */
  ghost predicate Consistent(g: Game)
  {
    && g.onBoardMax == multiset(g.board)[X]
    && g.onBoardMin == multiset(g.board)[O]
    && g.phase == PhaseOf(g)
  }

  /** The constructor NineMensMorris(board, current_player, pieces_to_place).
      `board.count(p)` is the multiplicity of p in the board. */
  function NewGame(board: Board, current: Player, toPlaceMax: int, toPlaceMin: int): (g: Game)
    ensures g.board == board && g.current == current
    ensures g.toPlaceMax == toPlaceMax && g.toPlaceMin == toPlaceMin
  {
    var onBoardMax := multiset(board)[X];
    var onBoardMin := multiset(board)[O];
    Game(board, current, toPlaceMax, toPlaceMin, onBoardMax, onBoardMin,
         DeterminePhase(toPlaceMax, toPlaceMin, onBoardMax, onBoardMin))
  }

  /** A constructed state counts each player's pieces on its board, is in
      the placing phase exactly when either player has pieces left to place,
      and otherwise flies exactly when either player has three pieces left. */
  lemma NewGameSpec(board: Board, current: Player, toPlaceMax: int, toPlaceMin: int)
    ensures var g := NewGame(board, current, toPlaceMax, toPlaceMin);
      && OnBoard(g, X) == multiset(board)[X] && OnBoard(g, O) == multiset(board)[O]
      && (g.phase == Placing <==> toPlaceMax > 0 || toPlaceMin > 0)
      && (g.phase == Flying <==>
            toPlaceMax <= 0 && toPlaceMin <= 0 && (multiset(board)[X] == 3 || multiset(board)[O] == 3))
      && (g.phase == Moving <==>
            toPlaceMax <= 0 && toPlaceMin <= 0 && multiset(board)[X] != 3 && multiset(board)[O] != 3)
      && Consistent(g)
  {
  }

  /** The constructor's defaults: an empty board, X to move, nine pieces each. */
  function InitialGame(): (g: Game)
    ensures g.current == X && g.phase == Placing
    ensures forall i :: 0 <= i < 24 ==> g.board[i] == Empty
    ensures OnBoard(g, X) == 0 && OnBoard(g, O) == 0
    ensures ToPlace(g, X) == 9 && ToPlace(g, O) == 9
  {
    NewGame(seq(24, _ => Empty), X, 9, 9)
  }

  /** Two consistent states that agree on board, player to move and pieces
      to place are the same state. */
  lemma ConsistentUnique(g: Game, h: Game)
    requires Consistent(g) && Consistent(h)
    requires g.board == h.board && g.current == h.current
    requires g.toPlaceMax == h.toPlaceMax && g.toPlaceMin == h.toPlaceMin
    ensures g == h
  {
  }

  /** other_player() */
  function OtherPlayer(g: Game): Player
  {
    Other(g.current)
  }

  /** is_part_of_mill(pos): some mill through pos holds the piece on pos on
      all three of its points. Asking about an empty point is a caller error. */
  predicate IsPartOfMill(b: Board, pos: Point)
    requires b[pos] != Empty
  {
    exists m :: 0 <= m < |Mills| && OnMill(pos, Mills[m]) && MillFilled(b, Mills[m], b[pos])
  }

  /** A piece in a mill has two more pieces of its owner beside it: its
      owner has at least three pieces on the board. */
  lemma PartOfMillPieces(b: Board, pos: Point)
    requires b[pos] != Empty
    ensures IsPartOfMill(b, pos) ==> 3 <= multiset(b)[b[pos]]
  {
    FilledMillsHoldThree(b);
  }

  /** Some point of the board is empty. */
  predicate SomeEmpty(b: Board)
  {
    exists i :: 0 <= i < 24 && b[i] == Empty
  }

  /** A piece on src can go somewhere: anywhere empty when flying, to an
      empty neighbour otherwise. */
  predicate CanLeave(g: Game, src: Point)
  {
    if PhaseOf(g) == Flying then SomeEmpty(g.board)
    else exists dst :: dst in Adjacent[src] && g.board[dst] == Empty
  }

  /** has_valid_moves(player), stated over the whole board. */
  predicate ValidMovesExist(g: Game, p: Player)
  {
    || PhaseOf(g) == Placing
    || (PhaseOf(g) == Flying && (exists i :: 0 <= i < 24 && g.board[i] == p) && SomeEmpty(g.board))
    || (PhaseOf(g) == Moving &&
        exists src, dst :: 0 <= src < 24 && g.board[src] == p && dst in Adjacent[src] && g.board[dst] == Empty)
  }

  /** is_losing(player) of the evaluator, and the per-player test of is_terminal. */
  predicate Losing(g: Game, p: Player)
  {
    OnBoard(g, p) + ToPlace(g, p) < 3 || !ValidMovesExist(g, p)
  }

  /** is_terminal() */
  predicate Terminal(g: Game)
  {
    Losing(g, MaxPlayer) || Losing(g, MinPlayer)
  }

  /** has_valid_moves: scans the player's pieces and stops at the first that
      can move. */
  method HasValidMoves(g: Game, player: Player) returns (valid: bool)
    ensures valid <==>
      || PhaseOf(g) == Placing
      || (PhaseOf(g) == Flying && (exists i :: 0 <= i < 24 && g.board[i] == player) && SomeEmpty(g.board))
      || (PhaseOf(g) == Moving &&
          exists src, dst :: 0 <= src < 24 && g.board[src] == player && dst in Adjacent[src] && g.board[dst] == Empty)
  {
    if PhaseOf(g) == Placing {
      return true;
    }
    var positions := Positions(g.board, player);
    PositionsSpec(g.board, player);
    for k := 0 to |positions|
      invariant forall j :: 0 <= j < k ==> !CanLeave(g, positions[j])
    {
      var src := positions[k];
      assert src in positions && g.board[src] == player;
      if PhaseOf(g) == Flying {
        if exists i :: 0 <= i < 24 && g.board[i] == Empty {
          return true;
        }
      } else {
        if exists dst :: dst in Adjacent[src] && g.board[dst] == Empty {
          return true;
        }
      }
    }
    forall src | 0 <= src < 24 && g.board[src] == player ensures !CanLeave(g, src) {
      assert src in positions;
    }
    return false;
  }

  /** is_terminal: checks MAX, then MIN, and stops at the first player that
      is losing. */
  method IsTerminal(g: Game) returns (terminal: bool)
    ensures terminal <==>
      exists p: Player :: OnBoard(g, p) + ToPlace(g, p) < 3 || !ValidMovesExist(g, p)
  {
    var players: seq<Player> := [MaxPlayer, MinPlayer];
    for k := 0 to |players|
      invariant forall j :: 0 <= j < k ==> !Losing(g, players[j])
    {
      var player := players[k];
      var valid := HasValidMoves(g, player);
      if OnBoard(g, player) + ToPlace(g, player) < 3 || !valid {
        return true;
      }
    }
    assert !Losing(g, players[0]) && !Losing(g, players[1]);
    TerminalIffSomeLosing(g);
    return false;
  }

  /** The terminal test is the same whichever way it is phrased. */
  lemma TerminalIffSomeLosing(g: Game)
    ensures Terminal(g) <==> exists p: Player :: Losing(g, p)
  {
    if !Terminal(g) {
      forall p: Player ensures !Losing(g, p) {
        assert p == X || p == O;
      }
    }
  }
}
