/** Successor generation (get_successors) and the forced capture that
    follows a closed mill (successors_on_mill_closed). */
module Moves {
  import opened Board
  import opened Game

  /** The state right after the mover puts a piece on point i, before any
      capture: only i changes, the mover's count of pieces to place drops by
      one and the turn passes. */
  function PlaceAt(g: Game, i: Point): (h: Game)
    ensures h.board == g.board[i := g.current]
    ensures h.current == Other(g.current)
    ensures ToPlace(h, g.current) == ToPlace(g, g.current) - 1
    ensures ToPlace(h, Other(g.current)) == ToPlace(g, Other(g.current))
  {
    var newPlace := if g.current == MaxPlayer then (g.toPlaceMax - 1, g.toPlaceMin)
                    else (g.toPlaceMax, g.toPlaceMin - 1);
    NewGame(g.board[i := g.current], OtherPlayer(g), newPlace.0, newPlace.1)
  }

  /** The state right after the mover moves its piece from src to dst,
      before any capture: src is emptied, dst filled, nothing is left to
      place and the turn passes. */
  function MoveTo(g: Game, src: Point, dst: Point): (h: Game)
    ensures h.board == g.board[src := Empty][dst := g.current]
    ensures h.current == Other(g.current)
    ensures h.toPlaceMax == 0 && h.toPlaceMin == 0
  {
    NewGame(g.board[src := Empty][dst := g.current], OtherPlayer(g), 0, 0)
  }

  /** The state after the piece on r is captured: only r changes. */
  function RemovePiece(h: Game, r: Point): (s: Game)
    ensures s.board == h.board[r := Empty]
    ensures s.current == h.current
    ensures s.toPlaceMax == h.toPlaceMax && s.toPlaceMin == h.toPlaceMin
  {
    NewGame(h.board[r := Empty], h.current, h.toPlaceMax, h.toPlaceMin)
  }

  /** The pieces of p below n that are not part of a mill, in increasing order. */
  function UnmilledBelow(b: Board, p: Player, n: nat): seq<Point>
    requires n <= 24
  {
    if n == 0 then []
    else UnmilledBelow(b, p, n - 1) + (if b[n - 1] == p && !IsPartOfMill(b, n - 1) then [n - 1] else [])
  }

  /** UnmilledBelow lists exactly the pieces of p below n that are in no
      mill, in increasing order. */
  lemma {:induction false} UnmilledBelowSpec(b: Board, p: Player, n: nat)
    requires n <= 24
    ensures forall i :: i in UnmilledBelow(b, p, n) <==> 0 <= i < n && b[i] == p && !IsPartOfMill(b, i)
    ensures forall j :: 0 <= j < |UnmilledBelow(b, p, n)| ==> UnmilledBelow(b, p, n)[j] < n
    ensures forall j, k :: 0 <= j < k < |UnmilledBelow(b, p, n)| ==> UnmilledBelow(b, p, n)[j] < UnmilledBelow(b, p, n)[k]
  {
    if n > 0 {
      UnmilledBelowSpec(b, p, n - 1);
    }
  }

  /** Every piece of p is part of some mill. */
  predicate AllInMills(b: Board, p: Player)
  {
    forall q :: 0 <= q < 24 && b[q] == p ==> IsPartOfMill(b, q)
  }

  /** The source's removal rule: a piece of the player to move (the opponent
      of whoever closed the mill) may be captured if it is in no mill, or if
      all of that player's pieces are in mills. */
  predicate CanRemove(h: Game, r: Point)
  {
    h.board[r] == h.current && (!IsPartOfMill(h.board, r) || AllInMills(h.board, h.current))
  }

  /** The list `removable` of successors_on_mill_closed. */
  function Removable(h: Game): seq<Point>
  {
    var free := UnmilledBelow(h.board, h.current, |h.board|);
    if |free| > 0 then free else Positions(h.board, h.current)
  }

  /** One state per point of rs[..n], that point's piece removed. */
  function CapturesBelow(h: Game, rs: seq<Point>, n: nat): seq<Game>
    requires n <= |rs|
  {
    if n == 0 then [] else CapturesBelow(h, rs, n - 1) + [RemovePiece(h, rs[n - 1])]
  }

  /** One state per removable piece, in increasing order of the point. */
  function MillCaptures(h: Game): seq<Game>
  {
    var rs := Removable(h);
    CapturesBelow(h, rs, |rs|)
  }

  /** What follows a placement or move that ended on pos: the captures if
      the piece on pos now closes a mill, else the state itself. */
  function AfterMove(h: Game, pos: Point): seq<Game>
    requires h.board[pos] != Empty
  {
    if IsPartOfMill(h.board, pos) then MillCaptures(h) else [h]
  }

  /** Successors from placing on the points below n. */
  function PlacementsBelow(g: Game, n: nat): seq<Game>
    requires n <= 24
  {
    if n == 0 then []
    else
      PlacementsBelow(g, n - 1) +
      (if g.board[n - 1] == Empty then AfterMove(PlaceAt(g, n - 1), n - 1) else [])
  }

  /** Where a piece on src may go: its neighbours when moving, every empty
      point when flying. */
  function Destinations(g: Game, src: Point): seq<Point>
  {
    if g.phase == Moving then Adjacent[src] else Positions(g.board, Empty)
  }

  /** Successors from moving the piece on src to one of ds[..m]. */
  function DestinationMoves(g: Game, src: Point, ds: seq<Point>, m: nat): seq<Game>
    requires m <= |ds|
  {
    if m == 0 then []
    else
      DestinationMoves(g, src, ds, m - 1) +
      (if g.board[ds[m - 1]] == Empty then AfterMove(MoveTo(g, src, ds[m - 1]), ds[m - 1]) else [])
  }

  /** Successors from moving the pieces on ps[..n]. */
  function SourceMoves(g: Game, ps: seq<Point>, n: nat): seq<Game>
    requires n <= |ps|
  {
    if n == 0 then []
    else
      var ds := Destinations(g, ps[n - 1]);
      SourceMoves(g, ps, n - 1) + DestinationMoves(g, ps[n - 1], ds, |ds|)
  }

  /** get_successors(), as a value: the successor list in the source's order. */
  function Successors(g: Game): seq<Game>
  {
    if g.phase == Placing then PlacementsBelow(g, |g.board|)
    else
      var ps := Positions(g.board, g.current);
      SourceMoves(g, ps, |ps|)
  }

  /** The first half of successors_on_mill_closed: the pieces of the
      player to move that are in no mill, or all of them if there are none. */
  method RemovablePieces(h: Game) returns (removable: seq<Point>)
    ensures removable == Removable(h)
    ensures forall r: Point :: r in removable <==> CanRemove(h, r)
    ensures forall j, k :: 0 <= j < k < |removable| ==> removable[j] < removable[k]
  {
    var opponent := h.current;
    removable := UnmilledBelow(h.board, opponent, |h.board|);
    if |removable| == 0 {
      removable := Positions(h.board, opponent);
    }
    RemovableIff(h);
  }

  /** successors_on_mill_closed: called on the state after the move, whose
      player to move is the one losing a piece. */
  method SuccessorsOnMillClosed(h: Game) returns (states: seq<Game>)
    ensures states == MillCaptures(h)
  {
    var removable := RemovablePieces(h);
    states := [];
    for k := 0 to |removable|
      invariant states == CapturesBelow(h, removable, k)
    {
      var i := removable[k];
      var newBoard := h.board[i := Empty];
      states := states + [NewGame(newBoard, h.current, h.toPlaceMax, h.toPlaceMin)];
    }
  }

  /** The mill check that follows every placement and move: the capture
      states if the piece now on pos closes a mill, else the state itself. */
  method ResolveMill(h: Game, pos: Point) returns (states: seq<Game>)
    requires h.board[pos] != Empty
    ensures states == AfterMove(h, pos)
  {
    if IsPartOfMill(h.board, pos) {
      states := SuccessorsOnMillClosed(h);
    } else {
      states := [h];
    }
  }

  /** One iteration of the moving loop: move the piece on src to dst, then
      resolve a mill closed there. */
  method MoveOn(g: Game, src: Point, dst: Point) returns (states: seq<Game>)
    ensures states == AfterMove(MoveTo(g, src, dst), dst)
  {
    var newBoard := g.board[src := Empty][dst := g.current];
    var newState := NewGame(newBoard, OtherPlayer(g), 0, 0);
    states := ResolveMill(newState, dst);
  }

  /** The inner loop of get_successors in the moving and flying phases:
      the piece on src tries each destination in turn. */
  method MovesFrom(g: Game, src: Point, destinations: seq<Point>) returns (moves: seq<Game>)
    ensures moves == DestinationMoves(g, src, destinations, |destinations|)
  {
    moves := [];
    for m := 0 to |destinations|
      invariant moves == DestinationMoves(g, src, destinations, m)
    {
      var dst := destinations[m];
      if g.board[dst] == Empty {
        var states := MoveOn(g, src, dst);
        moves := moves + states;
      }
    }
  }

  /** One iteration of the placing loop: put the mover's piece on i, then
      resolve a mill closed there. */
  method PlaceOn(g: Game, i: Point) returns (states: seq<Game>)
    ensures states == AfterMove(PlaceAt(g, i), i)
  {
    var newBoard := g.board[i := g.current];
    var newPlace := if g.current == MaxPlayer then (g.toPlaceMax - 1, g.toPlaceMin)
                    else (g.toPlaceMax, g.toPlaceMin - 1);
    var newState := NewGame(newBoard, OtherPlayer(g), newPlace.0, newPlace.1);
    assert newState == PlaceAt(g, i);
    states := ResolveMill(newState, i);
  }

  /** The placing branch of get_successors: every empty point in order. */
  method PlacingSuccessors(g: Game) returns (successors: seq<Game>)
    ensures successors == PlacementsBelow(g, |g.board|)
  {
    successors := [];
    for i := 0 to 24
      invariant successors == PlacementsBelow(g, i)
    {
      if g.board[i] == Empty {
        var states := PlaceOn(g, i);
        successors := successors + states;
      }
    }
  }

  /** The moving and flying branch of get_successors: every piece of the
      mover in point order. */
  method MovingSuccessors(g: Game) returns (successors: seq<Game>)
    ensures var ps := Positions(g.board, g.current); successors == SourceMoves(g, ps, |ps|)
  {
    successors := [];
    var positions := Positions(g.board, g.current);
    for k := 0 to |positions|
      invariant successors == SourceMoves(g, positions, k)
    {
      var src := positions[k];
      var destinations := Destinations(g, src);
      var moves := MovesFrom(g, src, destinations);
      successors := successors + moves;
    }
  }

  /** get_successors: placements in point order; otherwise, for each piece
      of the mover in point order, each destination in list order. */
  method GetSuccessors(g: Game) returns (successors: seq<Game>)
    ensures successors == Successors(g)
  {
    if g.phase == Placing {
      successors := PlacingSuccessors(g);
    } else {
      successors := MovingSuccessors(g);
    }
  }

  /** Capturing the piece on r takes one piece from its owner and leaves
      the other player's count alone. */
  lemma CaptureCounts(h: Game, r: Point)
    requires Consistent(h) && h.board[r] != Empty
    ensures OnBoard(RemovePiece(h, r), h.board[r]) == OnBoard(h, h.board[r]) - 1
    ensures OnBoard(RemovePiece(h, r), Other(h.board[r])) == OnBoard(h, Other(h.board[r]))
  {
    var b := h.board;
    assert multiset(b[r := Empty]) == multiset(b) - multiset{b[r]} + multiset{Empty};
  }

  /** The capture list holds, in order, the state with rs[k] removed for
      each k below n. */
  lemma {:induction false} CapturesBelowShape(h: Game, rs: seq<Point>, n: nat)
    requires n <= |rs|
    ensures |CapturesBelow(h, rs, n)| == n
    ensures forall k :: 0 <= k < n ==> CapturesBelow(h, rs, n)[k] == RemovePiece(h, rs[k])
  {
    if n > 0 {
      CapturesBelowShape(h, rs, n - 1);
    }
  }

  /** When some piece of the player to move is in no mill, the removable
      list is those pieces, and they are exactly the capturable ones. */
  lemma RemovableUnmilled(h: Game)
    requires |UnmilledBelow(h.board, h.current, |h.board|)| > 0
    ensures forall r: Point :: r in Removable(h) <==> CanRemove(h, r)
  {
    var free := UnmilledBelow(h.board, h.current, |h.board|);
    UnmilledBelowSpec(h.board, h.current, |h.board|);
    assert free[0] in free;
    assert !AllInMills(h.board, h.current);
  }

  /** When every piece of the player to move is in a mill, the removable
      list is all of them, and they are exactly the capturable ones. */
  lemma RemovableAllMilled(h: Game)
    requires |UnmilledBelow(h.board, h.current, |h.board|)| == 0
    ensures forall r: Point :: r in Removable(h) <==> CanRemove(h, r)
  {
    var free := UnmilledBelow(h.board, h.current, |h.board|);
    UnmilledBelowSpec(h.board, h.current, |h.board|);
    PositionsSpec(h.board, h.current);
    forall q | 0 <= q < 24 && h.board[q] == h.current ensures IsPartOfMill(h.board, q) {
      assert q !in free;
    }
  }

  /** A point is in the removable list exactly when the removal rule allows
      capturing its piece; the list is in increasing order. */
  lemma RemovableIff(h: Game)
    ensures forall r: Point :: r in Removable(h) <==> CanRemove(h, r)
    ensures forall j, k :: 0 <= j < k < |Removable(h)| ==> Removable(h)[j] < Removable(h)[k]
  {
    UnmilledBelowSpec(h.board, h.current, |h.board|);
    PositionsSpec(h.board, h.current);
    if |UnmilledBelow(h.board, h.current, |h.board|)| > 0 {
      RemovableUnmilled(h);
    } else {
      RemovableAllMilled(h);
    }
  }

  /** successors_on_mill_closed yields exactly one state per capturable
      piece, in increasing order of its point: the state with only that
      point cleared, the same player to move and the same pieces to place.
      The states are pairwise different. */
  lemma MillCapturesSpec(h: Game)
    ensures |MillCaptures(h)| == |Removable(h)|
    ensures forall k :: 0 <= k < |MillCaptures(h)| ==>
              CanRemove(h, Removable(h)[k]) && MillCaptures(h)[k] == RemovePiece(h, Removable(h)[k])
    ensures forall j, k :: 0 <= j < k < |MillCaptures(h)| ==> MillCaptures(h)[j] != MillCaptures(h)[k]
  {
    var rs := Removable(h);
    CapturesBelowShape(h, rs, |rs|);
    RemovableIff(h);
    assert MillCaptures(h) == CapturesBelow(h, rs, |rs|);
    forall j, k | 0 <= j < k < |rs| ensures MillCaptures(h)[j] != MillCaptures(h)[k] {
      assert rs[j] < rs[k] && rs[j] in rs;
      assert CanRemove(h, rs[j]);
      assert MillCaptures(h)[j].board[rs[j]] == Empty;
      assert MillCaptures(h)[k].board == h.board[rs[k] := Empty];
    }
  }

  /** A state is among the captures exactly when it is some allowed capture. */
  lemma MillCapturesIff(h: Game, s: Game)
    ensures s in MillCaptures(h) <==> exists r: Point :: CanRemove(h, r) && s == RemovePiece(h, r)
  {
    MillCapturesSpec(h);
    RemovableIff(h);
    var rs := Removable(h);
    if s in MillCaptures(h) {
      var k :| 0 <= k < |MillCaptures(h)| && MillCaptures(h)[k] == s;
      assert CanRemove(h, rs[k]) && s == RemovePiece(h, rs[k]);
    }
    if exists r: Point :: CanRemove(h, r) && s == RemovePiece(h, r) {
      var r: Point :| CanRemove(h, r) && s == RemovePiece(h, r);
      var k :| 0 <= k < |rs| && rs[k] == r;
      assert MillCaptures(h)[k] == s;
    }
  }

  /** When the player who must give up a piece has none on the board, a
      closed mill leaves no successor at all. */
  lemma NoCaptureWithoutPieces(h: Game)
    requires forall i :: 0 <= i < 24 ==> h.board[i] != h.current
    ensures MillCaptures(h) == []
  {
    MillCapturesSpec(h);
    RemovableIff(h);
  }

  /** What a placement or move ending on pos leads to: the state itself when
      no mill closes there, otherwise each allowed capture. */
  lemma AfterMoveIff(h: Game, pos: Point, s: Game)
    requires h.board[pos] != Empty
    ensures s in AfterMove(h, pos) <==>
              (!IsPartOfMill(h.board, pos) && s == h) ||
              (IsPartOfMill(h.board, pos) && exists r: Point :: CanRemove(h, r) && s == RemovePiece(h, r))
  {
    MillCapturesIff(h, s);
  }

  lemma {:induction false} PlacementsBelowIff(g: Game, n: nat, s: Game)
    requires n <= 24
    ensures s in PlacementsBelow(g, n) <==>
              exists i: Point {:trigger PlaceAt(g, i)} :: i < n && g.board[i] == Empty && s in AfterMove(PlaceAt(g, i), i)
  {
    if n > 0 {
      PlacementsBelowIff(g, n - 1, s);
      var j: Point := n - 1;
      if s in PlacementsBelow(g, n) && s !in PlacementsBelow(g, n - 1) {
        assert g.board[j] == Empty && s in AfterMove(PlaceAt(g, j), j);
      }
      if exists i: Point {:trigger PlaceAt(g, i)} :: i < n && g.board[i] == Empty && s in AfterMove(PlaceAt(g, i), i) {
        var i: Point :| i < n && g.board[i] == Empty && s in AfterMove(PlaceAt(g, i), i);
        if i == j {
          assert s in PlacementsBelow(g, n);
        }
      }
    }
  }

  /** Moving the mover's piece from src to the empty point dst leads to s. */
  predicate MoveLeadsTo(g: Game, src: Point, dst: Point, s: Game)
  {
    g.board[dst] == Empty && s in AfterMove(MoveTo(g, src, dst), dst)
  }

  /** A prefix is the shorter prefix plus one more element. */
  lemma PrefixSnoc(xs: seq<Point>, m: nat)
    requires 0 < m <= |xs|
    ensures xs[..m] == xs[..m - 1] + [xs[m - 1]]
  {
  }

  /** The moves of src to ds[..m] lead exactly to what moving src to one
      of those points leads to. */
  lemma {:induction false} DestinationMovesIff(g: Game, src: Point, ds: seq<Point>, m: nat, s: Game)
    requires m <= |ds|
    ensures s in DestinationMoves(g, src, ds, m) <==>
              exists dst: Point {:trigger MoveLeadsTo(g, src, dst, s)} :: dst in ds[..m] && MoveLeadsTo(g, src, dst, s)
  {
    if m > 0 {
      var d := ds[m - 1];
      assert s in DestinationMoves(g, src, ds, m) ==>
             exists dst: Point {:trigger MoveLeadsTo(g, src, dst, s)} :: dst in ds[..m] && MoveLeadsTo(g, src, dst, s)
      by {
        DestinationMovesIff(g, src, ds, m - 1, s);
        PrefixSnoc(ds, m);
        if s in DestinationMoves(g, src, ds, m) && s !in DestinationMoves(g, src, ds, m - 1) {
          assert d in ds[..m] && MoveLeadsTo(g, src, d, s);
        }
      }
      assert (exists dst: Point {:trigger MoveLeadsTo(g, src, dst, s)} :: dst in ds[..m] && MoveLeadsTo(g, src, dst, s)) ==>
             s in DestinationMoves(g, src, ds, m)
      by {
        if exists dst: Point {:trigger MoveLeadsTo(g, src, dst, s)} :: dst in ds[..m] && MoveLeadsTo(g, src, dst, s) {
          var dst: Point :| dst in ds[..m] && MoveLeadsTo(g, src, dst, s);
          PrefixSnoc(ds, m);
          if dst == d {
            var after := AfterMove(MoveTo(g, src, d), d);
            assert g.board[d] == Empty && s in after;
            assert DestinationMoves(g, src, ds, m) == DestinationMoves(g, src, ds, m - 1) + after;
          } else {
            assert dst in ds[..m - 1];
            DestinationMovesIff(g, src, ds, m - 1, s);
          }
        }
      }
    }
  }

  /** Every state among the moves of the pieces on ps[..n] comes from
      moving one of those pieces to one of its destinations. */
  lemma {:induction false} SourceMovesSound(g: Game, ps: seq<Point>, n: nat, s: Game)
    requires n <= |ps|
    ensures s in SourceMoves(g, ps, n) ==>
              exists src: Point, dst: Point {:trigger MoveLeadsTo(g, src, dst, s)} ::
                src in ps[..n] && dst in Destinations(g, src) && MoveLeadsTo(g, src, dst, s)
  {
    if n > 0 && s in SourceMoves(g, ps, n) {
      var p := ps[n - 1];
      var ds := Destinations(g, p);
      PrefixSnoc(ps, n);
      if s in SourceMoves(g, ps, n - 1) {
        SourceMovesSound(g, ps, n - 1, s);
        var src: Point, dst: Point :| src in ps[..n - 1] && dst in Destinations(g, src) && MoveLeadsTo(g, src, dst, s);
        assert src in ps[..n];
      } else {
        DestinationMovesIff(g, p, ds, |ds|, s);
        assert ds[..|ds|] == ds;
        var dst: Point :| dst in ds && MoveLeadsTo(g, p, dst, s);
        assert p in ps[..n];
      }
    }
  }

  /** Moving one of the pieces on ps[..n] to one of its destinations gives
      a state among their moves. */
  lemma SourceMovesComplete(g: Game, ps: seq<Point>, n: nat, s: Game, src: Point, dst: Point)
    requires n <= |ps|
    requires src in ps[..n] && dst in Destinations(g, src) && MoveLeadsTo(g, src, dst, s)
    ensures s in SourceMoves(g, ps, n)
  {
    DestinationMoveIn(g, src, dst, s);
    var i :| 0 <= i < n && ps[..n][i] == src;
    SourceMovesHas(g, ps, n, s, i);
  }

  /** A state among the moves of the piece on ps[i] is among the moves of
      the pieces on ps[..n], for i < n. */
  lemma {:induction false} SourceMovesHas(g: Game, ps: seq<Point>, n: nat, s: Game, i: nat)
    requires i < n <= |ps|
    requires s in DestinationMoves(g, ps[i], Destinations(g, ps[i]), |Destinations(g, ps[i])|)
    ensures s in SourceMoves(g, ps, n)
  {
    if i < n - 1 {
      SourceMovesHas(g, ps, n - 1, s, i);
    }
  }

  /** Moving src to one of its destinations gives a state among src's moves. */
  lemma DestinationMoveIn(g: Game, src: Point, dst: Point, s: Game)
    requires dst in Destinations(g, src) && MoveLeadsTo(g, src, dst, s)
    ensures s in DestinationMoves(g, src, Destinations(g, src), |Destinations(g, src)|)
  {
    var ds := Destinations(g, src);
    DestinationMovesIff(g, src, ds, |ds|, s);
    assert ds[..|ds|] == ds;
  }

  /** The successors of a moving or flying state lead exactly to what moving
      one of the mover's pieces to one of its destinations leads to. */
  lemma SuccessorsIffMoves(g: Game, s: Game)
    requires g.phase != Placing
    ensures s in Successors(g) <==>
              exists src: Point, dst: Point {:trigger MoveLeadsTo(g, src, dst, s)} ::
                g.board[src] == g.current && dst in Destinations(g, src) && MoveLeadsTo(g, src, dst, s)
  {
    var ps := Positions(g.board, g.current);
    PositionsSpec(g.board, g.current);
    assert ps[..|ps|] == ps;
    SourceMovesSound(g, ps, |ps|, s);
    if exists src: Point, dst: Point {:trigger MoveLeadsTo(g, src, dst, s)} ::
         g.board[src] == g.current && dst in Destinations(g, src) && MoveLeadsTo(g, src, dst, s) {
      var src: Point, dst: Point :| g.board[src] == g.current && dst in Destinations(g, src) && MoveLeadsTo(g, src, dst, s);
      SourceMovesComplete(g, ps, |ps|, s, src, dst);
    }
  }

  /** In the placing phase the successors are, for each empty point i, what
      placing the mover's piece on i leads to. */
  lemma PlacingSuccessorsIff(g: Game, s: Game)
    requires g.phase == Placing
    ensures s in Successors(g) <==>
              exists i: Point {:trigger PlaceAt(g, i)} :: g.board[i] == Empty && s in AfterMove(PlaceAt(g, i), i)
  {
    PlacementsBelowIff(g, |g.board|, s);
  }

  /** In the moving phase the successors are, for each piece of the mover
      and each empty neighbour of it, what moving that piece there leads to. */
  lemma MovingSuccessorsIff(g: Game, s: Game)
    requires g.phase == Moving
    ensures s in Successors(g) <==>
              exists src: Point, dst: Point {:trigger MoveLeadsTo(g, src, dst, s)} ::
                g.board[src] == g.current && dst in Adjacent[src] && MoveLeadsTo(g, src, dst, s)
  {
    SuccessorsIffMoves(g, s);
  }

  /** In the flying phase the successors are, for each piece of the mover
      and each empty point anywhere, what moving that piece there leads to. */
  lemma FlyingSuccessorsIff(g: Game, s: Game)
    requires g.phase == Flying
    ensures s in Successors(g) <==>
              exists src: Point, dst: Point {:trigger MoveLeadsTo(g, src, dst, s)} ::
                g.board[src] == g.current && MoveLeadsTo(g, src, dst, s)
  {
    SuccessorsIffMoves(g, s);
    PositionsSpec(g.board, Empty);
  }

  /** What follows a move keeps the player to move and is a consistent state. */
  lemma AfterMoveTurn(h: Game, pos: Point, s: Game)
    requires h.board[pos] != Empty && Consistent(h)
    requires s in AfterMove(h, pos)
    ensures s.current == h.current && Consistent(s)
  {
    AfterMoveIff(h, pos, s);
    if s != h {
      var r: Point :| CanRemove(h, r) && s == RemovePiece(h, r);
      NewGameSpec(h.board[r := Empty], h.current, h.toPlaceMax, h.toPlaceMin);
    }
  }

  /** Every successor is a consistent state with the other player to move:
      the turn passes after each placement or move, capture included. */
  lemma SuccessorTurn(g: Game, s: Game)
    requires s in Successors(g)
    ensures s.current == Other(g.current) && Consistent(s)
  {
    if g.phase == Placing {
      PlacingSuccessorsIff(g, s);
      var i: Point :| g.board[i] == Empty && s in AfterMove(PlaceAt(g, i), i);
      var h := PlaceAt(g, i);
      NewGameSpec(h.board, h.current, h.toPlaceMax, h.toPlaceMin);
      AfterMoveTurn(h, i, s);
    } else {
      SuccessorsIffMoves(g, s);
      var src: Point, dst: Point :| g.board[src] == g.current && dst in Destinations(g, src) && MoveLeadsTo(g, src, dst, s);
      var h := MoveTo(g, src, dst);
      NewGameSpec(h.board, h.current, 0, 0);
      AfterMoveTurn(h, dst, s);
    }
  }
}
