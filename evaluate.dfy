/** The heuristic of NineMensMorris.evaluate: mills, blocked pieces, two-
    and three-piece configurations and double mills of each player, weighted
    by a table chosen by the phase, plus a bonus for a won position. */
module Evaluation {
  import opened Board
  import opened Game

  /** Mills[..n] filled by p (count_mills sums this over all 16 mills). */
  function MillsBelow(b: Board, p: Player, n: nat): nat
    requires n <= |Mills|
  {
    if n == 0 then 0
    else MillsBelow(b, p, n - 1) + (if MillFilled(b, Mills[n - 1], p) then 1 else 0)
  }

  /** count_mills(player) */
  function CountMills(b: Board, p: Player): nat
  {
    MillsBelow(b, p, |Mills|)
  }

  /** Some mill among Mills[..n] is filled by p exactly when the count
      below n is positive, and the count never exceeds n. */
  lemma {:induction false} MillsBelowSpec(b: Board, p: Player, n: nat)
    requires n <= |Mills|
    ensures MillsBelow(b, p, n) <= n
    ensures MillsBelow(b, p, n) > 0 <==> exists m :: 0 <= m < n && MillFilled(b, Mills[m], p)
  {
    if n > 0 {
      MillsBelowSpec(b, p, n - 1);
    }
  }

  /** count_mills(p) is positive exactly when some piece of p is part of a
      mill in the sense of is_part_of_mill. */
  lemma CountMillsIff(b: Board, p: Player)
    ensures CountMills(b, p) <= 16
    ensures CountMills(b, p) > 0 <==> exists pos: Point :: b[pos] == p && IsPartOfMill(b, pos)
  {
    MillsBelowSpec(b, p, |Mills|);
    if CountMills(b, p) > 0 {
      var m :| 0 <= m < |Mills| && MillFilled(b, Mills[m], p);
      var pos := Mills[m].0;
      assert OnMill(pos, Mills[m]);
      assert b[pos] == p && IsPartOfMill(b, pos);
    }
    if exists pos: Point :: b[pos] == p && IsPartOfMill(b, pos) {
      var pos: Point :| b[pos] == p && IsPartOfMill(b, pos);
      var m :| 0 <= m < |Mills| && OnMill(pos, Mills[m]) && MillFilled(b, Mills[m], b[pos]);
      assert MillFilled(b, Mills[m], p);
    }
  }

  /** Every neighbour of pos is occupied (the `all(...)` of
      count_blocked_pieces). */
  predicate Blocked(b: Board, pos: Point)
  {
    forall k :: 0 <= k < |Adjacent[pos]| ==> b[Adjacent[pos][k]] != Empty
  }

  /** The blocked pieces of p on the points below n. */
  function BlockedBelow(b: Board, p: Player, n: nat): nat
    requires n <= 24
  {
    if n == 0 then 0
    else BlockedBelow(b, p, n - 1) + (if b[n - 1] == p && Blocked(b, n - 1) then 1 else 0)
  }

  /** count_blocked_pieces(player): nothing is blocked while flying. */
  function CountBlocked(g: Game, p: Player): nat
  {
    if g.phase == Flying then 0 else BlockedBelow(g.board, p, 24)
  }

  /** At most every piece of p below n is blocked, and all of them are
      exactly when none of them has an empty neighbour. */
  lemma BlockedBelowSpec(b: Board, p: Player, n: nat)
    requires n <= 24
    ensures BlockedBelow(b, p, n) <= |PositionsBelow(b, p, n)|
    ensures BlockedBelow(b, p, n) == |PositionsBelow(b, p, n)| <==>
              forall src :: 0 <= src < n && b[src] == p ==> Blocked(b, src)
  {
    BlockedBelowBound(b, p, n);
    BlockedBelowAll(b, p, n);
  }

  /** At most every piece of p below n is blocked. */
  lemma {:induction false} BlockedBelowBound(b: Board, p: Player, n: nat)
    requires n <= 24
    ensures BlockedBelow(b, p, n) <= |PositionsBelow(b, p, n)|
  {
    if n > 0 {
      BlockedBelowBound(b, p, n - 1);
    }
  }

  /** Every piece of p below n is blocked exactly when the count reaches
      the number of pieces. */
  lemma BlockedBelowAll(b: Board, p: Player, n: nat)
    requires n <= 24
    ensures BlockedBelow(b, p, n) == |PositionsBelow(b, p, n)| <==>
              forall src :: 0 <= src < n && b[src] == p ==> Blocked(b, src)
  {
    AllBlockedIfCount(b, p, n);
    CountIfAllBlocked(b, p, n);
  }

  /** A full count means every piece below n is blocked. */
  lemma {:induction false} AllBlockedIfCount(b: Board, p: Player, n: nat)
    requires n <= 24
    ensures BlockedBelow(b, p, n) == |PositionsBelow(b, p, n)| ==>
              forall src :: 0 <= src < n && b[src] == p ==> Blocked(b, src)
  {
    if n > 0 && BlockedBelow(b, p, n) == |PositionsBelow(b, p, n)| {
      BlockedBelowBound(b, p, n - 1);
      AllBlockedIfCount(b, p, n - 1);
    }
  }

  /** When every piece below n is blocked, the count is full. */
  lemma {:induction false} CountIfAllBlocked(b: Board, p: Player, n: nat)
    requires n <= 24
    ensures (forall src :: 0 <= src < n && b[src] == p ==> Blocked(b, src)) ==>
              BlockedBelow(b, p, n) == |PositionsBelow(b, p, n)|
  {
    if n > 0 && forall src :: 0 <= src < n && b[src] == p ==> Blocked(b, src) {
      CountIfAllBlocked(b, p, n - 1);
    }
  }

  /** In the moving phase a player has no valid move exactly when every
      one of its pieces is blocked: count_blocked_pieces and has_valid_moves
      agree. The blocked count never exceeds the pieces on the board. */
  lemma BlockedIffStuck(g: Game, p: Player)
    requires Consistent(g)
    ensures CountBlocked(g, p) <= OnBoard(g, p)
    ensures PhaseOf(g) == Moving ==> (CountBlocked(g, p) == OnBoard(g, p) <==> !ValidMovesExist(g, p))
  {
    var b := g.board;
    BlockedBelowSpec(b, p, 24);
    PositionsCount(b, p);
    if PhaseOf(g) == Moving {
      assert CountBlocked(g, p) == BlockedBelow(b, p, 24);
      if ValidMovesExist(g, p) {
        var src, dst :| 0 <= src < 24 && b[src] == p && dst in Adjacent[src] && b[dst] == Empty;
        var k :| 0 <= k < |Adjacent[src]| && Adjacent[src][k] == dst;
        assert !Blocked(b, src);
      } else {
        forall src | 0 <= src < 24 && b[src] == p ensures Blocked(b, src) {
          forall k | 0 <= k < |Adjacent[src]| ensures b[Adjacent[src][k]] != Empty {
            assert Adjacent[src][k] in Adjacent[src];
          }
        }
      }
    }
  }

  /** `sum(1 for p in mill if board[p] == c)`: the points of m holding c. */
  function OwnedOn(b: Board, m: Mill, c: Cell): nat
  {
    (if b[m.0] == c then 1 else 0) + (if b[m.1] == c then 1 else 0) + (if b[m.2] == c then 1 else 0)
  }

  /** A two-piece configuration of p: two points of m hold p, the third is empty. */
  predicate TwoPieceConfig(b: Board, m: Mill, p: Player)
  {
    OwnedOn(b, m, p) == 2 && OwnedOn(b, m, Empty) == 1
  }

  /** The points of m holding p (`seen.update(...)`). */
  function PiecesOn(b: Board, m: Mill, p: Player): set<Point>
  {
    (if b[m.0] == p then {m.0} else {}) + (if b[m.1] == p then {m.1} else {}) + (if b[m.2] == p then {m.2} else {})
  }

  /** PiecesOn(b, m, p) holds exactly the points of m that hold p. */
  lemma PiecesOnIff(b: Board, m: Mill, p: Player, q: Point)
    ensures q in PiecesOn(b, m, p) <==> OnMill(q, m) && b[q] == p
  {
  }

  /** Some piece of p on m was already seen on an earlier configuration. */
  predicate SharesSeen(b: Board, m: Mill, p: Player, seen: set<Point>)
  {
    (b[m.0] == p && m.0 in seen) || (b[m.1] == p && m.1 in seen) || (b[m.2] == p && m.2 in seen)
  }

  /** The test as the source writes it, `any(p for p in mill if ...)`: any()
      looks at the point numbers themselves, and point 0 is false. */
  predicate SharesSeenAsWritten(b: Board, m: Mill, p: Player, seen: set<Point>)
  {
    (m.0 != 0 && b[m.0] == p && m.0 in seen) || (m.1 != 0 && b[m.1] == p && m.1 in seen) ||
    (m.2 != 0 && b[m.2] == p && m.2 in seen)
  }

  /** The counters of count_two_and_three_piece_configs. */
  datatype Configs = Configs(two: nat, three: nat, seen: set<Point>)

  /** One iteration of the loop over the mills, given the outcome of the
      shared-piece test. */
  function Tally(acc: Configs, b: Board, m: Mill, p: Player, shared: bool): Configs
  {
    if TwoPieceConfig(b, m, p) then
      Configs(acc.two + 1, acc.three + (if shared then 1 else 0), acc.seen + PiecesOn(b, m, p))
    else acc
  }

  /** The counters after the mills Mills[..n], as the source computes them. */
  function ConfigsBelowAsWritten(b: Board, p: Player, n: nat): Configs
    requires n <= |Mills|
  {
    if n == 0 then Configs(0, 0, {})
    else
      var acc := ConfigsBelowAsWritten(b, p, n - 1);
      Tally(acc, b, Mills[n - 1], p, SharesSeenAsWritten(b, Mills[n - 1], p, acc.seen))
  }

  /** The counters after the mills Mills[..n], with the shared-piece test
      the loop's comment describes. */
  function ConfigsBelow(b: Board, p: Player, n: nat): Configs
    requires n <= |Mills|
  {
    if n == 0 then Configs(0, 0, {})
    else
      var acc := ConfigsBelow(b, p, n - 1);
      Tally(acc, b, Mills[n - 1], p, SharesSeen(b, Mills[n - 1], p, acc.seen))
  }

  /** The test as written and the intended one meet the same two-piece
      configurations and see the same pieces; the test as written never
      counts more three-piece configurations, and counts the same ones
      when point 0 does not hold a piece of p. */
  lemma {:induction false} ConfigsAsWrittenAgree(b: Board, p: Player, n: nat)
    requires n <= |Mills|
    ensures ConfigsBelowAsWritten(b, p, n).two == ConfigsBelow(b, p, n).two
    ensures ConfigsBelowAsWritten(b, p, n).seen == ConfigsBelow(b, p, n).seen
    ensures ConfigsBelowAsWritten(b, p, n).three <= ConfigsBelow(b, p, n).three
    ensures b[0] != p ==> ConfigsBelowAsWritten(b, p, n) == ConfigsBelow(b, p, n)
  {
    if n > 0 {
      ConfigsAsWrittenAgree(b, p, n - 1);
    }
  }

  /** q lies on a two-piece configuration of p among Mills[..n]. */
  predicate OnTwoPieceBelow(b: Board, p: Player, q: Point, n: nat)
    requires n <= |Mills|
  {
    exists j :: 0 <= j < n && TwoPieceConfig(b, Mills[j], p) && OnMill(q, Mills[j])
  }

  /** Mills j and k are both two-piece configurations of p and share a piece of p. */
  predicate SharePiece(b: Board, p: Player, j: nat, k: nat)
    requires j < |Mills| && k < |Mills|
  {
    && TwoPieceConfig(b, Mills[j], p) && TwoPieceConfig(b, Mills[k], p)
    && exists q: Point :: OnMill(q, Mills[j]) && OnMill(q, Mills[k]) && b[q] == p
  }

  /** The loop counts at most one two-piece configuration per mill, and
      at most one three-piece configuration per two-piece one. */
  lemma {:induction false} ConfigsBelowBounds(b: Board, p: Player, n: nat)
    requires n <= |Mills|
    ensures ConfigsBelow(b, p, n).three <= ConfigsBelow(b, p, n).two <= n
  {
    if n > 0 {
      ConfigsBelowBounds(b, p, n - 1);
    }
  }

  /** The seen set holds exactly the pieces of p that lie on a two-piece
      configuration among Mills[..n]. */
  lemma ConfigsBelowSeen(b: Board, p: Player, n: nat)
    requires n <= |Mills|
    ensures forall q: Point :: q in ConfigsBelow(b, p, n).seen <==> b[q] == p && OnTwoPieceBelow(b, p, q, n)
  {
    forall q: Point ensures q in ConfigsBelow(b, p, n).seen <==> b[q] == p && OnTwoPieceBelow(b, p, q, n) {
      ConfigsBelowSeenAt(b, p, n, q);
    }
  }

  /** ConfigsBelowSeen for one point q, by induction on n. */
  lemma {:induction false} ConfigsBelowSeenAt(b: Board, p: Player, n: nat, q: Point)
    requires n <= |Mills|
    ensures q in ConfigsBelow(b, p, n).seen <==> b[q] == p && OnTwoPieceBelow(b, p, q, n)
  {
    if n > 0 {
      ConfigsBelowSeenAt(b, p, n - 1, q);
      OnTwoPieceStep(b, p, q, n);
      PiecesOnIff(b, Mills[n - 1], p, q);
    }
  }

  /** q lies on a two-piece configuration among Mills[..n] exactly when it
      lies on one among Mills[..n - 1] or on Mills[n - 1], which is one. */
  lemma OnTwoPieceStep(b: Board, p: Player, q: Point, n: nat)
    requires 0 < n <= |Mills|
    ensures OnTwoPieceBelow(b, p, q, n)
            <==> OnTwoPieceBelow(b, p, q, n - 1) || (TwoPieceConfig(b, Mills[n - 1], p) && OnMill(q, Mills[n - 1]))
  {
    if OnTwoPieceBelow(b, p, q, n) && !(TwoPieceConfig(b, Mills[n - 1], p) && OnMill(q, Mills[n - 1])) {
      var j :| 0 <= j < n && TwoPieceConfig(b, Mills[j], p) && OnMill(q, Mills[j]);
      assert j < n - 1;
    }
    if OnTwoPieceBelow(b, p, q, n - 1) {
      var j :| 0 <= j < n - 1 && TwoPieceConfig(b, Mills[j], p) && OnMill(q, Mills[j]);
      assert j < n;
    }
    if TwoPieceConfig(b, Mills[n - 1], p) && OnMill(q, Mills[n - 1]) {
      assert 0 <= n - 1 < n;
    }
  }

  /** The three-piece count is positive exactly when two two-piece
      configurations among Mills[..n] share a piece of p. */
  lemma ConfigsBelowThree(b: Board, p: Player, n: nat)
    requires n <= |Mills|
    ensures ConfigsBelow(b, p, n).three > 0 <==> exists j, k :: 0 <= j < k < n && SharePiece(b, p, j, k)
  {
    ThreeOnlyIfShared(b, p, n);
    ThreeIfShared(b, p, n);
  }

  /** A counted three-piece configuration comes from two two-piece
      configurations sharing a piece. */
  lemma {:induction false} ThreeOnlyIfShared(b: Board, p: Player, n: nat)
    requires n <= |Mills|
    ensures ConfigsBelow(b, p, n).three > 0 ==> exists j, k :: 0 <= j < k < n && SharePiece(b, p, j, k)
  {
    if n > 0 && ConfigsBelow(b, p, n).three > 0 {
      if ConfigsBelow(b, p, n - 1).three > 0 {
        ThreeOnlyIfShared(b, p, n - 1);
        var j, k :| 0 <= j < k < n - 1 && SharePiece(b, p, j, k);
        assert 0 <= j < k < n;
      } else {
        var j := NewThreeShares(b, p, n);
        assert 0 <= j < n - 1 < n && SharePiece(b, p, j, n - 1);
      }
    }
  }

  /** Two two-piece configurations sharing a piece make the three-piece
      count positive. */
  lemma ThreeIfShared(b: Board, p: Player, n: nat)
    requires n <= |Mills|
    ensures (exists j, k :: 0 <= j < k < n && SharePiece(b, p, j, k)) ==> ConfigsBelow(b, p, n).three > 0
  {
    if exists j, k :: 0 <= j < k < n && SharePiece(b, p, j, k) {
      var j, k :| 0 <= j < k < n && SharePiece(b, p, j, k);
      ThreeIfSharedPair(b, p, n, j, k);
    }
  }

  /** ThreeIfShared for one pair j < k of configurations, by induction on n. */
  lemma {:induction false} ThreeIfSharedPair(b: Board, p: Player, n: nat, j: nat, k: nat)
    requires j < k < n <= |Mills| && SharePiece(b, p, j, k)
    ensures ConfigsBelow(b, p, n).three > 0
  {
    ConfigsBelowThreeStep(b, p, n);
    if k < n - 1 {
      ThreeIfSharedPair(b, p, n - 1, j, k);
    } else {
      ShareSeenStep(b, p, n, j);
    }
  }

  /** Mills[n - 1] adds one three-piece configuration when it is a two-piece
      one that passes the shared-piece test, and none otherwise. */
  lemma ConfigsBelowThreeStep(b: Board, p: Player, n: nat)
    requires 0 < n <= |Mills|
    ensures ConfigsBelow(b, p, n).three == ConfigsBelow(b, p, n - 1).three
              + (if TwoPieceConfig(b, Mills[n - 1], p) && SharesSeen(b, Mills[n - 1], p, ConfigsBelow(b, p, n - 1).seen) then 1 else 0)
  {
  }

  /** A three-piece configuration counted at Mills[n - 1] shares a piece of
      p with an earlier two-piece configuration Mills[j]. */
  lemma NewThreeShares(b: Board, p: Player, n: nat) returns (j: nat)
    requires 0 < n <= |Mills|
    requires ConfigsBelow(b, p, n).three > ConfigsBelow(b, p, n - 1).three
    ensures j < n - 1 && SharePiece(b, p, j, n - 1)
  {
    var seen := ConfigsBelow(b, p, n - 1).seen;
    var m := Mills[n - 1];
    assert TwoPieceConfig(b, m, p) && SharesSeen(b, m, p, seen);
    var q: Point := if b[m.0] == p && m.0 in seen then m.0 else if b[m.1] == p && m.1 in seen then m.1 else m.2;
    assert OnMill(q, m) && b[q] == p && q in seen;
    ConfigsBelowSeen(b, p, n - 1);
    assert OnTwoPieceBelow(b, p, q, n - 1);
    j :| 0 <= j < n - 1 && TwoPieceConfig(b, Mills[j], p) && OnMill(q, Mills[j]);
  }

  /** A two-piece configuration Mills[n - 1] that shares a piece of p with
      an earlier one Mills[j] passes the shared-piece test. */
  lemma ShareSeenStep(b: Board, p: Player, n: nat, j: nat)
    requires 0 <= j < n - 1 && n <= |Mills| && SharePiece(b, p, j, n - 1)
    ensures TwoPieceConfig(b, Mills[n - 1], p) && SharesSeen(b, Mills[n - 1], p, ConfigsBelow(b, p, n - 1).seen)
  {
    var m := Mills[n - 1];
    var seen := ConfigsBelow(b, p, n - 1).seen;
    var q: Point :| OnMill(q, Mills[j]) && OnMill(q, m) && b[q] == p;
    assert OnTwoPieceBelow(b, p, q, n - 1);
    ConfigsBelowSeen(b, p, n - 1);
    assert q in seen;
  }

  /** The counters over all 16 mills. */
  function TwoAndThree(b: Board, p: Player): Configs
  {
    ConfigsBelow(b, p, |Mills|)
  }

  /** X on points 0, 1 and 9, everything else empty: the mills (0, 1, 2)
      and (0, 9, 21) are two-piece configurations sharing point 0. */
  const PointZeroBoard: Board :=
    [X, X, Empty, Empty, Empty, Empty, Empty, Empty, Empty, X, Empty, Empty,
     Empty, Empty, Empty, Empty, Empty, Empty, Empty, Empty, Empty, Empty, Empty, Empty]

  /** As written, a piece shared on point 0 never counts as a three-piece
      configuration: on PointZeroBoard the source finds two two-piece
      configurations sharing a piece of X and still reports no three-piece
      one, where the corrected count finds one. */
  lemma PointZeroNeverShared()
    ensures SharePiece(PointZeroBoard, X, 0, 8)
    ensures ConfigsBelowAsWritten(PointZeroBoard, X, |Mills|) == Configs(2, 0, {0, 1, 9})
    ensures TwoAndThree(PointZeroBoard, X) == Configs(2, 1, {0, 1, 9})
  {
    var b := PointZeroBoard;
    assert OnMill(0, Mills[0]) && OnMill(0, Mills[8]);
    assert ConfigsBelowAsWritten(b, X, 1) == Configs(1, 0, {0, 1});
    assert ConfigsBelowAsWritten(b, X, 8) == Configs(1, 0, {0, 1});
    assert ConfigsBelowAsWritten(b, X, 9) == Configs(2, 0, {0, 1, 9});
    assert ConfigsBelowAsWritten(b, X, 16) == Configs(2, 0, {0, 1, 9});
    assert ConfigsBelow(b, X, 1) == Configs(1, 0, {0, 1});
    assert ConfigsBelow(b, X, 8) == Configs(1, 0, {0, 1});
    assert ConfigsBelow(b, X, 9) == Configs(2, 1, {0, 1, 9});
    assert ConfigsBelow(b, X, 16) == Configs(2, 1, {0, 1, 9});
  }

  /** count_two_and_three_piece_configs(player): one pass over the mills
      with a set of the pieces already seen on a two-piece configuration. */
  method CountTwoAndThreePieceConfigs(b: Board, player: Player) returns (twoPiece: nat, threePiece: nat)
    ensures twoPiece == TwoAndThree(b, player).two && threePiece == TwoAndThree(b, player).three
    ensures threePiece <= twoPiece <= 16
    ensures threePiece > 0 <==> exists j, k :: 0 <= j < k < 16 && SharePiece(b, player, j, k)
  {
    twoPiece, threePiece := 0, 0;
    var seen: set<Point> := {};
    for k := 0 to |Mills|
      invariant Configs(twoPiece, threePiece, seen) == ConfigsBelow(b, player, k)
    {
      var mill := Mills[k];
      if OwnedOn(b, mill, player) == 2 && OwnedOn(b, mill, Empty) == 1 {
        twoPiece := twoPiece + 1;
        threePiece := threePiece + (if SharesSeen(b, mill, player, seen) then 1 else 0);
        seen := seen + PiecesOn(b, mill, player);
      }
    }
    ConfigsBelowBounds(b, player, |Mills|);
    ConfigsBelowThree(b, player, |Mills|);
  }

  /** The mills among Mills[..n] through pos that p fills (mill_count). */
  function MillsThrough(b: Board, pos: Point, p: Player, n: nat): nat
    requires n <= |Mills|
  {
    if n == 0 then 0
    else MillsThrough(b, pos, p, n - 1) + (if OnMill(pos, Mills[n - 1]) && MillFilled(b, Mills[n - 1], p) then 1 else 0)
  }

  /** A filled mill through pos holds p on pos, and the mills through pos
      are among all the mills p fills. */
  lemma {:induction false} MillsThroughSpec(b: Board, pos: Point, p: Player, n: nat)
    requires n <= |Mills|
    ensures MillsThrough(b, pos, p, n) <= MillsBelow(b, p, n)
    ensures MillsThrough(b, pos, p, n) > 0 ==> b[pos] == p
  {
    if n > 0 {
      MillsThroughSpec(b, pos, p, n - 1);
    }
  }

  /** The points of ps[..k] on more than one mill of p. */
  function DoubleMillsIn(b: Board, p: Player, ps: seq<Point>, k: nat): nat
    requires k <= |ps|
  {
    if k == 0 then 0
    else DoubleMillsIn(b, p, ps, k - 1) + (if MillsThrough(b, ps[k - 1], p, |Mills|) > 1 then 1 else 0)
  }

  /** count_double_mills(player), over the points holding p in order. */
  function DoubleMills(b: Board, p: Player): nat
  {
    var ps := Positions(b, p);
    DoubleMillsIn(b, p, ps, |ps|)
  }

  /** At most one point of ps[..k] per index is counted, and the count is
      positive exactly when one of them lies on more than one mill of p. */
  lemma {:induction false} DoubleMillsInSpec(b: Board, p: Player, ps: seq<Point>, k: nat)
    requires k <= |ps|
    ensures DoubleMillsIn(b, p, ps, k) <= k
    ensures DoubleMillsIn(b, p, ps, k) > 0 <==> exists i :: 0 <= i < k && MillsThrough(b, ps[i], p, |Mills|) > 1
  {
    if k > 0 {
      DoubleMillsInSpec(b, p, ps, k - 1);
    }
  }

  /** count_double_mills(p) counts at most the pieces of p, is positive
      exactly when some piece of p lies on two filled mills of p, and then
      p has at least two mills. */
  lemma DoubleMillsIff(b: Board, p: Player)
    ensures DoubleMills(b, p) <= multiset(b)[p]
    ensures DoubleMills(b, p) > 0 <==> exists pos: Point :: b[pos] == p && MillsThrough(b, pos, p, 16) >= 2
    ensures DoubleMills(b, p) > 0 ==> CountMills(b, p) >= 2
  {
    var ps := Positions(b, p);
    PositionsSpec(b, p);
    PositionsCount(b, p);
    DoubleMillsInSpec(b, p, ps, |ps|);
    if DoubleMills(b, p) > 0 {
      var i :| 0 <= i < |ps| && MillsThrough(b, ps[i], p, |Mills|) > 1;
      assert ps[i] in ps;
      MillsThroughSpec(b, ps[i], p, |Mills|);
    }
    if exists pos: Point :: b[pos] == p && MillsThrough(b, pos, p, 16) >= 2 {
      var pos: Point :| b[pos] == p && MillsThrough(b, pos, p, 16) >= 2;
      assert pos in ps;
      var i :| 0 <= i < |ps| && ps[i] == pos;
      assert MillsThrough(b, ps[i], p, |Mills|) > 1;
    }
  }

  /** count_double_mills: the loop over the points holding player. */
  method CountDoubleMills(b: Board, player: Player) returns (count: nat)
    ensures count == DoubleMills(b, player)
  {
    var sharedPositions := Positions(b, player);
    count := 0;
    for k := 0 to |sharedPositions|
      invariant count == DoubleMillsIn(b, player, sharedPositions, k)
    {
      var pos := sharedPositions[k];
      var millCount := MillsThrough(b, pos, player, |Mills|);
      if millCount > 1 {
        count := count + 1;
      }
    }
  }

  /** One row of the weight table. */
  datatype Weights = Weights(
    mill: int, blocked: int, twoPiece: int, threePiece: int,
    doubleMill: int, pieceCount: int, win: int)

  /** The weight table, by phase: each weight scales one difference taken
      in MAX's favour (for blocked pieces, MIN's blocked count minus MAX's),
      and a win is worth something only once placing is over. */
  function PhaseWeights(phase: Phase): (w: Weights)
    ensures w.win > 0 <==> phase != Placing
  {
    match phase
    case Placing => Weights(26, 1, 10, 7, 7, 9, 0)
    case Moving => Weights(43, 10, 0, 0, 8, 11, 1086)
    case Flying => Weights(0, 0, 10, 1, 25, 0, 1190)
  }

  /** is_losing(player) */
  method IsLosing(g: Game, player: Player) returns (losing: bool)
    ensures losing <==> OnBoard(g, player) + ToPlace(g, player) < 3 || !ValidMovesExist(g, player)
  {
    if OnBoard(g, player) + ToPlace(g, player) < 3 {
      return true;
    }
    var valid := HasValidMoves(g, player);
    losing := !valid;
  }

  /** The six weighted differences, MAX's count minus MIN's (for blocked
      pieces, MIN's minus MAX's). */
  function Material(g: Game): int
  {
    var b := g.board;
    var w := PhaseWeights(g.phase);
    var cmax := TwoAndThree(b, MaxPlayer);
    var cmin := TwoAndThree(b, MinPlayer);
    w.mill * (CountMills(b, MaxPlayer) - CountMills(b, MinPlayer))
    + w.blocked * (CountBlocked(g, MinPlayer) - CountBlocked(g, MaxPlayer))
    + w.twoPiece * (cmax.two - cmin.two)
    + w.threePiece * (cmax.three - cmin.three)
    + w.doubleMill * (DoubleMills(b, MaxPlayer) - DoubleMills(b, MinPlayer))
    + w.pieceCount * (g.onBoardMax - g.onBoardMin)
  }

  /** evaluate(): the material terms, plus the win weight when MIN is
      losing, minus it when only MAX is. */
  function Score(g: Game): int
  {
    var win := PhaseWeights(g.phase).win;
    Material(g) + (if Losing(g, MinPlayer) then win else if Losing(g, MaxPlayer) then -win else 0)
  }

  /** The win bonus: while placing it is always zero; otherwise a state
      where MIN is losing scores the phase's win weight above its material,
      and one where only MAX is losing that much below. */
  lemma WinBonus(g: Game)
    ensures g.phase == Placing ==> Score(g) == Material(g)
    ensures g.phase == Moving && Losing(g, MinPlayer) ==> Score(g) == Material(g) + 1086
    ensures g.phase == Flying && Losing(g, MinPlayer) ==> Score(g) == Material(g) + 1190
    ensures g.phase == Moving && !Losing(g, MinPlayer) && Losing(g, MaxPlayer) ==> Score(g) == Material(g) - 1086
    ensures g.phase == Flying && !Losing(g, MinPlayer) && Losing(g, MaxPlayer) ==> Score(g) == Material(g) - 1190
    ensures !Losing(g, MinPlayer) && !Losing(g, MaxPlayer) ==> Score(g) == Material(g)
  {
  }

  /** evaluate: the score accumulated term by term. */
  method Evaluate(g: Game) returns (score: int)
    ensures score == Score(g)
  {
    var b := g.board;
    var weightsUsed := PhaseWeights(g.phase);
    score := 0;
    score := score + weightsUsed.mill * (CountMills(b, MaxPlayer) - CountMills(b, MinPlayer));
    score := score + weightsUsed.blocked * (CountBlocked(g, MinPlayer) - CountBlocked(g, MaxPlayer));
    var twoPieceMax, threePieceMax := CountTwoAndThreePieceConfigs(b, MaxPlayer);
    var twoPieceMin, threePieceMin := CountTwoAndThreePieceConfigs(b, MinPlayer);
    score := score + weightsUsed.twoPiece * (twoPieceMax as int - twoPieceMin);
    score := score + weightsUsed.threePiece * (threePieceMax as int - threePieceMin);
    var doubleMax := CountDoubleMills(b, MaxPlayer);
    var doubleMin := CountDoubleMills(b, MinPlayer);
    score := score + weightsUsed.doubleMill * (doubleMax as int - doubleMin);
    score := score + weightsUsed.pieceCount * (OnBoard(g, MaxPlayer) - OnBoard(g, MinPlayer));
    var minLosing := IsLosing(g, MinPlayer);
    if minLosing {
      score := score + weightsUsed.win;
    } else {
      var maxLosing := IsLosing(g, MaxPlayer);
      if maxLosing {
        score := score - weightsUsed.win;
      }
    }
  }

  /** The same position seen from the other side: X and O exchanged on the
      board, in the player to move and in every per-player count. */
  function SwapGame(g: Game): (h: Game)
    ensures h.board == SwapBoard(g.board) && h.current == Other(g.current)
    ensures ToPlace(h, X) == ToPlace(g, O) && ToPlace(h, O) == ToPlace(g, X)
    ensures OnBoard(h, X) == OnBoard(g, O) && OnBoard(h, O) == OnBoard(g, X)
  {
    Game(SwapBoard(g.board), Other(g.current), g.toPlaceMin, g.toPlaceMax, g.onBoardMin, g.onBoardMax, g.phase)
  }

  /** Swapping twice gives the state back, and a swapped constructed state
      is consistent again. */
  lemma SwapGameSpec(g: Game)
    ensures SwapGame(SwapGame(g)) == g
    ensures Consistent(g) ==> Consistent(SwapGame(g))
  {
    SwapBoardTwice(g.board);
    var b := g.board;
    PositionsBelowSwap(b, X, 24);
    PositionsBelowSwap(b, O, 24);
    PositionsCount(b, X);
    PositionsCount(b, O);
    PositionsCount(SwapBoard(b), X);
    PositionsCount(SwapBoard(b), O);
  }

  /** The mills counted for p are those counted for the other player on the
      swapped board. */
  lemma {:induction false} MillsBelowSwap(b: Board, p: Player, n: nat)
    requires n <= |Mills|
    ensures MillsBelow(SwapBoard(b), Other(p), n) == MillsBelow(b, p, n)
  {
    if n > 0 {
      MillsBelowSwap(b, p, n - 1);
    }
  }

  /** The blocked pieces counted for p are those counted for the other
      player on the swapped board. */
  lemma {:induction false} BlockedBelowSwap(b: Board, p: Player, n: nat)
    requires n <= 24
    ensures BlockedBelow(SwapBoard(b), Other(p), n) == BlockedBelow(b, p, n)
  {
    if n > 0 {
      BlockedBelowSwap(b, p, n - 1);
      assert Blocked(SwapBoard(b), n - 1) == Blocked(b, n - 1);
    }
  }

  /** The two- and three-piece configurations counted for p are those
      counted for the other player on the swapped board. */
  lemma {:induction false} ConfigsBelowSwap(b: Board, p: Player, n: nat)
    requires n <= |Mills|
    ensures ConfigsBelow(SwapBoard(b), Other(p), n) == ConfigsBelow(b, p, n)
  {
    if n > 0 {
      ConfigsBelowSwap(b, p, n - 1);
      var m := Mills[n - 1];
      assert OwnedOn(SwapBoard(b), m, Other(p)) == OwnedOn(b, m, p);
      assert OwnedOn(SwapBoard(b), m, Empty) == OwnedOn(b, m, Empty);
      assert PiecesOn(SwapBoard(b), m, Other(p)) == PiecesOn(b, m, p);
    }
  }

  /** The mills of p through pos are those of the other player through pos
      on the swapped board. */
  lemma {:induction false} MillsThroughSwap(b: Board, pos: Point, p: Player, n: nat)
    requires n <= |Mills|
    ensures MillsThrough(SwapBoard(b), pos, Other(p), n) == MillsThrough(b, pos, p, n)
  {
    if n > 0 {
      MillsThroughSwap(b, pos, p, n - 1);
      var m := Mills[n - 1];
      assert MillFilled(SwapBoard(b), m, Other(p)) == MillFilled(b, m, p);
    }
  }

  /** The double mills counted for p are those counted for the other player
      on the swapped board. */
  lemma {:induction false} DoubleMillsInSwap(b: Board, p: Player, ps: seq<Point>, k: nat)
    requires k <= |ps|
    ensures DoubleMillsIn(SwapBoard(b), Other(p), ps, k) == DoubleMillsIn(b, p, ps, k)
  {
    if k > 0 {
      DoubleMillsInSwap(b, p, ps, k - 1);
      MillsThroughSwap(b, ps[k - 1], p, |Mills|);
    }
  }

  /** Every counter of the heuristic gives the same value for p on b as
      for the other player on the swapped board. */
  lemma CountersSwap(g: Game, p: Player)
    ensures CountMills(SwapBoard(g.board), Other(p)) == CountMills(g.board, p)
    ensures CountBlocked(SwapGame(g), Other(p)) == CountBlocked(g, p)
    ensures TwoAndThree(SwapBoard(g.board), Other(p)) == TwoAndThree(g.board, p)
    ensures DoubleMills(SwapBoard(g.board), Other(p)) == DoubleMills(g.board, p)
  {
    var b := g.board;
    MillsBelowSwap(b, p, |Mills|);
    BlockedBelowSwap(b, p, 24);
    ConfigsBelowSwap(b, p, |Mills|);
    PositionsBelowSwap(b, p, 24);
    assert SwapCell(p) == Other(p);
    var ps := Positions(b, p);
    DoubleMillsInSwap(b, p, ps, |ps|);
  }

  /** A player is losing exactly when the other player is losing in the
      swapped state. */
  lemma LosingSwap(g: Game, p: Player)
    ensures Losing(SwapGame(g), Other(p)) <==> Losing(g, p)
  {
    var h := SwapGame(g);
    var q := Other(p);
    assert PhaseOf(h) == PhaseOf(g);
    assert forall i :: 0 <= i < 24 ==> (h.board[i] == q <==> g.board[i] == p);
    assert forall i :: 0 <= i < 24 ==> (h.board[i] == Empty <==> g.board[i] == Empty);
    assert SomeEmpty(h.board) == SomeEmpty(g.board);
  }

  /** evaluate() is antisymmetric: unless both players are losing (then
      MAX gets the bonus whichever side it plays), the swapped state scores
      exactly the negated score. */
  lemma ScoreSwap(g: Game)
    requires !(Losing(g, MaxPlayer) && Losing(g, MinPlayer))
    ensures Score(SwapGame(g)) == -Score(g)
  {
    MaterialSwap(g);
    LosingSwap(g, X);
    LosingSwap(g, O);
  }

  /** Each weighted difference changes sign when the players are swapped. */
  lemma MaterialSwap(g: Game)
    ensures Material(SwapGame(g)) == -Material(g)
  {
    CountersSwap(g, X);
    CountersSwap(g, O);
    var h := SwapGame(g);
    assert h.phase == g.phase;
    match g.phase
    case Placing =>
    case Moving =>
    case Flying =>
  }
}
