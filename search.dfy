/** Depth-limited game-tree search over Nine Men's Morris states: minimax
    and minimax with alpha-beta pruning, both returning a score and the
    line of play that reaches it. */
module Search {
  import opened Board
  import opened Game
  import opened Moves
  import opened Evaluation

  /** What the searches use of a game: its terminal test, its successor
      generator and its evaluation (the three abstract methods of GameState). */
  datatype Rules = Rules(terminal: Game -> bool, successors: Game -> seq<Game>, evaluate: Game -> int)

  /** Nine Men's Morris: is_terminal, get_successors and evaluate. */
  const MorrisRules: Rules := Rules(Terminal, Successors, Score)

  /** A score, or one of the two infinities the searches start from. */
  datatype ExtInt = NegInf | Fin(n: int) | PosInf

  /** a < b on scores extended with both infinities. */
  predicate Less(a: ExtInt, b: ExtInt)
  {
    match a
    case NegInf => b != NegInf
    case PosInf => false
    case Fin(x) => (b.Fin? && x < b.n) || b.PosInf?
  }

  /** a <= b */
  predicate AtMost(a: ExtInt, b: ExtInt)
  {
    !Less(b, a)
  }

  /** max(a, b) */
  function Max(a: ExtInt, b: ExtInt): (m: ExtInt)
    ensures AtMost(a, m) && AtMost(b, m) && (m == a || m == b)
  {
    if Less(a, b) then b else a
  }

  /** min(a, b) */
  function Min(a: ExtInt, b: ExtInt): (m: ExtInt)
    ensures AtMost(m, a) && AtMost(m, b) && (m == a || m == b)
  {
    if Less(b, a) then b else a
  }

  /** v cut to the window [lo, hi]. */
  function Clamp(v: ExtInt, lo: ExtInt, hi: ExtInt): ExtInt
  {
    if Less(v, lo) then lo else if Less(hi, v) then hi else v
  }

  /** A search result: the score and the line of play from the searched state. */
  datatype Outcome = Outcome(score: ExtInt, path: seq<Game>)

  /** The score a node starts from before any child is seen: -inf for MAX,
      +inf for MIN. */
  function Worst(isMax: bool): ExtInt
  {
    if isMax then NegInf else PosInf
  }

  /** The replacement test of both searches: a strictly better score, or the
      same score along a strictly shorter path. */
  predicate Improves(isMax: bool, c: Outcome, best: Outcome)
  {
    (if isMax then Less(best.score, c.score) else Less(c.score, best.score))
    || (c.score == best.score && |best.path| > |c.path|)
  }

  /** The better of the current best and a new child's outcome. */
  function Pick(isMax: bool, c: Outcome, best: Outcome): Outcome
  {
    if Improves(isMax, c, best) then c else best
  }

  /** minimax(state, depth, max_depth), over any rules: the search only
      calls is_terminal, get_successors and evaluate, and the methods below
      use those of Nine Men's Morris (MorrisRules). */
  function Minimax(rules: Rules, g: Game, depth: int, maxDepth: int): Outcome
    decreases maxDepth - depth, 1
  {
    if rules.terminal(g) || depth >= maxDepth then Outcome(Fin(rules.evaluate(g)), [g])
    else
      var successors := rules.successors(g);
      var best := BestOf(ChildOutcomes(rules, successors, depth, maxDepth), |successors|, g.current == MaxPlayer);
      Outcome(best.score, [g] + best.path)
  }

  /** The children's minimax outcomes, in the order they are searched. */
  function ChildOutcomes(rules: Rules, children: seq<Game>, depth: int, maxDepth: int): (outs: seq<Outcome>)
    requires depth < maxDepth
    ensures |outs| == |children|
    decreases maxDepth - depth, 0
  {
    seq(|children|, i requires 0 <= i < |children| => Minimax(rules, children[i], depth + 1, maxDepth))
  }

  /** The best value and path of minimax's loop after the outcomes outs[..k]:
      the loop starts from the worst score and an empty path. */
  function BestOf(outs: seq<Outcome>, k: nat, isMax: bool): Outcome
    requires k <= |outs|
  {
    if k == 0 then Outcome(Worst(isMax), [])
    else Pick(isMax, outs[k - 1], BestOf(outs, k - 1, isMax))
  }

  /** The locals of minimax_alpha_beta's loop: best value and path, the
      window, and whether the loop has broken off. */
  datatype Window = Window(best: Outcome, alpha: ExtInt, beta: ExtInt, cut: bool)

  /** minimax_alpha_beta(state, depth, max_depth, alpha, beta), over any rules. */
  function AlphaBeta(rules: Rules, g: Game, depth: int, maxDepth: int, alpha: ExtInt, beta: ExtInt): Outcome
    decreases maxDepth - depth, 1
  {
    if rules.terminal(g) || depth >= maxDepth then Outcome(Fin(rules.evaluate(g)), [g])
    else
      var successors := rules.successors(g);
      var w := Pruned(rules, successors, |successors|, g.current == MaxPlayer, depth, maxDepth, alpha, beta);
      Outcome(w.best.score, [g] + w.best.path)
  }

  /** The locals of minimax_alpha_beta's loop after the children
      children[..k], started with the window (alpha, beta). Once the
      window closes the remaining children are skipped. */
  function Pruned(rules: Rules, children: seq<Game>, k: nat, isMax: bool, depth: int, maxDepth: int,
                  alpha: ExtInt, beta: ExtInt): Window
    requires k <= |children| && depth < maxDepth
    decreases maxDepth - depth, 0, k
  {
    if k == 0 then Window(Outcome(Worst(isMax), []), alpha, beta, false)
    else
      var w := Pruned(rules, children, k - 1, isMax, depth, maxDepth, alpha, beta);
      NextWindow(isMax, w, AlphaBeta(rules, children[k - 1], depth + 1, maxDepth, w.alpha, w.beta))
  }

  /** minimax: evaluates a leaf, otherwise runs the MAX or the MIN loop over
      the successors, keeping the best value and path. */
  method MinimaxSearch(rules: Rules, state: Game, depth: int, maxDepth: int) returns (value: ExtInt, path: seq<Game>)
    ensures Outcome(value, path) == Minimax(rules, state, depth, maxDepth)
    decreases maxDepth - depth, 1
  {
    if rules.terminal(state) || depth >= maxDepth {
      return Fin(rules.evaluate(state)), [state];
    }
    var successors := rules.successors(state);
    var bestValue, bestPath;
    if state.current == MaxPlayer {
      bestValue, bestPath := MinimaxMaxLoop(rules, successors, depth, maxDepth);
    } else {
      bestValue, bestPath := MinimaxMinLoop(rules, successors, depth, maxDepth);
    }
    return bestValue, [state] + bestPath;
  }

  /** The MAX loop of minimax: keeps the highest score, and of equal scores
      the shorter path. */
  method MinimaxMaxLoop(rules: Rules, successors: seq<Game>, depth: int, maxDepth: int) returns (bestValue: ExtInt, bestPath: seq<Game>)
    requires depth < maxDepth
    ensures Outcome(bestValue, bestPath) == BestOf(ChildOutcomes(rules, successors, depth, maxDepth), |successors|, true)
    decreases maxDepth - depth, 0
  {
    bestValue, bestPath := NegInf, [];
    ghost var outs := ChildOutcomes(rules, successors, depth, maxDepth);
    for k := 0 to |successors|
      invariant Outcome(bestValue, bestPath) == BestOf(outs, k, true)
    {
      var evalScore, childPath := MinimaxSearch(rules, successors[k], depth + 1, maxDepth);
      assert outs[k] == Outcome(evalScore, childPath);
      if Less(bestValue, evalScore) || (evalScore == bestValue && |bestPath| > |childPath|) {
        bestValue := evalScore;
        bestPath := childPath;
      }
    }
  }

  /** The MIN loop of minimax: keeps the lowest score, and of equal scores
      the shorter path. */
  method MinimaxMinLoop(rules: Rules, successors: seq<Game>, depth: int, maxDepth: int) returns (bestValue: ExtInt, bestPath: seq<Game>)
    requires depth < maxDepth
    ensures Outcome(bestValue, bestPath) == BestOf(ChildOutcomes(rules, successors, depth, maxDepth), |successors|, false)
    decreases maxDepth - depth, 0
  {
    bestValue, bestPath := PosInf, [];
    ghost var outs := ChildOutcomes(rules, successors, depth, maxDepth);
    for k := 0 to |successors|
      invariant Outcome(bestValue, bestPath) == BestOf(outs, k, false)
    {
      var evalScore, childPath := MinimaxSearch(rules, successors[k], depth + 1, maxDepth);
      assert outs[k] == Outcome(evalScore, childPath);
      if Less(evalScore, bestValue) || (evalScore == bestValue && |bestPath| > |childPath|) {
        bestValue := evalScore;
        bestPath := childPath;
      }
    }
  }

  /** Once the window has closed, later children change nothing. */
  lemma {:induction false} PrunedStaysCut(rules: Rules, children: seq<Game>, k: nat, n: nat, isMax: bool, depth: int, maxDepth: int,
                                         alpha: ExtInt, beta: ExtInt)
    requires k <= n <= |children| && depth < maxDepth
    requires Pruned(rules, children, k, isMax, depth, maxDepth, alpha, beta).cut
    ensures Pruned(rules, children, n, isMax, depth, maxDepth, alpha, beta) == Pruned(rules, children, k, isMax, depth, maxDepth, alpha, beta)
    decreases n
  {
    if n > k {
      PrunedStaysCut(rules, children, k, n - 1, isMax, depth, maxDepth, alpha, beta);
    }
  }

  /** minimax_alpha_beta: like minimax, but each loop narrows the window
      with the best value so far and breaks off once it is empty. */
  method AlphaBetaSearch(rules: Rules, state: Game, depth: int, maxDepth: int, alpha: ExtInt, beta: ExtInt)
    returns (value: ExtInt, path: seq<Game>)
    ensures Outcome(value, path) == AlphaBeta(rules, state, depth, maxDepth, alpha, beta)
    decreases maxDepth - depth, 1
  {
    if rules.terminal(state) || depth >= maxDepth {
      return Fin(rules.evaluate(state)), [state];
    }
    var successors := rules.successors(state);
    var bestValue, bestPath;
    if state.current == MaxPlayer {
      bestValue, bestPath := AlphaBetaMaxLoop(rules, successors, depth, maxDepth, alpha, beta);
    } else {
      bestValue, bestPath := AlphaBetaMinLoop(rules, successors, depth, maxDepth, alpha, beta);
    }
    return bestValue, [state] + bestPath;
  }

  /** The MAX loop of minimax_alpha_beta: raises alpha to the best value so
      far and stops once beta <= alpha. */
  method AlphaBetaMaxLoop(rules: Rules, successors: seq<Game>, depth: int, maxDepth: int, alpha: ExtInt, beta: ExtInt)
    returns (bestValue: ExtInt, bestPath: seq<Game>)
    requires depth < maxDepth
    ensures Outcome(bestValue, bestPath) == Pruned(rules, successors, |successors|, true, depth, maxDepth, alpha, beta).best
    decreases maxDepth - depth, 0
  {
    bestValue, bestPath := NegInf, [];
    var alpha', beta' := alpha, beta;
    for k := 0 to |successors|
      invariant Window(Outcome(bestValue, bestPath), alpha', beta', false)
                == Pruned(rules, successors, k, true, depth, maxDepth, alpha, beta)
    {
      var evalScore, path := AlphaBetaSearch(rules, successors[k], depth + 1, maxDepth, alpha', beta');
      if Less(bestValue, evalScore) || (evalScore == bestValue && |bestPath| > |path|) {
        bestValue := evalScore;
        bestPath := path;
      }
      alpha' := Max(alpha', bestValue);
      if AtMost(beta', alpha') {
        PrunedStaysCut(rules, successors, k + 1, |successors|, true, depth, maxDepth, alpha, beta);
        return;
      }
    }
  }

  /** The MIN loop of minimax_alpha_beta: lowers beta to the best value so
      far and stops once beta <= alpha. */
  method AlphaBetaMinLoop(rules: Rules, successors: seq<Game>, depth: int, maxDepth: int, alpha: ExtInt, beta: ExtInt)
    returns (bestValue: ExtInt, bestPath: seq<Game>)
    requires depth < maxDepth
    ensures Outcome(bestValue, bestPath) == Pruned(rules, successors, |successors|, false, depth, maxDepth, alpha, beta).best
    decreases maxDepth - depth, 0
  {
    bestValue, bestPath := PosInf, [];
    var alpha', beta' := alpha, beta;
    for k := 0 to |successors|
      invariant Window(Outcome(bestValue, bestPath), alpha', beta', false)
                == Pruned(rules, successors, k, false, depth, maxDepth, alpha, beta)
    {
      var evalScore, path := AlphaBetaSearch(rules, successors[k], depth + 1, maxDepth, alpha', beta');
      if Less(evalScore, bestValue) || (evalScore == bestValue && |bestPath| > |path|) {
        bestValue := evalScore;
        bestPath := path;
      }
      beta' := Min(beta', bestValue);
      if AtMost(beta', alpha') {
        PrunedStaysCut(rules, successors, k + 1, |successors|, false, depth, maxDepth, alpha, beta);
        return;
      }
    }
  }

  /** The replacement test keeps the larger score at a MAX node and the
      smaller at a MIN node, whatever the path lengths. */
  lemma PickScore(isMax: bool, c: Outcome, best: Outcome)
    ensures Pick(isMax, c, best).score == if isMax then Max(best.score, c.score) else Min(best.score, c.score)
  {
  }

  /** a is at least as good as b for the player at a MAX (isMax) or MIN node. */
  predicate Dominates(isMax: bool, a: ExtInt, b: ExtInt)
  {
    if isMax then AtMost(b, a) else AtMost(a, b)
  }

  /** The loop's score is at least as good as every outcome seen, and it is
      the worst score or the score of one of them. */
  lemma {:induction false} BestOfBounds(outs: seq<Outcome>, k: nat, isMax: bool)
    requires k <= |outs|
    ensures forall i :: 0 <= i < k ==> Dominates(isMax, BestOf(outs, k, isMax).score, outs[i].score)
    ensures BestOf(outs, k, isMax) == Outcome(Worst(isMax), []) || exists i :: 0 <= i < k && BestOf(outs, k, isMax) == outs[i]
  {
    if k > 0 {
      BestOfBounds(outs, k - 1, isMax);
      PickScore(isMax, outs[k - 1], BestOf(outs, k - 1, isMax));
    }
  }

  /** Among the outcomes with the best score, the loop keeps the one with the
      shortest path, and of several such the first; it keeps its start
      (worst score, empty path) only when every outcome has the worst score. */
  lemma {:induction false} BestOfChoice(outs: seq<Outcome>, k: nat, isMax: bool)
    requires k <= |outs|
    ensures (forall j :: 0 <= j < k ==> outs[j].score == Worst(isMax)) ==> BestOf(outs, k, isMax) == Outcome(Worst(isMax), [])
    ensures var r := BestOf(outs, k, isMax);
      r == Outcome(Worst(isMax), []) || exists i :: 0 <= i < k && r == outs[i] && FirstShortest(outs, k, i)
  {
    if k > 0 {
      BestOfChoice(outs, k - 1, isMax);
      BestOfBounds(outs, k - 1, isMax);
      var prev := BestOf(outs, k - 1, isMax);
      var c := outs[k - 1];
      if Improves(isMax, c, prev) {
        if c.score == prev.score {
          if prev != Outcome(Worst(isMax), []) {
            var i :| 0 <= i < k - 1 && prev == outs[i] && FirstShortest(outs, k - 1, i);
            assert FirstShortest(outs, k, k - 1);
          }
        } else {
          assert FirstShortest(outs, k, k - 1);
        }
      } else if prev != Outcome(Worst(isMax), []) {
        var i :| 0 <= i < k - 1 && prev == outs[i] && FirstShortest(outs, k - 1, i);
        assert FirstShortest(outs, k, i);
      }
    }
  }

  /** outs[i] has the shortest path among outs[..k] with its score, and every
      earlier one with that score has a strictly longer path. */
  ghost predicate FirstShortest(outs: seq<Outcome>, k: nat, i: nat)
    requires i < k <= |outs|
  {
    forall j :: 0 <= j < k && outs[j].score == outs[i].score ==>
      if j < i then |outs[i].path| < |outs[j].path| else |outs[i].path| <= |outs[j].path|
  }

  /** At a non-terminal node above the depth limit, minimax's value is the
      largest (MAX) or smallest (MIN) of its successors' values, and -inf
      (MAX) or +inf (MIN) without successors. */
  lemma MinimaxValue(rules: Rules, g: Game, depth: int, maxDepth: int)
    requires !rules.terminal(g) && depth < maxDepth
    ensures var isMax := g.current == MaxPlayer;
      && (forall s :: s in rules.successors(g) ==>
            Dominates(isMax, Minimax(rules, g, depth, maxDepth).score, Minimax(rules, s, depth + 1, maxDepth).score))
      && (Minimax(rules, g, depth, maxDepth).score == Worst(isMax) ||
          exists s :: s in rules.successors(g) && Minimax(rules, s, depth + 1, maxDepth).score == Minimax(rules, g, depth, maxDepth).score)
      && (rules.successors(g) == [] ==> Minimax(rules, g, depth, maxDepth).score == Worst(isMax))
  {
    var children := rules.successors(g);
    var isMax := g.current == MaxPlayer;
    var outs := ChildOutcomes(rules, children, depth, maxDepth);
    BestOfBounds(outs, |children|, isMax);
    var v := Minimax(rules, g, depth, maxDepth).score;
    assert v == BestOf(outs, |children|, isMax).score;
    forall s | s in children
      ensures Dominates(isMax, v, Minimax(rules, s, depth + 1, maxDepth).score)
    {
      var i :| 0 <= i < |children| && children[i] == s;
      assert outs[i] == Minimax(rules, s, depth + 1, maxDepth);
    }
    if v != Worst(isMax) {
      var i :| 0 <= i < |children| && BestOf(outs, |children|, isMax) == outs[i];
      assert children[i] in children;
    }
  }


  /** One step of the MAX loop that leaves the window open: if the best
      scores so far agree once cut to [alpha, beta], and the child's two
      scores agree once cut to the narrowed window, the new best scores
      agree once cut to [alpha, beta]. */
  lemma ClampMaxStep(alpha: ExtInt, beta: ExtInt, b1: ExtInt, b2: ExtInt, x1: ExtInt, x2: ExtInt)
    requires Less(Max(alpha, b1), beta)
    requires Clamp(b1, alpha, beta) == Clamp(b2, alpha, beta)
    requires Clamp(x1, Max(alpha, b1), beta) == Clamp(x2, Max(alpha, b1), beta)
    ensures Clamp(Max(b1, x1), alpha, beta) == Clamp(Max(b2, x2), alpha, beta)
    ensures Max(Max(alpha, b1), Max(b1, x1)) == Max(alpha, Max(b1, x1))
  {
  }

  /** One step of the MAX loop that closes the window: the child's score
      reached beta, so its minimax score did too. */
  lemma CutMaxStep(alpha: ExtInt, beta: ExtInt, b1: ExtInt, x1: ExtInt, x2: ExtInt)
    requires Less(Max(alpha, b1), beta)
    requires AtMost(beta, Max(Max(alpha, b1), Max(b1, x1)))
    requires Clamp(x1, Max(alpha, b1), beta) == Clamp(x2, Max(alpha, b1), beta)
    ensures AtMost(beta, Max(b1, x1)) && AtMost(beta, x2)
  {
  }

  /** The MIN loop's counterpart of ClampMaxStep. */
  lemma ClampMinStep(alpha: ExtInt, beta: ExtInt, b1: ExtInt, b2: ExtInt, x1: ExtInt, x2: ExtInt)
    requires Less(alpha, Min(beta, b1))
    requires Clamp(b1, alpha, beta) == Clamp(b2, alpha, beta)
    requires Clamp(x1, alpha, Min(beta, b1)) == Clamp(x2, alpha, Min(beta, b1))
    ensures Clamp(Min(b1, x1), alpha, beta) == Clamp(Min(b2, x2), alpha, beta)
    ensures Min(Min(beta, b1), Min(b1, x1)) == Min(beta, Min(b1, x1))
  {
  }

  /** The MIN loop's counterpart of CutMaxStep. */
  lemma CutMinStep(alpha: ExtInt, beta: ExtInt, b1: ExtInt, x1: ExtInt, x2: ExtInt)
    requires Less(alpha, Min(beta, b1))
    requires AtMost(Min(Min(beta, b1), Min(b1, x1)), alpha)
    requires Clamp(x1, alpha, Min(beta, b1)) == Clamp(x2, alpha, Min(beta, b1))
    ensures AtMost(Min(b1, x1), alpha) && AtMost(x2, alpha)
  {
  }

  /** What the MAX loop of minimax_alpha_beta keeps, given an open starting
      window [alpha, beta], about its locals w and minimax's best score b
      over the same children: beta is unchanged; while the window is open,
      alpha is the larger of the starting alpha and the best score, which
      agrees with b once cut to the starting window; once it has closed,
      both best scores have reached beta. */
  predicate MaxLoopInv(w: Window, b: ExtInt, alpha: ExtInt, beta: ExtInt)
  {
    && w.beta == beta
    && (!w.cut ==> w.alpha == Max(alpha, w.best.score) && Less(w.alpha, beta) && Clamp(w.best.score, alpha, beta) == Clamp(b, alpha, beta))
    && (w.cut ==> AtMost(beta, w.best.score) && AtMost(beta, b))
  }

  /** The MIN loop's counterpart of MaxLoopInv, with alpha and beta exchanged. */
  predicate MinLoopInv(w: Window, b: ExtInt, alpha: ExtInt, beta: ExtInt)
  {
    && w.alpha == alpha
    && (!w.cut ==> w.beta == Min(beta, w.best.score) && Less(alpha, w.beta) && Clamp(w.best.score, alpha, beta) == Clamp(b, alpha, beta))
    && (w.cut ==> AtMost(w.best.score, alpha) && AtMost(b, alpha))
  }

  /** The locals of minimax_alpha_beta's loop after one more child, from w
      and the child's alpha-beta outcome ab: nothing changes once the loop
      has broken off. */
  function NextWindow(isMax: bool, w: Window, ab: Outcome): Window
  {
    if w.cut then w
    else
      var best := Pick(isMax, ab, w.best);
      var alpha' := if isMax then Max(w.alpha, best.score) else w.alpha;
      var beta' := if isMax then w.beta else Min(w.beta, best.score);
      Window(best, alpha', beta', AtMost(beta', alpha'))
  }

  /** One child of the MAX loop keeps MaxLoopInv: ab is alpha-beta's outcome
      for the child searched with the current window, m its minimax score. */
  lemma MaxLoopStep(w: Window, b: ExtInt, ab: Outcome, m: ExtInt, alpha: ExtInt, beta: ExtInt)
    requires MaxLoopInv(w, b, alpha, beta)
    requires !w.cut ==> Clamp(ab.score, w.alpha, w.beta) == Clamp(m, w.alpha, w.beta)
    ensures MaxLoopInv(NextWindow(true, w, ab), Max(b, m), alpha, beta)
  {
    if !w.cut {
      PickScore(true, ab, w.best);
      ClampMaxStep(alpha, beta, w.best.score, b, ab.score, m);
      if AtMost(beta, Max(w.alpha, Max(w.best.score, ab.score))) {
        CutMaxStep(alpha, beta, w.best.score, ab.score, m);
      }
    }
  }

  /** One child of the MIN loop keeps MinLoopInv. */
  lemma MinLoopStep(w: Window, b: ExtInt, ab: Outcome, m: ExtInt, alpha: ExtInt, beta: ExtInt)
    requires MinLoopInv(w, b, alpha, beta)
    requires !w.cut ==> Clamp(ab.score, w.alpha, w.beta) == Clamp(m, w.alpha, w.beta)
    ensures MinLoopInv(NextWindow(false, w, ab), Min(b, m), alpha, beta)
  {
    if !w.cut {
      PickScore(false, ab, w.best);
      ClampMinStep(alpha, beta, w.best.score, b, ab.score, m);
      if AtMost(Min(w.beta, Min(w.best.score, ab.score)), alpha) {
        CutMinStep(alpha, beta, w.best.score, ab.score, m);
      }
    }
  }

  /** The i-th child outcome is the child's minimax outcome. */
  lemma ChildOutcomeAt(rules: Rules, children: seq<Game>, depth: int, maxDepth: int, i: nat)
    requires depth < maxDepth && i < |children|
    ensures ChildOutcomes(rules, children, depth, maxDepth)[i] == Minimax(rules, children[i], depth + 1, maxDepth)
  {
  }

  /** The MAX loop of minimax_alpha_beta keeps MaxLoopInv against minimax's
      loop over the same children. */
  lemma {:induction false} PrunedMax(rules: Rules, children: seq<Game>, k: nat, depth: int, maxDepth: int, alpha: ExtInt, beta: ExtInt)
    requires k <= |children| && depth < maxDepth && Less(alpha, beta)
    ensures MaxLoopInv(Pruned(rules, children, k, true, depth, maxDepth, alpha, beta),
                       BestOf(ChildOutcomes(rules, children, depth, maxDepth), k, true).score, alpha, beta)
    decreases maxDepth - depth, 0, k
  {
    if k > 0 {
      PrunedMax(rules, children, k - 1, depth, maxDepth, alpha, beta);
      var outs := ChildOutcomes(rules, children, depth, maxDepth);
      var w := Pruned(rules, children, k - 1, true, depth, maxDepth, alpha, beta);
      var b := BestOf(outs, k - 1, true).score;
      var m := outs[k - 1];
      PickScore(true, m, BestOf(outs, k - 1, true));
      var ab := AlphaBeta(rules, children[k - 1], depth + 1, maxDepth, w.alpha, w.beta);
      if !w.cut {
        AlphaBetaClamp(rules, children[k - 1], depth + 1, maxDepth, w.alpha, w.beta);
        ChildOutcomeAt(rules, children, depth, maxDepth, k - 1);
      }
      MaxLoopStep(w, b, ab, m.score, alpha, beta);
      assert BestOf(outs, k, true).score == Max(b, m.score);
      assert Pruned(rules, children, k, true, depth, maxDepth, alpha, beta) == NextWindow(true, w, ab);
    }
  }

  /** The MIN loop of minimax_alpha_beta keeps MinLoopInv against minimax's
      loop over the same children. */
  lemma {:induction false} PrunedMin(rules: Rules, children: seq<Game>, k: nat, depth: int, maxDepth: int, alpha: ExtInt, beta: ExtInt)
    requires k <= |children| && depth < maxDepth && Less(alpha, beta)
    ensures MinLoopInv(Pruned(rules, children, k, false, depth, maxDepth, alpha, beta),
                       BestOf(ChildOutcomes(rules, children, depth, maxDepth), k, false).score, alpha, beta)
    decreases maxDepth - depth, 0, k
  {
    if k > 0 {
      PrunedMin(rules, children, k - 1, depth, maxDepth, alpha, beta);
      var outs := ChildOutcomes(rules, children, depth, maxDepth);
      var w := Pruned(rules, children, k - 1, false, depth, maxDepth, alpha, beta);
      var b := BestOf(outs, k - 1, false).score;
      var m := outs[k - 1];
      PickScore(false, m, BestOf(outs, k - 1, false));
      var ab := AlphaBeta(rules, children[k - 1], depth + 1, maxDepth, w.alpha, w.beta);
      if !w.cut {
        AlphaBetaClamp(rules, children[k - 1], depth + 1, maxDepth, w.alpha, w.beta);
        ChildOutcomeAt(rules, children, depth, maxDepth, k - 1);
      }
      MinLoopStep(w, b, ab, m.score, alpha, beta);
      assert BestOf(outs, k, false).score == Min(b, m.score);
      assert Pruned(rules, children, k, false, depth, maxDepth, alpha, beta) == NextWindow(false, w, ab);
    }
  }

  /** Alpha-beta is exact inside an open window: its score and minimax's
      score agree once both are cut to [alpha, beta]. Below alpha it only
      reports some score at most alpha, above beta some score at least beta. */
  lemma {:induction false} AlphaBetaClamp(rules: Rules, g: Game, depth: int, maxDepth: int, alpha: ExtInt, beta: ExtInt)
    requires Less(alpha, beta)
    ensures Clamp(AlphaBeta(rules, g, depth, maxDepth, alpha, beta).score, alpha, beta)
         == Clamp(Minimax(rules, g, depth, maxDepth).score, alpha, beta)
    decreases maxDepth - depth, 1
  {
    if !(rules.terminal(g) || depth >= maxDepth) {
      var successors := rules.successors(g);
      if g.current == MaxPlayer {
        PrunedMax(rules, successors, |successors|, depth, maxDepth, alpha, beta);
      } else {
        PrunedMin(rules, successors, |successors|, depth, maxDepth, alpha, beta);
      }
    }
  }

  /** Started with the full window, as the game's driver calls it,
      alpha-beta finds exactly minimax's score. */
  lemma AlphaBetaFullWindow(g: Game, depth: int, maxDepth: int)
    ensures AlphaBeta(MorrisRules, g, depth, maxDepth, NegInf, PosInf).score == Minimax(MorrisRules, g, depth, maxDepth).score
  {
    AlphaBetaClamp(MorrisRules, g, depth, maxDepth, NegInf, PosInf);
  }

  /** Each state of path is a successor of the one before it. */
  ghost predicate IsLine(rules: Rules, path: seq<Game>)
  {
    forall i :: 0 <= i < |path| - 1 ==> path[i + 1] in rules.successors(path[i])
  }

  /** The most states a search from depth can return: one per level down to
      maxDepth, or only the start when it is already at the limit. */
  function PathBound(depth: int, maxDepth: int): nat
  {
    if depth < maxDepth then maxDepth - depth + 1 else 1
  }

  /** o is a line of play from g, no longer than the depth limit allows; when
      its score is finite, the line ends at a terminal state or at the depth
      limit, and the score is the evaluation of that last state. */
  ghost predicate Principal(rules: Rules, o: Outcome, g: Game, depth: int, maxDepth: int)
  {
    && 1 <= |o.path| <= PathBound(depth, maxDepth)
    && o.path[0] == g
    && IsLine(rules, o.path)
    && (o.score.Fin? ==>
          && o.score == Fin(rules.evaluate(o.path[|o.path| - 1]))
          && (rules.terminal(o.path[|o.path| - 1]) || |o.path| == PathBound(depth, maxDepth)))
  }

  /** Prefixing a successor's line with the state itself gives a line from
      the state one level up. */
  lemma PrincipalCons(rules: Rules, g: Game, depth: int, maxDepth: int, o: Outcome, c: Game)
    requires depth < maxDepth && c in rules.successors(g)
    requires Principal(rules, o, c, depth + 1, maxDepth)
    ensures Principal(rules, Outcome(o.score, [g] + o.path), g, depth, maxDepth)
  {
    var p := [g] + o.path;
    forall i | 0 <= i < |p| - 1
      ensures p[i + 1] in rules.successors(p[i])
    {
      if i > 0 {
        assert p[i + 1] == o.path[i] && p[i] == o.path[i - 1];
      }
    }
    assert p[|p| - 1] == o.path[|o.path| - 1];
  }

  /** The line minimax returns is a line of play from the searched state, and
      a finite score is the evaluation of where that line ends. */
  lemma {:induction false} MinimaxPrincipal(rules: Rules, g: Game, depth: int, maxDepth: int)
    ensures Principal(rules, Minimax(rules, g, depth, maxDepth), g, depth, maxDepth)
    decreases maxDepth - depth
  {
    if !(rules.terminal(g) || depth >= maxDepth) {
      var children := rules.successors(g);
      var isMax := g.current == MaxPlayer;
      var outs := ChildOutcomes(rules, children, depth, maxDepth);
      var r := BestOf(outs, |children|, isMax);
      BestOfBounds(outs, |children|, isMax);
      if r != Outcome(Worst(isMax), []) {
        var i :| 0 <= i < |children| && r == outs[i];
        ChildOutcomeAt(rules, children, depth, maxDepth, i);
        MinimaxPrincipal(rules, children[i], depth + 1, maxDepth);
        assert children[i] in children;
        PrincipalCons(rules, g, depth, maxDepth, r, children[i]);
      }
    }
  }

  /** The best outcome of minimax_alpha_beta's loop is its starting one or the
      line of one of the children searched. */
  lemma {:induction false} PrunedPrincipal(rules: Rules, children: seq<Game>, k: nat, isMax: bool, depth: int, maxDepth: int,
                                          alpha: ExtInt, beta: ExtInt)
    requires k <= |children| && depth < maxDepth
    ensures var best := Pruned(rules, children, k, isMax, depth, maxDepth, alpha, beta).best;
      best == Outcome(Worst(isMax), []) ||
      (|best.path| >= 1 && best.path[0] in children[..k] && Principal(rules, best, best.path[0], depth + 1, maxDepth))
    decreases maxDepth - depth, 0, k
  {
    if k > 0 {
      PrunedPrincipal(rules, children, k - 1, isMax, depth, maxDepth, alpha, beta);
      var w := Pruned(rules, children, k - 1, isMax, depth, maxDepth, alpha, beta);
      var ab := AlphaBeta(rules, children[k - 1], depth + 1, maxDepth, w.alpha, w.beta);
      AlphaBetaPrincipal(rules, children[k - 1], depth + 1, maxDepth, w.alpha, w.beta);
      var best := NextWindow(isMax, w, ab).best;
      assert Pruned(rules, children, k, isMax, depth, maxDepth, alpha, beta).best == best;
      assert children[..k] == children[..k - 1] + [children[k - 1]];
      if best != w.best {
        assert best == ab;
      }
    }
  }

  /** The line minimax_alpha_beta returns is a line of play from the searched
      state, and a finite score is the evaluation of where that line ends. */
  lemma {:induction false} AlphaBetaPrincipal(rules: Rules, g: Game, depth: int, maxDepth: int, alpha: ExtInt, beta: ExtInt)
    ensures Principal(rules, AlphaBeta(rules, g, depth, maxDepth, alpha, beta), g, depth, maxDepth)
    decreases maxDepth - depth, 1
  {
    if !(rules.terminal(g) || depth >= maxDepth) {
      var children := rules.successors(g);
      var isMax := g.current == MaxPlayer;
      var best := Pruned(rules, children, |children|, isMax, depth, maxDepth, alpha, beta).best;
      PrunedPrincipal(rules, children, |children|, isMax, depth, maxDepth, alpha, beta);
      if best != Outcome(Worst(isMax), []) {
        assert children[..|children|] == children;
        PrincipalCons(rules, g, depth, maxDepth, best, best.path[0]);
      }
    }
  }
}
