/**
 * What choose_mini_max_move computes, against a reference: the same search without the
 * alpha-beta window and without the cut-off (Minimax below).  With evaluations strictly
 * between the clamps -999 and 999 on every board of an invariant inv that the simulator
 * keeps, pruning never changes what the window can see of a value, and at the root, where
 * the window is (-9999, 9999), it changes nothing at all: decide_on_action returns the move
 * of the full search.  The agent of agents.py meets these hypotheses with inv = Bounded.
 */
module SearchProofs {
  import opened Wrappers
  import opened Enums
  import opened Boards
  import opened MiniMaxAgent
  import Rules

  /** The reference search: every child is searched and compared, nothing is cut off. */
  function Minimax(n: GameNode, me: Side, maxDepth: int, sim: Sim, eval: Eval): (r: GameNode)
    ensures r.board == n.board && r.player == n.player && r.depth == n.depth && r.moves == n.moves
    decreases Budget(n, maxDepth), 1
  {
    if n.depth > maxDepth then n
    else if Over(n).isOver then Over(n)
    else MinimaxLoop(n, me, maxDepth, sim, eval, 0)
  }

  function MinimaxLoop(n: GameNode, me: Side, maxDepth: int, sim: Sim, eval: Eval, i: int): (r: GameNode)
    requires n.depth <= maxDepth && 0 <= i <= |n.moves|
    ensures r.board == n.board && r.player == n.player && r.depth == n.depth && r.moves == n.moves
    decreases Budget(n, maxDepth), 0, |n.moves| - i
  {
    if i == |n.moves| then n
    else
      var mv := n.moves[i];
      var c := Minimax(Child(n, mv, sim, eval), me, maxDepth, sim, eval);
      var better := if n.player == me then c.value > n.value else c.value < n.value;
      if !n.linked || better then
        MinimaxLoop(n.(value := c.value, linked := true, bestMove := Some(mv)), me, maxDepth, sim, eval, i + 1)
      else MinimaxLoop(n, me, maxDepth, sim, eval, i + 1)
  }

  /** What a window (a, b) lets through of a value. */
  function Clip(a: real, b: real, x: real): real
  {
    RMax(a, RMin(b, x))
  }

  /** Strictly between the clamps of the search. */
  predicate InRange(x: real)
  {
    MaxFloor < x < MinCeil
  }

  /** The evaluation stays strictly within the clamps on every board that satisfies inv. */
  ghost predicate EvalInRange(eval: Eval, inv: BoardState -> bool)
  {
    forall b: BoardState, s: Side, h: HoleIdx :: inv(b) ==> InRange(eval(b, s, h))
  }

  /** The simulator never takes a board that satisfies inv to one that does not. */
  ghost predicate SimKeeps(sim: Sim, inv: BoardState -> bool)
  {
    forall b: BoardState, s: Side, a: Action :: inv(b) ==> inv(sim(b, s, a).board)
  }

  predicate MovesOnly(moves: seq<Action>)
  {
    forall k :: 0 <= k < |moves| ==> moves[k].Move?
  }

  /** Below the root every node is built by the simulator, which offers moves and never SWAP. */
  ghost predicate SimMovesOnly(sim: Sim)
  {
    forall b: BoardState, s: Side, a: Action :: MovesOnly(sim(b, s, a).moves)
  }

  /** Two nodes that may differ in value and best move only. */
  predicate SameShape(n1: GameNode, n2: GameNode)
  {
    n1.board == n2.board && n1.player == n2.player && n1.depth == n2.depth &&
    n1.moves == n2.moves && n1.linked == n2.linked && n1.isOver == n2.isOver
  }

  /** simulate_move never offers SWAP below the root. */
  lemma SimulateMoveMovesOnly()
    ensures SimMovesOnly(SimulateMove)
  {
  }

  // ---------------------------------------------------------------- ranges

  /** A searched value is one of the values it started from: it stays strictly within the clamps. */
  lemma {:induction false} SearchRange(n: GameNode, me: Side, maxDepth: int, a: real, b: real,
                                       sim: Sim, eval: Eval, inv: BoardState -> bool)
    requires EvalInRange(eval, inv) && InRange(n.value)
    requires SimKeeps(sim, inv) && inv(n.board)
    ensures InRange(Search(n, me, maxDepth, a, b, sim, eval).value)
    decreases Budget(n, maxDepth), 1
  {
    if n.depth <= maxDepth && !Over(n).isOver {
      SearchLoopRange(n, me, maxDepth, a, b, sim, eval, 0, inv);
    }
  }

  lemma {:induction false} SearchLoopRange(n: GameNode, me: Side, maxDepth: int, a: real, b: real,
                                           sim: Sim, eval: Eval, i: int, inv: BoardState -> bool)
    requires n.depth <= maxDepth && 0 <= i <= |n.moves|
    requires EvalInRange(eval, inv) && InRange(n.value)
    requires SimKeeps(sim, inv) && inv(n.board)
    ensures InRange(SearchLoop(n, me, maxDepth, a, b, sim, eval, i).value)
    decreases Budget(n, maxDepth), 0, |n.moves| - i
  {
    if i < |n.moves| {
      var mv := n.moves[i];
      var ch := Child(n, mv, sim, eval);
      SearchRange(ch, me, maxDepth, a, b, sim, eval, inv);
      var c := Search(ch, me, maxDepth, a, b, sim, eval);
      var n' := n.(value := c.value, linked := true, bestMove := Some(mv));
      SearchLoopRange(n, me, maxDepth, a, b, sim, eval, i + 1, inv);
      SearchLoopRange(n', me, maxDepth, RMax(a, RMax(MaxFloor, n'.value)), b, sim, eval, i + 1, inv);
      SearchLoopRange(n', me, maxDepth, a, RMin(b, RMin(MinCeil, n'.value)), sim, eval, i + 1, inv);
    }
  }

  lemma {:induction false} MinimaxRange(n: GameNode, me: Side, maxDepth: int,
                                        sim: Sim, eval: Eval, inv: BoardState -> bool)
    requires EvalInRange(eval, inv) && InRange(n.value)
    requires SimKeeps(sim, inv) && inv(n.board)
    ensures InRange(Minimax(n, me, maxDepth, sim, eval).value)
    decreases Budget(n, maxDepth), 1
  {
    if n.depth <= maxDepth && !Over(n).isOver {
      MinimaxLoopRange(n, me, maxDepth, sim, eval, 0, inv);
    }
  }

  lemma {:induction false} MinimaxLoopRange(n: GameNode, me: Side, maxDepth: int,
                                            sim: Sim, eval: Eval, i: int, inv: BoardState -> bool)
    requires n.depth <= maxDepth && 0 <= i <= |n.moves|
    requires EvalInRange(eval, inv) && InRange(n.value)
    requires SimKeeps(sim, inv) && inv(n.board)
    ensures InRange(MinimaxLoop(n, me, maxDepth, sim, eval, i).value)
    decreases Budget(n, maxDepth), 0, |n.moves| - i
  {
    if i < |n.moves| {
      var mv := n.moves[i];
      var ch := Child(n, mv, sim, eval);
      MinimaxRange(ch, me, maxDepth, sim, eval, inv);
      var c := Minimax(ch, me, maxDepth, sim, eval);
      MinimaxLoopRange(n, me, maxDepth, sim, eval, i + 1, inv);
      MinimaxLoopRange(n.(value := c.value, linked := true, bestMove := Some(mv)), me, maxDepth, sim, eval, i + 1, inv);
    }
  }

  /** Once linked, a maximising node's value only grows and a minimising node's only shrinks. */
  lemma {:induction false} MinimaxLoopMonotone(n: GameNode, me: Side, maxDepth: int, sim: Sim, eval: Eval, i: int)
    requires n.depth <= maxDepth && 0 <= i <= |n.moves| && n.linked
    ensures n.player == me ==> MinimaxLoop(n, me, maxDepth, sim, eval, i).value >= n.value
    ensures n.player != me ==> MinimaxLoop(n, me, maxDepth, sim, eval, i).value <= n.value
    decreases |n.moves| - i
  {
    if i < |n.moves| {
      var mv := n.moves[i];
      var c := Minimax(Child(n, mv, sim, eval), me, maxDepth, sim, eval);
      MinimaxLoopMonotone(n, me, maxDepth, sim, eval, i + 1);
      MinimaxLoopMonotone(n.(value := c.value, linked := true, bestMove := Some(mv)), me, maxDepth, sim, eval, i + 1);
    }
  }

  // ---------------------------------------------------------------- the window

  /**
   * Alpha-beta soundness: on a node below the root, the pruned search and the full search
   * agree on everything the window (a, b) lets through.
   */
  lemma {:induction false} Window(n1: GameNode, n2: GameNode, me: Side, maxDepth: int, a: real, b: real,
                                  sim: Sim, eval: Eval, inv: BoardState -> bool)
    requires SameShape(n1, n2) && n1.value == n2.value
    requires MovesOnly(n1.moves) && SimMovesOnly(sim) && EvalInRange(eval, inv) && InRange(n1.value)
    requires SimKeeps(sim, inv) && inv(n1.board)
    requires a < b
    ensures Clip(a, b, Search(n1, me, maxDepth, a, b, sim, eval).value) == Clip(a, b, Minimax(n2, me, maxDepth, sim, eval).value)
    decreases Budget(n1, maxDepth), 1
  {
    if n1.depth <= maxDepth && !Over(n1).isOver {
      if n1.player == me {
        WindowLoopMax(n1, n2, me, maxDepth, a, b, a, sim, eval, 0, inv);
      } else {
        WindowLoopMin(n1, n2, me, maxDepth, a, b, b, sim, eval, 0, inv);
      }
    }
  }

  /** The children that the pruned and the full search build for the same move. */
  lemma ChildrenAlike(np: GameNode, nm: GameNode, mv: Action, sim: Sim, eval: Eval, inv: BoardState -> bool)
    requires SameShape(np, nm) && mv.Move? && SimMovesOnly(sim) && EvalInRange(eval, inv)
    requires SimKeeps(sim, inv) && inv(np.board)
    ensures var cp := Child(np, mv, sim, eval);
      var cm := Child(nm, mv, sim, eval);
      SameShape(cp, cm) && cp.value == cm.value && MovesOnly(cp.moves) && InRange(cp.value)
  {
  }

  /** Through the window (a, b), the pruned and the full search agree on the child of move i. */
  lemma {:induction false} ChildWindow(np: GameNode, nm: GameNode, me: Side, maxDepth: int, a: real, b: real,
                                       sim: Sim, eval: Eval, i: int, inv: BoardState -> bool)
    requires np.depth <= maxDepth && 0 <= i < |np.moves| && SameShape(np, nm)
    requires MovesOnly(np.moves) && SimMovesOnly(sim) && EvalInRange(eval, inv) && a < b
    requires SimKeeps(sim, inv) && inv(np.board)
    ensures var P := Search(Child(np, np.moves[i], sim, eval), me, maxDepth, a, b, sim, eval).value;
      var M := Minimax(Child(nm, np.moves[i], sim, eval), me, maxDepth, sim, eval).value;
      Clip(a, b, P) == Clip(a, b, M) && InRange(P) && InRange(M)
    decreases Budget(np, maxDepth), 0, |np.moves| - i, 0
  {
    var mv := np.moves[i];
    ChildrenAlike(np, nm, mv, sim, eval, inv);
    var cp := Child(np, mv, sim, eval);
    var cm := Child(nm, mv, sim, eval);
    Window(cp, cm, me, maxDepth, a, b, sim, eval, inv);
    SearchRange(cp, me, maxDepth, a, b, sim, eval, inv);
    MinimaxRange(cm, me, maxDepth, sim, eval, inv);
  }

  /** The window of a maximising node: alpha x is a, or the value both searches hold. */
  predicate MaxWindow(np: GameNode, nm: GameNode, a: real, b: real, x: real)
  {
    InRange(np.value) && InRange(nm.value) && a < b && Clip(a, b, np.value) == Clip(a, b, nm.value) &&
    a <= x < b && (x == a || (np.linked && x == np.value && x == nm.value))
  }

  /** The window of a minimising node: beta y is b, or the value both searches hold. */
  predicate MinWindow(np: GameNode, nm: GameNode, a: real, b: real, y: real)
  {
    InRange(np.value) && InRange(nm.value) && a < b && Clip(a, b, np.value) == Clip(a, b, nm.value) &&
    a < y <= b && (y == b || (np.linked && y == np.value && y == nm.value))
  }

  lemma {:induction false} WindowLoopMax(np: GameNode, nm: GameNode, me: Side, maxDepth: int, a: real, b: real,
                                         x: real, sim: Sim, eval: Eval, i: int, inv: BoardState -> bool)
    requires np.depth <= maxDepth && 0 <= i <= |np.moves| && SameShape(np, nm) && np.player == me
    requires MovesOnly(np.moves) && SimMovesOnly(sim) && EvalInRange(eval, inv) && MaxWindow(np, nm, a, b, x)
    requires SimKeeps(sim, inv) && inv(np.board)
    ensures Clip(a, b, SearchLoop(np, me, maxDepth, x, b, sim, eval, i).value) ==
            Clip(a, b, MinimaxLoop(nm, me, maxDepth, sim, eval, i).value)
    decreases Budget(np, maxDepth), 0, |np.moves| - i, 2
  {
    if i < |np.moves| {
      var np', nm', x', cut := WindowMaxTurn(np, nm, me, maxDepth, a, b, x, sim, eval, i, inv);
      if !cut {
        WindowLoopMax(np', nm', me, maxDepth, a, b, x', sim, eval, i + 1, inv);
        assert Clip(a, b, SearchLoop(np, me, maxDepth, x, b, sim, eval, i).value) == Clip(a, b, MinimaxLoop(nm, me, maxDepth, sim, eval, i).value);
      } else {
        assert Clip(a, b, SearchLoop(np, me, maxDepth, x, b, sim, eval, i).value) == Clip(a, b, MinimaxLoop(nm, me, maxDepth, sim, eval, i).value);
      }
    } else {
      LoopsAtEnd(np, nm, me, maxDepth, x, b, sim, eval);
      assert Clip(a, b, SearchLoop(np, me, maxDepth, x, b, sim, eval, i).value) == Clip(a, b, MinimaxLoop(nm, me, maxDepth, sim, eval, i).value);
    }
  }

  /** One turn of both loops at a maximising node: either the pruned loop cuts with the values agreeing
      through (a, b), or both loops go on from nodes that keep the window. */
  lemma {:induction false} WindowMaxTurn(np: GameNode, nm: GameNode, me: Side, maxDepth: int, a: real, b: real, x: real,
                                         sim: Sim, eval: Eval, i: int, inv: BoardState -> bool)
    returns (np': GameNode, nm': GameNode, x': real, cut: bool)
    requires np.depth <= maxDepth && 0 <= i < |np.moves| && SameShape(np, nm) && np.player == me
    requires MovesOnly(np.moves) && SimMovesOnly(sim) && EvalInRange(eval, inv) && MaxWindow(np, nm, a, b, x)
    requires SimKeeps(sim, inv) && inv(np.board)
    ensures cut ==> Clip(a, b, SearchLoop(np, me, maxDepth, x, b, sim, eval, i).value) ==
                    Clip(a, b, MinimaxLoop(nm, me, maxDepth, sim, eval, i).value)
    ensures !cut ==> SameShape(np', nm') && np'.depth == np.depth && np'.moves == np.moves && np'.board == np.board
    ensures !cut ==> SearchLoop(np, me, maxDepth, x, b, sim, eval, i) == SearchLoop(np', me, maxDepth, x', b, sim, eval, i + 1)
    ensures !cut ==> MinimaxLoop(nm, me, maxDepth, sim, eval, i) == MinimaxLoop(nm', me, maxDepth, sim, eval, i + 1)
    ensures !cut ==> np'.player == me && MaxWindow(np', nm', a, b, x')
    decreases Budget(np, maxDepth), 0, |np.moves| - i, 1
  {
    var mv := np.moves[i];
    ChildWindow(np, nm, me, maxDepth, x, b, sim, eval, i, inv);
    var P := Search(Child(np, mv, sim, eval), me, maxDepth, x, b, sim, eval).value;
    var M := Minimax(Child(nm, mv, sim, eval), me, maxDepth, sim, eval).value;
    var took := !np.linked || P > np.value;
    np' := if took then np.(value := P, linked := true, bestMove := Some(mv)) else np;
    nm' := if !nm.linked || M > nm.value then nm.(value := M, linked := true, bestMove := Some(mv)) else nm;
    x' := if took then RMax(x, RMax(MaxFloor, P)) else x;
    cut := took && b <= x';
    MinimaxLoopStep(nm, me, maxDepth, sim, eval, i, M, nm');
    WindowMaxNext(np, nm, mv, a, b, x, P, M, np', nm', x');
    SearchLoopMaxStep(np, me, maxDepth, x, b, sim, eval, i, P, np', x');
    if cut {
      MinimaxLoopMonotone(nm', me, maxDepth, sim, eval, i + 1);
      CutClips(a, b, np'.value, MinimaxLoop(nm', me, maxDepth, sim, eval, i + 1).value);
    }
  }

  lemma {:induction false} WindowLoopMin(np: GameNode, nm: GameNode, me: Side, maxDepth: int, a: real, b: real,
                                         y: real, sim: Sim, eval: Eval, i: int, inv: BoardState -> bool)
    requires np.depth <= maxDepth && 0 <= i <= |np.moves| && SameShape(np, nm) && np.player != me
    requires MovesOnly(np.moves) && SimMovesOnly(sim) && EvalInRange(eval, inv) && MinWindow(np, nm, a, b, y)
    requires SimKeeps(sim, inv) && inv(np.board)
    ensures Clip(a, b, SearchLoop(np, me, maxDepth, a, y, sim, eval, i).value) ==
            Clip(a, b, MinimaxLoop(nm, me, maxDepth, sim, eval, i).value)
    decreases Budget(np, maxDepth), 0, |np.moves| - i, 2
  {
    if i < |np.moves| {
      var np', nm', y', cut := WindowMinTurn(np, nm, me, maxDepth, a, b, y, sim, eval, i, inv);
      if !cut {
        WindowLoopMin(np', nm', me, maxDepth, a, b, y', sim, eval, i + 1, inv);
        assert Clip(a, b, SearchLoop(np, me, maxDepth, a, y, sim, eval, i).value) == Clip(a, b, MinimaxLoop(nm, me, maxDepth, sim, eval, i).value);
      } else {
        assert Clip(a, b, SearchLoop(np, me, maxDepth, a, y, sim, eval, i).value) == Clip(a, b, MinimaxLoop(nm, me, maxDepth, sim, eval, i).value);
      }
    } else {
      LoopsAtEnd(np, nm, me, maxDepth, a, y, sim, eval);
      assert Clip(a, b, SearchLoop(np, me, maxDepth, a, y, sim, eval, i).value) == Clip(a, b, MinimaxLoop(nm, me, maxDepth, sim, eval, i).value);
    }
  }

  /** One turn of both loops at a minimising node, as WindowMaxTurn with the window's other end. */
  lemma {:induction false} WindowMinTurn(np: GameNode, nm: GameNode, me: Side, maxDepth: int, a: real, b: real, y: real,
                                         sim: Sim, eval: Eval, i: int, inv: BoardState -> bool)
    returns (np': GameNode, nm': GameNode, y': real, cut: bool)
    requires np.depth <= maxDepth && 0 <= i < |np.moves| && SameShape(np, nm) && np.player != me
    requires MovesOnly(np.moves) && SimMovesOnly(sim) && EvalInRange(eval, inv) && MinWindow(np, nm, a, b, y)
    requires SimKeeps(sim, inv) && inv(np.board)
    ensures cut ==> Clip(a, b, SearchLoop(np, me, maxDepth, a, y, sim, eval, i).value) ==
                    Clip(a, b, MinimaxLoop(nm, me, maxDepth, sim, eval, i).value)
    ensures !cut ==> SameShape(np', nm') && np'.depth == np.depth && np'.moves == np.moves && np'.board == np.board
    ensures !cut ==> SearchLoop(np, me, maxDepth, a, y, sim, eval, i) == SearchLoop(np', me, maxDepth, a, y', sim, eval, i + 1)
    ensures !cut ==> MinimaxLoop(nm, me, maxDepth, sim, eval, i) == MinimaxLoop(nm', me, maxDepth, sim, eval, i + 1)
    ensures !cut ==> np'.player == np.player && MinWindow(np', nm', a, b, y')
    decreases Budget(np, maxDepth), 0, |np.moves| - i, 1
  {
    var mv := np.moves[i];
    ChildWindow(np, nm, me, maxDepth, a, y, sim, eval, i, inv);
    var P := Search(Child(np, mv, sim, eval), me, maxDepth, a, y, sim, eval).value;
    var M := Minimax(Child(nm, mv, sim, eval), me, maxDepth, sim, eval).value;
    var took := !np.linked || P < np.value;
    np' := if took then np.(value := P, linked := true, bestMove := Some(mv)) else np;
    nm' := if !nm.linked || M < nm.value then nm.(value := M, linked := true, bestMove := Some(mv)) else nm;
    y' := if took then RMin(y, RMin(MinCeil, P)) else y;
    cut := took && y' <= a;
    MinimaxLoopStep(nm, me, maxDepth, sim, eval, i, M, nm');
    WindowMinNext(np, nm, mv, a, b, y, P, M, np', nm', y');
    SearchLoopMinStep(np, me, maxDepth, a, y, sim, eval, i, P, np', y');
    if cut {
      MinimaxLoopMonotone(nm', me, maxDepth, sim, eval, i + 1);
      CutClipsBelow(a, b, np'.value, MinimaxLoop(nm', me, maxDepth, sim, eval, i + 1).value);
    }
  }

  /** Past the last move both loops return the node they were given. */
  lemma LoopsAtEnd(np: GameNode, nm: GameNode, me: Side, maxDepth: int, a: real, b: real, sim: Sim, eval: Eval)
    requires np.depth <= maxDepth && nm.depth <= maxDepth
    ensures SearchLoop(np, me, maxDepth, a, b, sim, eval, |np.moves|) == np
    ensures MinimaxLoop(nm, me, maxDepth, sim, eval, |nm.moves|) == nm
  {
  }

  /** Both values at or below a clip to a. */
  lemma CutClipsBelow(a: real, b: real, p: real, m: real)
    requires a < b && Clip(a, b, p) == a && m <= a
    ensures Clip(a, b, p) == Clip(a, b, m)
  {
  }

  /** Both values at or above b clip to b. */
  lemma CutClips(a: real, b: real, p: real, m: real)
    requires a < b && Clip(a, b, p) == b && m >= b
    ensures Clip(a, b, p) == Clip(a, b, m)
  {
  }

  /** One turn of the full loop: the node after comparing the child's value M. */
  lemma MinimaxLoopStep(nm: GameNode, me: Side, maxDepth: int, sim: Sim, eval: Eval, i: int, M: real, nm': GameNode)
    requires nm.depth <= maxDepth && 0 <= i < |nm.moves|
    requires M == Minimax(Child(nm, nm.moves[i], sim, eval), me, maxDepth, sim, eval).value
    requires nm' == if !nm.linked || (if nm.player == me then M > nm.value else M < nm.value)
      then nm.(value := M, linked := true, bestMove := Some(nm.moves[i])) else nm
    ensures MinimaxLoop(nm, me, maxDepth, sim, eval, i) == MinimaxLoop(nm', me, maxDepth, sim, eval, i + 1)
  {
  }

  /** One comparison at a maximising node, on the nodes of both searches. */
  lemma WindowMaxNext(np: GameNode, nm: GameNode, mv: Action, a: real, b: real, x: real, P: real, M: real,
                      np': GameNode, nm': GameNode, x': real)
    requires SameShape(np, nm) && MaxWindow(np, nm, a, b, x) && InRange(P) && InRange(M) && Clip(x, b, P) == Clip(x, b, M)
    requires np' == if !np.linked || P > np.value then np.(value := P, linked := true, bestMove := Some(mv)) else np
    requires nm' == if !nm.linked || M > nm.value then nm.(value := M, linked := true, bestMove := Some(mv)) else nm
    requires x' == if !np.linked || P > np.value then RMax(x, RMax(MaxFloor, P)) else x
    ensures SameShape(np', nm')
    ensures (!np.linked || P > np.value) && b <= x' ==> Clip(a, b, np'.value) == b && nm'.linked && nm'.value >= b
    ensures !((!np.linked || P > np.value) && b <= x') ==> MaxWindow(np', nm', a, b, x')
  {
    WindowMaxStep(a, b, x, np.value, nm.value, P, M, np.linked);
  }

  /** One comparison at a minimising node, on the nodes of both searches. */
  lemma WindowMinNext(np: GameNode, nm: GameNode, mv: Action, a: real, b: real, y: real, P: real, M: real,
                      np': GameNode, nm': GameNode, y': real)
    requires SameShape(np, nm) && MinWindow(np, nm, a, b, y) && InRange(P) && InRange(M) && Clip(a, y, P) == Clip(a, y, M)
    requires np' == if !np.linked || P < np.value then np.(value := P, linked := true, bestMove := Some(mv)) else np
    requires nm' == if !nm.linked || M < nm.value then nm.(value := M, linked := true, bestMove := Some(mv)) else nm
    requires y' == if !np.linked || P < np.value then RMin(y, RMin(MinCeil, P)) else y
    ensures SameShape(np', nm')
    ensures (!np.linked || P < np.value) && y' <= a ==> Clip(a, b, np'.value) == a && nm'.linked && nm'.value <= a
    ensures !((!np.linked || P < np.value) && y' <= a) ==> MinWindow(np', nm', a, b, y')
  {
    WindowMinStep(a, b, y, np.value, nm.value, P, M, np.linked);
  }

  /**
   * One comparison at a maximising node, pruned (current value cp, alpha x) against full
   * (current value cm), given that the child's values P and M agree within (x, b).
   */
  lemma WindowMaxStep(a: real, b: real, x: real, cp: real, cm: real, P: real, M: real, linked: bool)
    requires a < b && a <= x < b && InRange(cp) && InRange(cm) && InRange(P) && InRange(M)
    requires Clip(a, b, cp) == Clip(a, b, cm) && (x == a || (linked && x == cp && x == cm))
    requires Clip(x, b, P) == Clip(x, b, M)
    ensures var rp := !linked || P > cp;
      var rm := !linked || M > cm;
      var cp' := if rp then P else cp;
      var cm' := if rm then M else cm;
      var x' := if rp then RMax(x, RMax(MaxFloor, P)) else x;
      if rp && b <= x' then Clip(a, b, cp') == b && cm' >= b
      else Clip(a, b, cp') == Clip(a, b, cm') && a <= x' < b &&
           (x' == a || ((linked || rp) && x' == cp' && x' == cm'))
  {
  }

  /** The same for a minimising node with beta y. */
  lemma WindowMinStep(a: real, b: real, y: real, cp: real, cm: real, P: real, M: real, linked: bool)
    requires a < b && a < y <= b && InRange(cp) && InRange(cm) && InRange(P) && InRange(M)
    requires Clip(a, b, cp) == Clip(a, b, cm) && (y == b || (linked && y == cp && y == cm))
    requires Clip(a, y, P) == Clip(a, y, M)
    ensures var rp := !linked || P < cp;
      var rm := !linked || M < cm;
      var cp' := if rp then P else cp;
      var cm' := if rm then M else cm;
      var y' := if rp then RMin(y, RMin(MinCeil, P)) else y;
      if rp && y' <= a then Clip(a, b, cp') == a && cm' <= a
      else Clip(a, b, cp') == Clip(a, b, cm') && a < y' <= b &&
           (y' == b || ((linked || rp) && y' == cp' && y' == cm'))
  {
  }

  // ---------------------------------------------------------------- the root

  /**
   * At a maximising root without `next`, searched with alpha = -9999 and beta = 9999, the
   * pruned search returns exactly the node of the full search: same value, same best move,
   * even with SWAP among the moves.
   */
  lemma RootExact(n: GameNode, me: Side, maxDepth: int, sim: Sim, eval: Eval, inv: BoardState -> bool)
    requires n.player == me && !n.linked && InRange(n.value)
    requires SimMovesOnly(sim) && EvalInRange(eval, inv)
    requires SimKeeps(sim, inv) && inv(n.board)
    ensures Search(n, me, maxDepth, AlphaInit, BetaInit, sim, eval) == Minimax(n, me, maxDepth, sim, eval)
  {
    if n.depth <= maxDepth && !Over(n).isOver {
      RootLoop(n, me, maxDepth, AlphaInit, sim, eval, 0, inv);
    }
  }

  lemma {:induction false} RootLoop(n: GameNode, me: Side, maxDepth: int, x: real,
                                    sim: Sim, eval: Eval, i: int, inv: BoardState -> bool)
    requires n.depth <= maxDepth && 0 <= i <= |n.moves| && n.player == me && InRange(n.value)
    requires SimMovesOnly(sim) && EvalInRange(eval, inv)
    requires SimKeeps(sim, inv) && inv(n.board)
    requires if n.linked then x == n.value else x == AlphaInit
    ensures SearchLoop(n, me, maxDepth, x, BetaInit, sim, eval, i) == MinimaxLoop(n, me, maxDepth, sim, eval, i)
    decreases |n.moves| - i
  {
    if i < |n.moves| {
      var mv := n.moves[i];
      var c := Child(n, mv, sim, eval);
      Window(c, c, me, maxDepth, x, BetaInit, sim, eval, inv);
      SearchRange(c, me, maxDepth, x, BetaInit, sim, eval, inv);
      MinimaxRange(c, me, maxDepth, sim, eval, inv);
      var P := Search(c, me, maxDepth, x, BetaInit, sim, eval).value;
      var M := Minimax(c, me, maxDepth, sim, eval).value;
      if !n.linked || P > n.value {
        assert P == M;
        RootLoop(n.(value := P, linked := true, bestMove := Some(mv)), me, maxDepth, RMax(x, RMax(MaxFloor, P)), sim, eval, i + 1, inv);
      } else {
        RootLoop(n, me, maxDepth, x, sim, eval, i + 1, inv);
      }
    }
  }

  /**
   * decide_on_action with pruning returns the move of the full search, whenever the
   * evaluation stays strictly within the clamps.
   */
  lemma DecisionUnaffectedByPruning(b: BoardState, side: Side, possible: seq<Action>,
                                    sim: Sim, eval: Eval, inv: BoardState -> bool)
    requires SimMovesOnly(sim) && EvalInRange(eval, inv)
    requires SimKeeps(sim, inv) && inv(b)
    ensures Some(DecideOnAction(b, side, possible, sim, eval)) ==
      Minimax(Root(b, side, possible), side, MaxDepth, sim, eval).bestMove
  {
    RootExact(Root(b, side, possible), side, MaxDepth, sim, eval, inv);
    SearchBestMove(Root(b, side, possible), side, MaxDepth, AlphaInit, BetaInit, sim, eval);
  }

  // ---------------------------------------------------------------- the move chosen

  /** The full search ignores the best move a node carries in: it only ever overwrites it. */
  lemma {:induction false} MinimaxIgnoresBest(n1: GameNode, n2: GameNode, me: Side, maxDepth: int, sim: Sim, eval: Eval)
    requires SameShape(n1, n2) && n1.value == n2.value
    ensures var r1 := Minimax(n1, me, maxDepth, sim, eval);
      var r2 := Minimax(n2, me, maxDepth, sim, eval);
      SameShape(r1, r2) && r1.value == r2.value
    decreases Budget(n1, maxDepth), 1
  {
    if n1.depth <= maxDepth && !Over(n1).isOver {
      MinimaxLoopIgnoresBest(n1, n2, me, maxDepth, sim, eval, 0);
    }
  }

  lemma {:induction false} MinimaxLoopIgnoresBest(n1: GameNode, n2: GameNode, me: Side, maxDepth: int, sim: Sim, eval: Eval, i: int)
    requires n1.depth <= maxDepth && 0 <= i <= |n1.moves|
    requires SameShape(n1, n2) && n1.value == n2.value
    ensures var r1 := MinimaxLoop(n1, me, maxDepth, sim, eval, i);
      var r2 := MinimaxLoop(n2, me, maxDepth, sim, eval, i);
      SameShape(r1, r2) && r1.value == r2.value
    decreases Budget(n1, maxDepth), 0, |n1.moves| - i
  {
    if i < |n1.moves| {
      var mv := n1.moves[i];
      MinimaxIgnoresBest(Child(n1, mv, sim, eval), Child(n2, mv, sim, eval), me, maxDepth, sim, eval);
      var M := Minimax(Child(n1, mv, sim, eval), me, maxDepth, sim, eval).value;
      var took := !n1.linked || (if n1.player == me then M > n1.value else M < n1.value);
      var n1' := if took then n1.(value := M, linked := true, bestMove := Some(mv)) else n1;
      var n2' := if took then n2.(value := M, linked := true, bestMove := Some(mv)) else n2;
      MinimaxLoopStep(n1, me, maxDepth, sim, eval, i, M, n1');
      MinimaxLoopStep(n2, me, maxDepth, sim, eval, i, M, n2');
      MinimaxLoopIgnoresBest(n1', n2', me, maxDepth, sim, eval, i + 1);
    }
  }

  /**
   * The full-search value of the k-th move of a node without `next`: its child is built
   * from the node as it stands at step k, linked from the second step on.
   */
  function ChildValue(n: GameNode, k: int, me: Side, maxDepth: int, sim: Sim, eval: Eval): real
    requires 0 <= k < |n.moves|
  {
    Minimax(Child(n.(linked := k > 0), n.moves[k], sim, eval), me, maxDepth, sim, eval).value
  }

  /** The full-search values of all moves of a node without `next`, in order. */
  function ChildValues(n: GameNode, me: Side, maxDepth: int, sim: Sim, eval: Eval): (cv: seq<real>)
    ensures |cv| == |n.moves|
    ensures forall j {:trigger ChildValue(n, j, me, maxDepth, sim, eval)} :: 0 <= j < |cv| ==> cv[j] == ChildValue(n, j, me, maxDepth, sim, eval)
  {
    seq(|n.moves|, j requires 0 <= j < |n.moves| => ChildValue(n, j, me, maxDepth, sim, eval))
  }

  /** Among the first i values, v is the largest and k the first place it occurs. */
  predicate FirstMaxUpTo(cv: seq<real>, i: int, k: int, v: real)
  {
    0 <= k < i <= |cv| && cv[k] == v &&
    (forall j :: 0 <= j < k ==> cv[j] < v) &&
    (forall j :: 0 <= j < i ==> cv[j] <= v)
  }

  /** Among the first i values, v is the smallest and k the first place it occurs. */
  predicate FirstMinUpTo(cv: seq<real>, i: int, k: int, v: real)
  {
    0 <= k < i <= |cv| && cv[k] == v &&
    (forall j :: 0 <= j < k ==> cv[j] > v) &&
    (forall j :: 0 <= j < i ==> cv[j] >= v)
  }

  /** One comparison of the loop extends the first maximum by one value. */
  lemma FirstMaxStep(cv: seq<real>, i: int, k: int, v: real)
    requires 0 <= i < |cv|
    requires i > 0 ==> FirstMaxUpTo(cv, i, k, v)
    ensures i == 0 || cv[i] > v ==> FirstMaxUpTo(cv, i + 1, i, cv[i])
    ensures i > 0 && cv[i] <= v ==> FirstMaxUpTo(cv, i + 1, k, v)
  {
  }

  lemma FirstMinStep(cv: seq<real>, i: int, k: int, v: real)
    requires 0 <= i < |cv|
    requires i > 0 ==> FirstMinUpTo(cv, i, k, v)
    ensures i == 0 || cv[i] < v ==> FirstMinUpTo(cv, i + 1, i, cv[i])
    ensures i > 0 && cv[i] >= v ==> FirstMinUpTo(cv, i + 1, k, v)
  {
  }

  /** Step i of the full search sees ChildValue(n, i): the child built from the current node. */
  lemma StepSeesChildValue(n: GameNode, cur: GameNode, me: Side, maxDepth: int, sim: Sim, eval: Eval, i: int)
    requires 0 <= i < |n.moves| && n.moves[i].Move? && SameShape(cur, n.(linked := i > 0))
    ensures Minimax(Child(cur, n.moves[i], sim, eval), me, maxDepth, sim, eval).value ==
      ChildValue(n, i, me, maxDepth, sim, eval)
  {
    MinimaxIgnoresBest(Child(cur, n.moves[i], sim, eval), Child(n.(linked := i > 0), n.moves[i], sim, eval), me, maxDepth, sim, eval);
  }

  /**
   * A maximising node without `next` (the root of decide_on_action) ends with the value of
   * its best child and the FIRST move reaching it: earlier moves are strictly worse, later
   * ones no better.
   */
  lemma MaxTakesFirstBest(n: GameNode, me: Side, maxDepth: int, sim: Sim, eval: Eval)
    requires n.player == me && !n.linked && !n.isOver && n.depth <= maxDepth
    requires 0 < |n.moves| && MovesOnly(n.moves)
    ensures var r := Minimax(n, me, maxDepth, sim, eval);
      exists k :: FirstMaxUpTo(ChildValues(n, me, maxDepth, sim, eval), |n.moves|, k, r.value) &&
        r.bestMove == Some(n.moves[k])
  {
    MaxLoopTakesFirstBest(n, n, me, maxDepth, sim, eval, ChildValues(n, me, maxDepth, sim, eval), 0, 0);
  }

  lemma {:induction false} MaxLoopTakesFirstBest(n: GameNode, cur: GameNode, me: Side, maxDepth: int, sim: Sim, eval: Eval,
                                                cv: seq<real>, i: int, k: int)
    requires n.player == me && n.depth <= maxDepth && 0 <= i <= |n.moves| && 0 < |n.moves| && MovesOnly(n.moves)
    requires SameShape(cur, n.(linked := i > 0))
    requires cv == ChildValues(n, me, maxDepth, sim, eval)
    requires i > 0 ==> FirstMaxUpTo(cv, i, k, cur.value) && cur.bestMove == Some(n.moves[k])
    ensures var r := MinimaxLoop(cur, me, maxDepth, sim, eval, i);
      exists k' :: FirstMaxUpTo(cv, |n.moves|, k', r.value) && r.bestMove == Some(n.moves[k'])
    decreases |n.moves| - i
  {
    if i < |n.moves| {
      var mv := n.moves[i];
      StepSeesChildValue(n, cur, me, maxDepth, sim, eval, i);
      var M := Minimax(Child(cur, mv, sim, eval), me, maxDepth, sim, eval).value;
      assert M == cv[i];
      FirstMaxStep(cv, i, k, cur.value);
      var took := !cur.linked || M > cur.value;
      var cur' := if took then cur.(value := M, linked := true, bestMove := Some(mv)) else cur;
      MinimaxLoopStep(cur, me, maxDepth, sim, eval, i, M, cur');
      MaxLoopTakesFirstBest(n, cur', me, maxDepth, sim, eval, cv, i + 1, if took then i else k);
    } else {
      assert FirstMaxUpTo(cv, |n.moves|, k, cur.value);
    }
  }


  /** The minimising counterpart: the first move reaching the smallest child value. */
  lemma MinTakesFirstBest(n: GameNode, me: Side, maxDepth: int, sim: Sim, eval: Eval)
    requires n.player != me && !n.linked && !n.isOver && n.depth <= maxDepth
    requires 0 < |n.moves| && MovesOnly(n.moves)
    ensures var r := Minimax(n, me, maxDepth, sim, eval);
      exists k :: FirstMinUpTo(ChildValues(n, me, maxDepth, sim, eval), |n.moves|, k, r.value) &&
        r.bestMove == Some(n.moves[k])
  {
    MinLoopTakesFirstBest(n, n, me, maxDepth, sim, eval, ChildValues(n, me, maxDepth, sim, eval), 0, 0);
  }

  lemma {:induction false} MinLoopTakesFirstBest(n: GameNode, cur: GameNode, me: Side, maxDepth: int, sim: Sim, eval: Eval,
                                                cv: seq<real>, i: int, k: int)
    requires n.player != me && n.depth <= maxDepth && 0 <= i <= |n.moves| && 0 < |n.moves| && MovesOnly(n.moves)
    requires SameShape(cur, n.(linked := i > 0))
    requires cv == ChildValues(n, me, maxDepth, sim, eval)
    requires i > 0 ==> FirstMinUpTo(cv, i, k, cur.value) && cur.bestMove == Some(n.moves[k])
    ensures var r := MinimaxLoop(cur, me, maxDepth, sim, eval, i);
      exists k' :: FirstMinUpTo(cv, |n.moves|, k', r.value) && r.bestMove == Some(n.moves[k'])
    decreases |n.moves| - i
  {
    if i < |n.moves| {
      var mv := n.moves[i];
      StepSeesChildValue(n, cur, me, maxDepth, sim, eval, i);
      var M := Minimax(Child(cur, mv, sim, eval), me, maxDepth, sim, eval).value;
      assert M == cv[i];
      FirstMinStep(cv, i, k, cur.value);
      var took := !cur.linked || M < cur.value;
      var cur' := if took then cur.(value := M, linked := true, bestMove := Some(mv)) else cur;
      MinimaxLoopStep(cur, me, maxDepth, sim, eval, i, M, cur');
      MinLoopTakesFirstBest(n, cur', me, maxDepth, sim, eval, cv, i + 1, if took then i else k);
    } else {
      assert FirstMinUpTo(cv, |n.moves|, k, cur.value);
    }
  }


  /**
   * decide_on_action, on possible actions that are all moves, plays the first of them whose
   * full-search value is the largest.
   */
  lemma DecisionIsFirstBest(b: BoardState, side: Side, possible: seq<Action>,
                            sim: Sim, eval: Eval, inv: BoardState -> bool)
    requires SimMovesOnly(sim) && EvalInRange(eval, inv)
    requires SimKeeps(sim, inv) && inv(b)
    requires 0 < |possible| && MovesOnly(possible)
    ensures exists k :: FirstMaxUpTo(ChildValues(Root(b, side, possible), side, MaxDepth, sim, eval), |possible|, k,
                                     Minimax(Root(b, side, possible), side, MaxDepth, sim, eval).value) &&
                        DecideOnAction(b, side, possible, sim, eval) == possible[k]
  {
    DecisionUnaffectedByPruning(b, side, possible, sim, eval, inv);
    MaxTakesFirstBest(Root(b, side, possible), side, MaxDepth, sim, eval);
  }

  // ---------------------------------------------------------------- the shipped search

  /**
   * simulate_move offers only moves and keeps a board Bounded, and the heuristic is strictly
   * within the clamps on every Bounded board: the hypotheses above hold of the agent of
   * agents.py on every board the game can reach.
   */
  lemma ShippedSearchAdmissible()
    ensures SimMovesOnly(SimulateMove) && SimKeeps(SimulateMove, Bounded) && EvalInRange(Heuristic, Bounded)
  {
    forall b: BoardState, s: Side, a: Action | Bounded(b) ensures Bounded(SimulateMove(b, s, a).board) {
      Rules.StepsBounded(b, s, a);
    }
  }

  /**
   * On a board the game can reach, the minimax agent of agents.py (decide_on_action over
   * simulate_move and the heuristic) plays the move of the full search.
   */
  lemma ShippedDecisionUnpruned(b: BoardState, side: Side, possible: seq<Action>)
    requires Bounded(b)
    ensures Some(DecideOnAction(b, side, possible, SimulateMove, Heuristic)) ==
      Minimax(Root(b, side, possible), side, MaxDepth, SimulateMove, Heuristic).bestMove
  {
    ShippedSearchAdmissible();
    DecisionUnaffectedByPruning(b, side, possible, SimulateMove, Heuristic, Bounded);
  }

  /**
   * On a board the game can reach and moves only, the minimax agent plays the first of the
   * moves whose full-search value is the largest.
   */
  lemma ShippedDecisionIsFirstBest(b: BoardState, side: Side, possible: seq<Action>)
    requires Bounded(b) && 0 < |possible| && MovesOnly(possible)
    ensures exists k :: FirstMaxUpTo(ChildValues(Root(b, side, possible), side, MaxDepth, SimulateMove, Heuristic),
                                     |possible|, k,
                                     Minimax(Root(b, side, possible), side, MaxDepth, SimulateMove, Heuristic).value) &&
                        DecideOnAction(b, side, possible, SimulateMove, Heuristic) == possible[k]
  {
    ShippedSearchAdmissible();
    DecisionIsFirstBest(b, side, possible, SimulateMove, Heuristic, Bounded);
  }
}
