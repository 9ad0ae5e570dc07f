/**
 * The minimax player of kalah_python/utils/agents.py: GameNode (agents.py:255-294), the
 * heuristic that simulate_move assigns to a node (agents.py:374-430), and
 * MiniMaxAgent.choose_mini_max_move / decide_on_action (agents.py:451-509).
 *
 * The source deep-copies a node before every move, so a node is a value here.  The only
 * thing the search ever asks of the `next` reference is whether it is None; that is the
 * flag `linked`, which a copy takes over from its parent like every other field.
 */
module MiniMaxAgent {
  import opened Wrappers
  import opened Enums
  import opened Boards
  import opened Rules

  /** The default max_depth, alpha and beta of choose_mini_max_move. */
  const MaxDepth: int := 3
  const AlphaInit: real := -9999.0
  const BetaInit: real := 9999.0
  /** The clamps max_evaluation = -999.0 and min_evaluation = 999.0. */
  const MaxFloor: real := -999.0
  const MinCeil: real := 999.0

  function RMax(x: real, y: real): real { if x >= y then x else y }
  function RMin(x: real, y: real): real { if x <= y then x else y }

  /** The evaluation of a move: the board before it, the mover and the hole sown. */
  type Eval = (BoardState, Side, HoleIdx) -> real

  /** What GameNode.move leaves in a node: the board, the player to move, its moves, is_over. */
  datatype Moved = Moved(board: BoardState, player: Side, moves: seq<Action>, ended: bool)

  /** The move simulator the search is given: simulate_move followed by the new move list. */
  type Sim = (BoardState, Side, Action) -> Moved

  /**
   * GameNode: the board, the player to move, the depth, the moves to search, whether `next`
   * is set, the value, the best move found (None until the root sets SWAP) and is_over.
   */
  datatype GameNode = GameNode(
    board: BoardState, player: Side, depth: int, moves: seq<Action>,
    linked: bool, value: real, bestMove: Option<Action>, isOver: bool)

  /** [Action(value=i) for i in holes]: a move for each hole number. */
  function MoveList(holes: seq<int>): (r: seq<Action>)
    requires forall k :: 0 <= k < |holes| ==> 1 <= holes[k] <= 7
    ensures |r| == |holes| && forall k :: 0 <= k < |holes| ==> r[k] == Move(holes[k])
  {
    if holes == [] then [] else [Move(holes[0])] + MoveList(holes[1..])
  }

  /** The moves GameNode.move leaves in a node: one per nonempty hole of the player. */
  function MovesOf(b: BoardState, player: Side): (r: seq<Action>)
    ensures forall k :: 0 <= k < |r| ==> r[k].Move? && b.Cell(player, r[k].well) != 0
    ensures forall h: HoleIdx :: b.Cell(player, h) != 0 ==> Move(h) in r
    ensures forall p, q :: 0 <= p < q < |r| ==> r[p].well < r[q].well
  {
    var hs := NonzeroHoles(b, player);
    assert forall k :: 0 <= k < |hs| ==> hs[k] in hs;
    forall h: HoleIdx | b.Cell(player, h) != 0 ensures Move(h) in MoveList(hs) {
      MoveListHas(hs, h);
    }
    MoveList(hs)
  }

  lemma MoveListHas(hs: seq<int>, h: int)
    requires forall k :: 0 <= k < |hs| ==> 1 <= hs[k] <= 7
    requires h in hs
    ensures Move(h) in MoveList(hs)
  {
    assert MoveList(hs)[IndexOf(hs, h)] == Move(h);
  }

  /** The moves for the nonempty holes 1 .. h - 1 of a row, as the walk over the holes collects them. */
  function MovesUpTo(row: Row, h: int): seq<Action>
    requires 1 <= h <= 8
  {
    if h == 1 then [] else MovesUpTo(row, h - 1) + (if row[h - 1] != 0 then [Move(h - 1)] else [])
  }

  /** The walk up to h followed by the comprehension from h is the whole comprehension. */
  lemma {:induction false} MovesUpToSplit(row: Row, h: int)
    requires 1 <= h <= 8
    ensures MovesUpTo(row, h) + MoveList(NonzeroFrom(row, h)) == MoveList(NonzeroFrom(row, 1))
    decreases h
  {
    if h > 1 {
      MovesUpToSplit(row, h - 1);
      MovesUpToStep(row, h);
    }
  }

  /** Moving hole h - 1 from the comprehension to the walk keeps the whole. */
  lemma MovesUpToStep(row: Row, h: int)
    requires 1 < h <= 8
    ensures MovesUpTo(row, h - 1) + MoveList(NonzeroFrom(row, h - 1)) == MovesUpTo(row, h) + MoveList(NonzeroFrom(row, h))
  {
    var here: seq<int> := if row[h - 1] != 0 then [h - 1] else [];
    var rest := NonzeroFrom(row, h);
    var front := MovesUpTo(row, h - 1);
    NonzeroFromStep(row, h - 1);
    MoveListAppend(here, rest);
    AppendAssoc(front, MoveList(here), MoveList(rest));
    assert MoveList(here) == if row[h - 1] != 0 then [Move(h - 1)] else [];
  }

  /** One step of the comprehension over the holes: hole i, if nonzero, then the holes after it. */
  lemma NonzeroFromStep(row: Row, i: int)
    requires 1 <= i < 8
    ensures NonzeroFrom(row, i) == (if row[i] != 0 then [i] else []) + NonzeroFrom(row, i + 1)
  {
  }

  lemma AppendAssoc<T>(a: seq<T>, b: seq<T>, c: seq<T>)
    ensures a + (b + c) == (a + b) + c
  {
  }

  /** [Action(value=i) for i in xs + ys] is the two comprehensions one after the other. */
  lemma {:induction false} MoveListAppend(xs: seq<int>, ys: seq<int>)
    requires forall k :: 0 <= k < |xs| ==> 1 <= xs[k] <= 7
    requires forall k :: 0 <= k < |ys| ==> 1 <= ys[k] <= 7
    ensures MoveList(xs + ys) == MoveList(xs) + MoveList(ys)
  {
    if xs != [] {
      assert (xs + ys)[1..] == xs[1..] + ys;
      MoveListAppend(xs[1..], ys);
    }
  }
  function IndexOf(s: seq<int>, x: int): (k: int)
    requires x in s
    ensures 0 <= k < |s| && s[k] == x
  {
    if s[0] == x then 0 else 1 + IndexOf(s[1..], x)
  }

  /**
   * seeds_added_to_store of simulate_move: the remainder seeds that reach the mover's store,
   * the capture (1 + the facing hole) and the sweep, whichever store the sweep fills.  The
   * full laps are not counted.  On a board without negative cells the count is at most two
   * more than twice the board's seeds.
   */
  function SeedsAddedToStore(b: BoardState, mover: Side, h: HoleIdx): (r: int)
    ensures NonNegative(b) ==> 0 <= r <= 2 + 2 * Total(b)
  {
    if NonNegative(b) then
      CapturedAtMost(b, mover, h);
      SweptAtMost(b, mover, h);
      SownIntoStore(b, mover, h) + CapturedIntoStore(b, mover, h) + SweptIntoStore(b, mover, h)
    else SownIntoStore(b, mover, h) + CapturedIntoStore(b, mover, h) + SweptIntoStore(b, mover, h)
  }

  /** The remainder seed that lands in the mover's store, if one does. */
  function SownIntoStore(b: BoardState, mover: Side, h: HoleIdx): (r: int)
    ensures 0 <= r <= 1
  {
    var s := Sow(b, mover, h);
    if Receives(mover, StartHole(h, s.laps) - 1, s.rem, Pos(mover, 0)) then 1 else 0
  }

  /** The capture: the last seed and the facing hole, or nothing. */
  function CapturedIntoStore(b: BoardState, mover: Side, h: HoleIdx): int
  {
    var s := Sow(b, mover, h);
    var last := LastPos(s, mover);
    if Captures(s, mover) then 1 + s.board.Cell(mover.Opposite(), 8 - last.idx) else 0
  }

  /** The sweep at the end of the game: the seeds left in the holes of the side that still has some. */
  function SweptIntoStore(b: BoardState, mover: Side, h: HoleIdx): int
  {
    var b4 := AfterCapture(b, mover, h);
    var finished := FinishedSide(b4, mover);
    if finished.Some? then HoardSideValue(b4, finished.value.Opposite()) else 0
  }

  /** The facing hole a capture takes holds at most the board's seeds. */
  lemma CapturedAtMost(b: BoardState, mover: Side, h: HoleIdx)
    requires NonNegative(b)
    ensures 0 <= CapturedIntoStore(b, mover, h) <= 1 + Total(b)
  {
    var r := Sow(b, mover, h);
    CellAtMostTotal(b, mover, 0);
    if Captures(r, mover) {
      AfterCaptureNonNegative(b, mover, h);
      CellAtMostTotal(r.board, mover.Opposite(), 8 - LastPos(r, mover).idx);
    }
  }

  /** The hoard a sweep moves holds at most the board's seeds. */
  lemma SweptAtMost(b: BoardState, mover: Side, h: HoleIdx)
    requires NonNegative(b)
    ensures 0 <= SweptIntoStore(b, mover, h) <= Total(b)
  {
    var b4 := AfterCapture(b, mover, h);
    var f := FinishedSide(b4, mover);
    CellAtMostTotal(b, mover, 0);
    if f.Some? {
      AfterCaptureNonNegative(b, mover, h);
      CellAtMostTotal(b4, f.value.Opposite(), 0);
    }
  }

  /** The terms of the heuristic on a Bounded board, each within the board's seeds. */
  lemma HeuristicParts(b: BoardState, mover: Side, h: HoleIdx)
    ensures var after := Apply(b, mover, h).board;
      Bounded(b) ==>
        -Total(b) <= StoreOffset(after, mover) <= Total(b) && 0 <= HoardSideValue(after, mover) <= Total(b) &&
        0 <= after.Store(mover.Opposite()) <= Total(b) && 0 <= SeedsAddedToStore(b, mover, h) <= 2 + 2 * Total(b) &&
        Total(b) <= 98
  {
    if Bounded(b) {
      var after := Apply(b, mover, h).board;
      ApplyNonNegative(b, mover, h);
      ApplyConserves(b, mover, h);
      CellAtMostTotal(after, mover, 0);
      CellAtMostTotal(after, mover.Opposite(), 0);
    }
  }

  /**
   * The value simulate_move gives the node after the mover sows hole h: a quarter of the
   * store offset, 0.8 times a bonus (25 for a capture and 15 for a last seed in the store
   * when the move ends the game, 20 for either otherwise), the seeds added to the store,
   * 0.3 times the seeds left in the mover's holes, 2 for holes 1..3, minus a tenth of the
   * opponent's store; all read on the board after the move.
   */
  function Heuristic(b: BoardState, mover: Side, h: HoleIdx): (r: real)
    ensures Bounded(b) ==> -35.0 < r < 275.0
  {
    HeuristicParts(b, mover, h);
    var o := Apply(b, mover, h);
    var after := o.board;
    var bonus: real :=
      if o.ended then (if o.captured then 25.0 else if o.lastInStore then 15.0 else 0.0)
      else if o.captured || o.lastInStore then 20.0 else 0.0;
    0.25 * (StoreOffset(after, mover) as real) + 0.8 * bonus + (SeedsAddedToStore(b, mover, h) as real)
      + 0.3 * (HoardSideValue(after, mover) as real) + (if h < 4 then 2.0 else 0.0)
      - 0.1 * (after.Store(mover.Opposite()) as real)
  }

  /**
   * simulate_move followed by GameNode.move's new move list: the board effect, the turn
   * rule of simulate_move, the moves of the player now to move, and whether the game ended.
   */
  function SimulateMove(b: BoardState, player: Side, a: Action): (m: Moved)
    ensures forall k :: 0 <= k < |m.moves| ==> m.moves[k].Move?
    ensures (m.board, m.player) == SimulateStep(b, player, a)
    ensures forall h: HoleIdx :: Move(h) in m.moves <==> m.board.Cell(m.player, h) != 0
    ensures m.ended <==> a.Move? && Apply(b, player, a.well).ended
  {
    var (b', p') := SimulateStep(b, player, a);
    Moved(b', p', MovesOf(b', p'), a.Move? && Apply(b, player, a.well).ended)
  }

  /**
   * copy.deepcopy(gnode), depth + 1, then GameNode.move: the copy keeps the `next` flag,
   * the value and the best move of its parent; a move replaces the value by its evaluation,
   * SWAP keeps the copied value.
   */
  function Child(n: GameNode, mv: Action, sim: Sim, eval: Eval): (c: GameNode)
    ensures c.depth == n.depth + 1 && c.linked == n.linked && c.bestMove == n.bestMove
    ensures c.board == sim(n.board, n.player, mv).board
    ensures mv == Swap ==> c.value == n.value
    ensures mv.Move? ==> c.value == eval(n.board, n.player, mv.well)
  {
    var m := sim(n.board, n.player, mv);
    GameNode(m.board, m.player, n.depth + 1, m.moves, n.linked,
      if mv.Move? then eval(n.board, n.player, mv.well) else n.value, n.bestMove, n.isOver || m.ended)
  }

  /** How many more levels the search may expand below n. */
  function Budget(n: GameNode, maxDepth: int): nat
  {
    if n.depth <= maxDepth then maxDepth - n.depth + 1 else 0
  }

  /** GameNode.over: is_over becomes True when no move is left. */
  function Over(n: GameNode): (r: GameNode)
    ensures r.isOver <==> n.isOver || n.moves == []
    ensures r.(isOver := n.isOver) == n
  {
    n.(isOver := n.isOver || |n.moves| < 1)
  }

  /** The result node of choose_mini_max_move(n, maxDepth, a, b) for the maximising side me. */
  function Search(n: GameNode, me: Side, maxDepth: int, a: real, b: real, sim: Sim, eval: Eval): (r: GameNode)
    ensures r.board == n.board && r.player == n.player && r.depth == n.depth && r.moves == n.moves
    decreases Budget(n, maxDepth), 1
  {
    if n.depth > maxDepth then n
    else if Over(n).isOver then Over(n)
    else SearchLoop(n, me, maxDepth, a, b, sim, eval, 0)
  }

  /** The loop of choose_mini_max_move from move i on, with the current alpha a and beta b. */
  function SearchLoop(n: GameNode, me: Side, maxDepth: int, a: real, b: real, sim: Sim, eval: Eval, i: int): (r: GameNode)
    requires n.depth <= maxDepth && 0 <= i <= |n.moves|
    ensures r.board == n.board && r.player == n.player && r.depth == n.depth && r.moves == n.moves
    decreases Budget(n, maxDepth), 0, |n.moves| - i
  {
    if i == |n.moves| then n
    else
      var mv := n.moves[i];
      var c := Search(Child(n, mv, sim, eval), me, maxDepth, a, b, sim, eval);
      var keep := !n.linked;
      if n.player == me then
        if keep || c.value > n.value then
          var n' := n.(value := c.value, linked := true, bestMove := Some(mv));
          var a' := RMax(a, RMax(MaxFloor, n'.value));
          if b <= a' then n' else SearchLoop(n', me, maxDepth, a', b, sim, eval, i + 1)
        else SearchLoop(n, me, maxDepth, a, b, sim, eval, i + 1)
      else
        if keep || c.value < n.value then
          var n' := n.(value := c.value, linked := true, bestMove := Some(mv));
          var b' := RMin(b, RMin(MinCeil, n'.value));
          if b' <= a then n' else SearchLoop(n', me, maxDepth, a, b', sim, eval, i + 1)
        else SearchLoop(n, me, maxDepth, a, b, sim, eval, i + 1)
  }

  /** MiniMaxAgent.choose_mini_max_move: the recursive search, one loop per node. */
  method ChooseMiniMaxMove(gnode: GameNode, me: Side, maxDepth: int, alpha: real, beta: real, sim: Sim, eval: Eval)
    returns (r: GameNode)
    ensures r == Search(gnode, me, maxDepth, alpha, beta, sim, eval)
    decreases Budget(gnode, maxDepth)
  {
    r := gnode;
    if r.depth > maxDepth {
      return;
    }
    r := Over(r);
    if r.isOver {
      return;
    }
    var a, b := alpha, beta;
    var i := 0;
    while i < |r.moves|
      invariant 0 <= i <= |r.moves| && r.depth == gnode.depth && r.moves == gnode.moves
      invariant SearchLoop(r, me, maxDepth, a, b, sim, eval, i) == Search(gnode, me, maxDepth, alpha, beta, sim, eval)
      decreases |r.moves| - i
    {
      var mv := r.moves[i];
      var nxt := Child(r, mv, sim, eval);
      nxt := ChooseMiniMaxMove(nxt, me, maxDepth, a, b, sim, eval);
      var keep := !r.linked;
      if r.player == me {
        if keep || nxt.value > r.value {
          r := r.(value := nxt.value, linked := true, bestMove := Some(mv));
          a := RMax(a, RMax(MaxFloor, r.value));
          if b <= a {
            return;
          }
        }
      } else {
        if keep || nxt.value < r.value {
          r := r.(value := nxt.value, linked := true, bestMove := Some(mv));
          b := RMin(b, RMin(MinCeil, r.value));
          if b <= a {
            return;
          }
        }
      }
      i := i + 1;
    }
  }

  /** The root that decide_on_action builds: value 0.0, no `next`, best_move SWAP. */
  function Root(b: BoardState, side: Side, possible: seq<Action>): (r: GameNode)
    ensures Over(r).isOver <==> possible == []
    ensures r.bestMove == Some(Swap) && !r.linked && r.depth == 0
  {
    GameNode(b, side, 0, possible, false, 0.0, Some(Swap), false)
  }

  /**
   * MiniMaxAgent.decide_on_action: the best move of the searched root; a member of a
   * nonempty list of possible actions, SWAP when the list is empty.
   */
  function DecideOnAction(b: BoardState, side: Side, possible: seq<Action>, sim: Sim, eval: Eval): (a: Action)
    ensures possible == [] ==> a == Swap
    ensures possible != [] ==> a in possible
  {
    var r := Search(Root(b, side, possible), side, MaxDepth, AlphaInit, BetaInit, sim, eval);
    if possible == [] then r.bestMove.value
    else
      FirstMoveTaken(Root(b, side, possible), side, MaxDepth, AlphaInit, BetaInit, sim, eval);
      r.bestMove.value
  }

  /** The best move of a searched node is the one it had or one of its moves. */
  lemma {:induction false} SearchBestMove(n: GameNode, me: Side, maxDepth: int, a: real, b: real, sim: Sim, eval: Eval)
    ensures var r := Search(n, me, maxDepth, a, b, sim, eval);
      r.bestMove == n.bestMove || exists k :: 0 <= k < |n.moves| && r.bestMove == Some(n.moves[k])
    decreases Budget(n, maxDepth), 1
  {
    if n.depth <= maxDepth && !Over(n).isOver {
      SearchLoopBestMove(n, me, maxDepth, a, b, sim, eval, 0);
    }
  }

  lemma SearchLoopBestMove(n: GameNode, me: Side, maxDepth: int, a: real, b: real, sim: Sim, eval: Eval, i: int)
    requires n.depth <= maxDepth && 0 <= i <= |n.moves|
    ensures var r := SearchLoop(n, me, maxDepth, a, b, sim, eval, i);
      r.bestMove == n.bestMove || exists k :: i <= k < |n.moves| && r.bestMove == Some(n.moves[k])
  {
    if n.player == me {
      MaxLoopBestMove(n, me, maxDepth, a, b, sim, eval, i);
    } else {
      MinLoopBestMove(n, me, maxDepth, a, b, sim, eval, i);
    }
  }

  /** SearchLoopBestMove at a maximising node. */
  lemma {:induction false} MaxLoopBestMove(n: GameNode, me: Side, maxDepth: int, a: real, b: real, sim: Sim, eval: Eval, i: int)
    requires n.depth <= maxDepth && 0 <= i <= |n.moves| && n.player == me
    ensures var r := SearchLoop(n, me, maxDepth, a, b, sim, eval, i);
      r.bestMove == n.bestMove || exists k :: i <= k < |n.moves| && r.bestMove == Some(n.moves[k])
    decreases |n.moves| - i
  {
    if i < |n.moves| {
      var mv := n.moves[i];
      var P := Search(Child(n, mv, sim, eval), me, maxDepth, a, b, sim, eval).value;
      var took := !n.linked || P > n.value;
      var n' := if took then n.(value := P, linked := true, bestMove := Some(mv)) else n;
      var a' := if took then RMax(a, RMax(MaxFloor, P)) else a;
      SearchLoopMaxStep(n, me, maxDepth, a, b, sim, eval, i, P, n', a');
      if took && b <= a' {
        BestMoveChain(n, n', i, n');
      } else {
        MaxLoopBestMove(n', me, maxDepth, a', b, sim, eval, i + 1);
        BestMoveChain(n, n', i, SearchLoop(n', me, maxDepth, a', b, sim, eval, i + 1));
      }
    }
  }

  /** SearchLoopBestMove at a minimising node. */
  lemma {:induction false} MinLoopBestMove(n: GameNode, me: Side, maxDepth: int, a: real, b: real, sim: Sim, eval: Eval, i: int)
    requires n.depth <= maxDepth && 0 <= i <= |n.moves| && n.player != me
    ensures var r := SearchLoop(n, me, maxDepth, a, b, sim, eval, i);
      r.bestMove == n.bestMove || exists k :: i <= k < |n.moves| && r.bestMove == Some(n.moves[k])
    decreases |n.moves| - i
  {
    if i < |n.moves| {
      var mv := n.moves[i];
      var P := Search(Child(n, mv, sim, eval), me, maxDepth, a, b, sim, eval).value;
      var took := !n.linked || P < n.value;
      var n' := if took then n.(value := P, linked := true, bestMove := Some(mv)) else n;
      var b' := if took then RMin(b, RMin(MinCeil, P)) else b;
      SearchLoopMinStep(n, me, maxDepth, a, b, sim, eval, i, P, n', b');
      if took && b' <= a {
        BestMoveChain(n, n', i, n');
      } else {
        MinLoopBestMove(n', me, maxDepth, a, b', sim, eval, i + 1);
        BestMoveChain(n, n', i, SearchLoop(n', me, maxDepth, a, b', sim, eval, i + 1));
      }
    }
  }

  /** A turn of the loop keeps the best move, or takes move i; what follows takes a later one. */
  lemma BestMoveChain(n: GameNode, n': GameNode, i: int, r: GameNode)
    requires 0 <= i < |n.moves| && n'.moves == n.moves
    requires n'.bestMove == n.bestMove || n'.bestMove == Some(n.moves[i])
    requires r.bestMove == n'.bestMove || exists k :: i + 1 <= k < |n'.moves| && r.bestMove == Some(n'.moves[k])
    ensures r.bestMove == n.bestMove || exists k :: i <= k < |n.moves| && r.bestMove == Some(n.moves[k])
  {
    if r.bestMove != n.bestMove && r.bestMove == n'.bestMove {
      assert r.bestMove == Some(n.moves[i]);
    }
  }

  /** One turn of the pruned loop at a maximising node: it stops once alpha reaches beta. */
  lemma SearchLoopMaxStep(np: GameNode, me: Side, maxDepth: int, x: real, b: real, sim: Sim, eval: Eval, i: int,
                          P: real, np': GameNode, x': real)
    requires np.depth <= maxDepth && 0 <= i < |np.moves| && np.player == me
    requires P == Search(Child(np, np.moves[i], sim, eval), me, maxDepth, x, b, sim, eval).value
    requires np' == if !np.linked || P > np.value then np.(value := P, linked := true, bestMove := Some(np.moves[i])) else np
    requires x' == if !np.linked || P > np.value then RMax(x, RMax(MaxFloor, P)) else x
    ensures SearchLoop(np, me, maxDepth, x, b, sim, eval, i) ==
      if (!np.linked || P > np.value) && b <= x' then np' else SearchLoop(np', me, maxDepth, x', b, sim, eval, i + 1)
  {
  }

  /** One turn of the pruned loop at a minimising node: it stops once beta reaches alpha. */
  lemma SearchLoopMinStep(np: GameNode, me: Side, maxDepth: int, a: real, y: real, sim: Sim, eval: Eval, i: int,
                          P: real, np': GameNode, y': real)
    requires np.depth <= maxDepth && 0 <= i < |np.moves| && np.player != me
    requires P == Search(Child(np, np.moves[i], sim, eval), me, maxDepth, a, y, sim, eval).value
    requires np' == if !np.linked || P < np.value then np.(value := P, linked := true, bestMove := Some(np.moves[i])) else np
    requires y' == if !np.linked || P < np.value then RMin(y, RMin(MinCeil, P)) else y
    ensures SearchLoop(np, me, maxDepth, a, y, sim, eval, i) ==
      if (!np.linked || P < np.value) && y' <= a then np' else SearchLoop(np', me, maxDepth, a, y', sim, eval, i + 1)
  {
  }

  /** An unlinked node that is expanded takes its first move at once, so its best move is one of its moves. */
  lemma FirstMoveTaken(n: GameNode, me: Side, maxDepth: int, a: real, b: real, sim: Sim, eval: Eval)
    requires !n.linked && n.depth <= maxDepth && !n.isOver && n.moves != []
    ensures var r := Search(n, me, maxDepth, a, b, sim, eval);
      exists k :: 0 <= k < |n.moves| && r.bestMove == Some(n.moves[k])
  {
    var mv := n.moves[0];
    var c := Search(Child(n, mv, sim, eval), me, maxDepth, a, b, sim, eval);
    var n' := n.(value := c.value, linked := true, bestMove := Some(mv));
    if n.player == me {
      SearchLoopBestMove(n', me, maxDepth, RMax(a, RMax(MaxFloor, n'.value)), b, sim, eval, 1);
    } else {
      SearchLoopBestMove(n', me, maxDepth, a, RMin(b, RMin(MinCeil, n'.value)), sim, eval, 1);
    }
  }

  /** decide_on_action as the agent runs it: the search method on the root. */
  method Decide(b: BoardState, side: Side, possible: seq<Action>, sim: Sim, eval: Eval) returns (a: Action)
    ensures a == DecideOnAction(b, side, possible, sim, eval)
  {
    var root := Root(b, side, possible);
    var r := ChooseMiniMaxMove(root, side, MaxDepth, AlphaInit, BetaInit, sim, eval);
    if possible != [] {
      FirstMoveTaken(root, side, MaxDepth, AlphaInit, BetaInit, sim, eval);
    }
    a := r.bestMove.value;
  }
}
