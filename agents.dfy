/**
 * The agent of kalah_python/utils/agents.py (agents.py:75-211): the entry actions that
 * decide and register an action, the single-action slot, possible_actions and swap_side,
 * and the decision of the minimax agent (agents.py:490-509).
 *
 * The slot, the side and the state are specified on a value (AgentView); the class Agent
 * holds them in fields and its methods are proved to do what the specification says.
 */
module Agents {
  import opened Wrappers
  import opened Enums
  import opened Boards
  import opened MiniMaxAgent
  import opened AgentMachine

  /** decide_on_action: the board, the agent's side and the possible actions give an action. */
  type Decider = (BoardState, Side, seq<Action>) -> Action

  /** The subclass of Agent: the minimax agent, or any other rule that picks an action. */
  datatype Strategy = MiniMax | Chooser(pick: Decider)

  datatype AgentError =
    | MachineError(trigger: Trigger, from: AgentState)  // MachineError: no transition
    | AlreadyRegistered                                   // register_action's ValueError
    | NotRegistered                                       // unregister / commit ValueError
    | InvalidSide                                         // swap_side or a board call on side None

  /** MiniMaxAgent.decide_on_action on the heuristic and simulate_move of agents.py. */
  function MiniMaxDecision(b: BoardState, side: Side, possible: seq<Action>): (a: Action)
    ensures possible == [] ==> a == Swap
    ensures possible != [] ==> a in possible
  {
    DecideOnAction(b, side, possible, SimulateMove, Heuristic)
  }

  function DeciderOf(st: Strategy): Decider
  {
    match st
    case MiniMax => MiniMaxDecision
    case Chooser(pick) => pick
  }

  /** An action one of the possible ones, SWAP when there is none: what register expects. */
  predicate Chosen(a: Action, possible: seq<Action>)
  {
    (possible == [] ==> a == Swap) && (possible != [] ==> a in possible)
  }

  ghost predicate Sound(decide: Decider)
  {
    forall b: BoardState, s: Side, p: seq<Action> :: Chosen(decide(b, s, p), p)
  }

  /** The minimax agent always picks one of the actions it is offered. */
  lemma MiniMaxSound()
    ensures Sound(MiniMaxDecision)
  {
  }

  /**
   * The list possible_actions builds for a side: a move for each nonempty hole of the side
   * in ascending order, then SWAP when the state is MAKE_MOVE_OR_SWAP.
   */
  function ActionsFor(b: BoardState, state: AgentState, side: Side): (r: seq<Action>)
    ensures forall h: HoleIdx :: Move(h) in r <==> b.Cell(side, h) != 0
    ensures Swap in r <==> state == MakeMoveOrSwap
    ensures forall p, q :: 0 <= p < q < |r| && r[q].Move? ==> r[p].Move? && r[p].well < r[q].well
  {
    var moves := MovesOf(b, side);
    var tail := if state == MakeMoveOrSwap then [Swap] else [];
    var r := moves + tail;
    assert forall k :: 0 <= k < |moves| ==> r[k] == moves[k];
    assert forall k :: |moves| <= k < |r| ==> r[k] == Swap;
    assert Swap !in moves;
    assert forall h: HoleIdx :: Move(h) in r <==> Move(h) in moves;
    r
  }

  /** Agent.possible_actions: without a side the board raises. */
  function PossibleActionsOf(b: BoardState, state: AgentState, side: Option<Side>): (r: Result<seq<Action>, AgentError>)
    ensures side.None? ==> r == Err(InvalidSide)
    ensures side.Some? ==> r == Ok(ActionsFor(b, state, side.value))
  {
    if side.None? then Err(InvalidSide) else Ok(ActionsFor(b, state, side.value))
  }

  /** The state, side and action slot of an agent. */
  datatype AgentView = AgentView(state: AgentState, side: Option<Side>, action: Option<Action>) {

    /** register_action: refused while an action is pending. */
    function Register(a: Action): (r: (AgentView, Outcome<AgentError>))
      ensures action.None? ==> r == (this.(action := Some(a)), Pass)
      ensures action.Some? ==> r == (this, Fail(AlreadyRegistered))
    {
      if action.Some? then (this, Fail(AlreadyRegistered)) else (this.(action := Some(a)), Pass)
    }

    /** unregister_action: refused when nothing is pending. */
    function Unregister(): (r: (AgentView, Outcome<AgentError>))
      ensures action.Some? ==> r == (this.(action := None), Pass)
      ensures action.None? ==> r == (this, Fail(NotRegistered))
    {
      if action.None? then (this, Fail(NotRegistered)) else (this.(action := None), Pass)
    }

    /** swap_side: North and South trade places; without a side it raises. */
    function SwapSide(): (r: (AgentView, Outcome<AgentError>))
      ensures side.Some? ==> r.1 == Pass && r.0 == this.(side := Some(side.value.Opposite()))
      ensures side.None? ==> r == (this, Fail(InvalidSide))
    {
      if side.None? then (this, Fail(InvalidSide)) else (this.(side := Some(side.value.Opposite())), Pass)
    }

    /** The entry actions of DECIDE_ON_1ST_MOVE, MAKE_MOVE_OR_SWAP and DECIDE_ON_MOVE. */
    function DecideAndRegister(b: BoardState, decide: Decider): (r: (AgentView, Outcome<AgentError>))
      ensures r.0.state == state
      ensures side.None? ==> r == (this, Fail(InvalidSide))
      ensures side.Some? && action.Some? ==> r == (this, Fail(AlreadyRegistered))
      ensures side.Some? && action.None? ==>
        r == (this.(action := Some(decide(b, side.value, PossibleActionsOf(b, state, side).value))), Pass)
    {
      var possible := PossibleActionsOf(b, state, side);
      if possible.Err? then (this, Fail(possible.error))
      else Register(decide(b, side.value, possible.value))
    }

    /** The on_enter_* callback of the state the machine has just entered. */
    function Enter(b: BoardState, decide: Decider): (r: (AgentView, Outcome<AgentError>))
      ensures r.0.state == state
      ensures state == WaitFor1stMove ==> r == (this.(side := Some(North)), Pass)
      ensures state == DecideOn1stMove ==> r == this.(side := Some(South)).DecideAndRegister(b, decide)
      ensures state == MakeMoveOrSwap || state == DecideOnMove ==> r == DecideAndRegister(b, decide)
      ensures !Deciding(state) && state != WaitFor1stMove ==> r == (this, Pass)
    {
      match state
      case DecideOn1stMove => this.(side := Some(South)).DecideAndRegister(b, decide)
      case WaitFor1stMove => (this.(side := Some(North)), Pass)
      case MakeMoveOrSwap => DecideAndRegister(b, decide)
      case DecideOnMove => DecideAndRegister(b, decide)
      case _ => (this, Pass)
    }

    /**
     * Calling a trigger: MachineError and no change when it has no transition here;
     * otherwise the state changes first and then the entry action runs (its error leaves
     * the new state in place).
     */
    function Fire(b: BoardState, decide: Decider, tr: Trigger): (r: (AgentView, Outcome<AgentError>))
      ensures Next(state, tr).None? ==> r == (this, Fail(MachineError(tr, state)))
      ensures Next(state, tr).Some? ==> r.0.state == Next(state, tr).value
    {
      var n := Next(state, tr);
      if n.None? then (this, Fail(MachineError(tr, state)))
      else this.(state := n.value).Enter(b, decide)
    }

    /**
     * commit_action: a pending move fires `moves`; a pending SWAP first swaps the side and
     * then fires `swaps` (a refused `swaps` leaves the side swapped).
     */
    function Commit(b: BoardState, decide: Decider): (r: (AgentView, Outcome<AgentError>))
      ensures action.None? ==> r == (this, Fail(NotRegistered))
      ensures action == Some(Swap) && side.None? ==> r == (this, Fail(InvalidSide))
      ensures action == Some(Swap) && side.Some? ==> r == SwapSide().0.Fire(b, decide, Swaps)
      ensures action.Some? && action.value.Move? ==> r == Fire(b, decide, Moves)
    {
      if action.None? then (this, Fail(NotRegistered))
      else if action.value.Move? then Fire(b, decide, Moves)
      else
        var (v, out) := SwapSide();
        if out.Fail? then (v, out) else v.Fire(b, decide, Swaps)
    }
  }

  /** register then unregister on a free slot changes nothing. */
  lemma RegisterUnregister(v: AgentView, a: Action)
    requires v.action.None?
    ensures v.Register(a).1 == Pass && v.Register(a).0.Unregister() == (v, Pass)
  {
  }

  /** swap_side twice restores the side. */
  lemma SwapSideTwice(v: AgentView)
    requires v.side.Some?
    ensures v.SwapSide().0.SwapSide() == (v, Pass)
  {
    OppositeInvolution(v.side.value);
  }

  /**
   * An agent with a sound decider (the minimax agent is one) entering a deciding state with
   * a side and a free slot registers one of its possible actions, or SWAP when it has none.
   */
  lemma EnterRegistersChosen(v: AgentView, b: BoardState, decide: Decider)
    requires Sound(decide)
    requires Deciding(v.state) && v.action.None? && (v.state != DecideOn1stMove ==> v.side.Some?)
    ensures var (w, out) := v.Enter(b, decide);
      out == Pass && w.state == v.state && w.side.Some? && w.action.Some? &&
      Chosen(w.action.value, PossibleActionsOf(b, w.state, w.side).value)
  {
    var side := if v.state == DecideOn1stMove then South else v.side.value;
    var possible := PossibleActionsOf(b, v.state, Some(side)).value;
    assert Chosen(decide(b, side, possible), possible);
  }

  /**
   * A pending action that is one of the possible actions of a deciding state commits
   * without error, into the state that waits for the server; SWAP also swaps the side.
   */
  lemma CommitPossible(v: AgentView, b: BoardState, decide: Decider)
    requires Deciding(v.state) && v.side.Some? && v.action.Some?
    requires v.action.value in PossibleActionsOf(b, v.state, v.side).value
    ensures var (w, out) := v.Commit(b, decide);
      out == Pass && w.action == v.action &&
      w.state == (if v.state == DecideOn1stMove then WaitForMoveResult else WaitForGameState) &&
      w.side == (if v.action.value == Swap then Some(v.side.value.Opposite()) else v.side)
  {
    assert v.action.value == Swap ==> v.state == MakeMoveOrSwap;
    CommitDeciding(v, b, decide);
  }

  /** CommitPossible for any pending move, and for SWAP in MAKE_MOVE_OR_SWAP. */
  lemma CommitDeciding(v: AgentView, b: BoardState, decide: Decider)
    requires Deciding(v.state) && v.side.Some? && v.action.Some?
    requires v.action.value == Swap ==> v.state == MakeMoveOrSwap
    ensures var (w, out) := v.Commit(b, decide);
      out == Pass && w.action == v.action &&
      w.state == (if v.state == DecideOn1stMove then WaitForMoveResult else WaitForGameState) &&
      w.side == (if v.action.value == Swap then Some(v.side.value.Opposite()) else v.side)
  {
    CommitTriggers(v.state);
    NextIsDiagram(v.state, Moves);
    if v.action.value == Swap {
      FireQuiet(v.SwapSide().0, b, decide, Swaps, WaitForGameState);
    } else {
      var t := if v.state == DecideOn1stMove then WaitForMoveResult else WaitForGameState;
      assert Next(v.state, Moves) == Some(t);
      FireQuiet(v, b, decide, Moves, t);
    }
  }

  /**
   * The first player: new_match_1st from INIT takes South and registers its decision; the
   * second player only takes North.
   */
  lemma NewMatch(v: AgentView, b: BoardState, decide: Decider)
    requires v.state == Init && v.action.None?
    ensures var (w, out) := v.Fire(b, decide, NewMatch1st);
      out == Pass && w.state == DecideOn1stMove && w.side == Some(South) && w.action.Some?
    ensures var (w, out) := v.Fire(b, decide, NewMatch2nd);
      out == Pass && w == AgentView(WaitFor1stMove, Some(North), None)
  {
    NextIsDiagram(Init, NewMatch1st);
    NextIsDiagram(Init, NewMatch2nd);
  }

  /** A trigger into a state without an entry action only changes the state. */
  lemma FireQuiet(v: AgentView, b: BoardState, decide: Decider, tr: Trigger, t: AgentState)
    requires Next(v.state, tr) == Some(t) && !Deciding(t) && t != WaitFor1stMove
    ensures v.Fire(b, decide, tr) == (v.(state := t), Pass)
  {
  }

  /**
   * A trigger into MAKE_MOVE_OR_SWAP or DECIDE_ON_MOVE, with a side and a free slot,
   * registers the decision on the possible actions of the new state.
   */
  lemma FireDeciding(v: AgentView, b: BoardState, decide: Decider, tr: Trigger, t: AgentState)
    requires Next(v.state, tr) == Some(t) && (t == MakeMoveOrSwap || t == DecideOnMove)
    requires v.side.Some? && v.action.None?
    ensures v.Fire(b, decide, tr) ==
      (AgentView(t, v.side, Some(decide(b, v.side.value, ActionsFor(b, t, v.side.value)))), Pass)
  {
  }

  // ---------------------------------------------------------------- the agent, as an object

  /** Agent: the board it keeps up to date, its strategy, its state, its side, its action slot. */
  class Agent {
    const board: Board
    const strategy: Strategy
    var state: AgentState
    var side: Option<Side>
    var action: Option<Action>

    function View(): AgentView
      reads this
    {
      AgentView(state, side, action)
    }

    /** Agent.__init__: state INIT, no side, no action. */
    constructor (board: Board, strategy: Strategy)
      ensures this.board == board && this.strategy == strategy
      ensures View() == AgentView(Init, None, None)
    {
      this.board := board;
      this.strategy := strategy;
      state := Init;
      side := None;
      action := None;
    }

    /** action_is_registered */
    function ActionIsRegistered(): (r: bool)
      reads this
      ensures r <==> View().Unregister().1 == Pass
    {
      action.Some?
    }

    /** possible_actions, with nonzero_holes' walk over the holes of the side. */
    method PossibleActions() returns (r: Result<seq<Action>, AgentError>)
      requires board.Valid()
      ensures r == PossibleActionsOf(board.State(), state, side)
    {
      if side.None? {
        return Err(InvalidSide);
      }
      var b := board.State();
      var s := side.value;
      var acts: seq<Action> := [];
      for h := 1 to 8
        invariant acts == MovesUpTo(b.Row(s), h)
      {
        if board.Hole(h, s) != 0 {
          acts := acts + [Move(h)];
        }
      }
      MovesUpToSplit(b.Row(s), 8);
      assert MoveList(NonzeroFrom(b.Row(s), 8)) == [];
      assert acts == MovesOf(b, s);
      if state == MakeMoveOrSwap {
        acts := acts + [Swap];
      }
      r := Ok(acts);
    }

    method RegisterAction(a: Action) returns (r: Outcome<AgentError>)
      modifies this
      ensures (View(), r) == old(View()).Register(a)
    {
      if action.Some? {
        return Fail(AlreadyRegistered);
      }
      action := Some(a);
      r := Pass;
    }

    method UnregisterAction() returns (r: Outcome<AgentError>)
      modifies this
      ensures (View(), r) == old(View()).Unregister()
    {
      if action.None? {
        return Fail(NotRegistered);
      }
      action := None;
      r := Pass;
    }

    method SwapSide() returns (r: Outcome<AgentError>)
      modifies this
      ensures (View(), r) == old(View()).SwapSide()
    {
      if side == Some(North) {
        side := Some(South);
      } else if side == Some(South) {
        side := Some(North);
      } else {
        return Fail(InvalidSide);
      }
      r := Pass;
    }

    /** decide_on_action of the agent's strategy; the minimax agent runs its search. */
    method DecideOnAction(possible: seq<Action>) returns (a: Action)
      requires board.Valid() && side.Some?
      ensures a == DeciderOf(strategy)(board.State(), side.value, possible)
    {
      match strategy
      case MiniMax =>
        a := Decide(board.State(), side.value, possible, SimulateMove, Heuristic);
      case Chooser(pick) =>
        a := pick(board.State(), side.value, possible);
    }

    /** The entry action shared by the three deciding states. */
    method DecideAndRegister() returns (r: Outcome<AgentError>)
      requires board.Valid()
      modifies this
      ensures (View(), r) == old(View()).DecideAndRegister(board.State(), DeciderOf(strategy))
    {
      ghost var v := View();
      ghost var b := board.State();
      var possible := PossibleActions();
      if possible.Err? {
        return Fail(possible.error);
      }
      var a := DecideOnAction(possible.value);
      assert v.DecideAndRegister(b, DeciderOf(strategy)) == v.Register(a);
      r := RegisterAction(a);
    }

    /** Calling trigger tr on the machine, entry action included. */
    method Fire(tr: Trigger) returns (r: Outcome<AgentError>)
      requires board.Valid()
      modifies this
      ensures (View(), r) == old(View()).Fire(board.State(), DeciderOf(strategy), tr)
    {
      var n := Next(state, tr);
      if n.None? {
        return Fail(MachineError(tr, state));
      }
      state := n.value;
      if state == DecideOn1stMove {
        side := Some(South);
        r := DecideAndRegister();
      } else if state == WaitFor1stMove {
        side := Some(North);
        r := Pass;
      } else if state == MakeMoveOrSwap || state == DecideOnMove {
        r := DecideAndRegister();
      } else {
        r := Pass;
      }
    }

    /** commit_action */
    method CommitAction() returns (r: Outcome<AgentError>)
      requires board.Valid()
      modifies this
      ensures (View(), r) == old(View()).Commit(board.State(), DeciderOf(strategy))
    {
      if action.None? {
        return Fail(NotRegistered);
      }
      if action.value.Move? {
        r := Fire(Moves);
      } else {
        r := SwapSide();
        if r.Pass? {
          r := Fire(Swaps);
        }
      }
    }
  }
}
