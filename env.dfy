/**
 * The training environment of kalah_python/utils/env.py: one board shared by two agents,
 * agent_s (the first player, South at the start) and agent_n.  The environment executes an
 * agent's registered action on the board, commits it, and tells both agents whose turn it
 * is; at the end it decides the winner.
 *
 * Every operation is specified on a value (World) and the class KalahEnv is proved to do
 * what the specification says; execute_action keeps the loops of the source and is proved
 * equal to Rules.EnvStep.
 */
module Env {
  import opened Wrappers
  import opened Enums
  import opened Boards
  import opened Rules
  import opened AgentMachine
  import opened Agents

  /** The environment's two agents: agent_s and agent_n. */
  datatype Seat = SouthSeat | NorthSeat

  function Other(seat: Seat): Seat
  {
    if seat == SouthSeat then NorthSeat else SouthSeat
  }

  datatype EnvError =
    | NoActionRegistered             // order_agent: "Action should have been registered"
    | InvalidEnvState(s: EnvState)   // notify_game_state: "Invalid env_state"
    | GameNotEnded                   // game_res: "The game should have ended"
    | AgentFailed(e: AgentError)     // an error raised by one of the agents

  /** The GameRes record: a draw, or the winner, the loser and the winning margin. */
  datatype GameRes = GameRes(draw: bool, winner: Option<Seat>, loser: Option<Seat>, winScore: int)

  /** The deciders of the two agents. */
  datatype Deciders = Deciders(s: Decider, n: Decider) {
    function Of(seat: Seat): Decider
    {
      if seat == SouthSeat then s else n
    }
  }

  /** Everything the environment's operations read and change. */
  datatype World = World(board: BoardState, s: AgentView, n: AgentView, env: EnvState) {

    function Agent(seat: Seat): AgentView
    {
      if seat == SouthSeat then s else n
    }

    function WithAgent(seat: Seat, v: AgentView): (w: World)
      ensures w.Agent(seat) == v && w.board == board && w.env == env
      ensures w.Agent(Other(seat)) == Agent(Other(seat))
    {
      if seat == SouthSeat then this.(s := v) else this.(n := v)
    }

    /** Fire tr on one agent, on the shared board; the other agent and the board are kept. */
    function FireOn(seat: Seat, d: Deciders, tr: Trigger): (r: (World, Outcome<EnvError>))
      ensures r.0 == WithAgent(seat, Agent(seat).Fire(board, d.Of(seat), tr).0)
      ensures r.1.Pass? <==> Agent(seat).Fire(board, d.Of(seat), tr).1.Pass?
      ensures r.1.Fail? ==> r.1.error == AgentFailed(Agent(seat).Fire(board, d.Of(seat), tr).1.error)
    {
      var (v, out) := Agent(seat).Fire(board, d.Of(seat), tr);
      (WithAgent(seat, v), if out.Fail? then Fail(AgentFailed(out.error)) else Pass)
    }

    /** Fire trN on agent_n, then, unless that raised, trS on agent_s. */
    function FireBoth(d: Deciders, trN: Trigger, trS: Trigger): (r: (World, Outcome<EnvError>))
      ensures FireOn(NorthSeat, d, trN).1.Fail? ==> r == FireOn(NorthSeat, d, trN)
      ensures FireOn(NorthSeat, d, trN).1.Pass? ==> r == FireOn(NorthSeat, d, trN).0.FireOn(SouthSeat, d, trS)
      ensures r.0.board == board && r.0.env == env
    {
      var (w1, out) := FireOn(NorthSeat, d, trN);
      if out.Fail? then (w1, out) else w1.FireOn(SouthSeat, d, trS)
    }

    /**
     * notify_game_state: the agent whose turn it is hears `game_state_is_you` and the other
     * `game_state_is_opp` (agent_n is told first); both hear `game_state_is_end` when the
     * game has ended; any other env_state raises.
     */
    function Notify(d: Deciders): (r: (World, Outcome<EnvError>))
      ensures env == NorthTurn ==> r == FireBoth(d, GameStateIsYou, GameStateIsOpp)
      ensures env == SouthTurn ==> r == FireBoth(d, GameStateIsOpp, GameStateIsYou)
      ensures env == GameEnds ==> r == FireBoth(d, GameStateIsEnd, GameStateIsEnd)
      ensures env == EnvInit ==> r == (this, Fail(InvalidEnvState(EnvInit)))
      ensures r.0.board == board && r.0.env == env
    {
      match env
      case NorthTurn => FireBoth(d, GameStateIsYou, GameStateIsOpp)
      case SouthTurn => FireBoth(d, GameStateIsOpp, GameStateIsYou)
      case GameEnds => FireBoth(d, GameStateIsEnd, GameStateIsEnd)
      case EnvInit => (this, Fail(InvalidEnvState(EnvInit)))
    }

    /**
     * order_agent: the agent's registered action is executed for the agent's side, env_state
     * becomes the state execute_action returns, the agent commits and unregisters the
     * action, and both agents are notified.  Without a registered action it raises and
     * nothing changes; an agent without a side makes the board raise before anything
     * changes; an error further on leaves the effects of the steps before it in place.
     */
    function OrderAgent(seat: Seat, d: Deciders): (r: (World, Outcome<EnvError>))
      ensures Agent(seat).action.None? ==> r == (this, Fail(NoActionRegistered))
      ensures Agent(seat).action.Some? && Agent(seat).side.None? ==> r == (this, Fail(AgentFailed(InvalidSide)))
      ensures Agent(seat).action.Some? && Agent(seat).side.Some? ==>
        (r.0.board, r.0.env) == EnvStep(board, Agent(seat).side.value, Agent(seat).action.value)
    {
      var v := Agent(seat);
      if v.action.None? then (this, Fail(NoActionRegistered))
      else if v.side.None? then (this, Fail(AgentFailed(InvalidSide)))
      else
        var (b, st) := EnvStep(board, v.side.value, v.action.value);
        var (v1, out1) := v.Commit(b, d.Of(seat));
        var w1 := World(b, s, n, st).WithAgent(seat, v1);
        if out1.Fail? then (w1, Fail(AgentFailed(out1.error)))
        else
          var (v2, out2) := v1.Unregister();
          var w2 := w1.WithAgent(seat, v2);
          if out2.Fail? then (w2, Fail(AgentFailed(out2.error)))
          else w2.Notify(d)
    }

    /**
     * notify_game_state addressed by side instead of by seat: the agent that plays the side
     * whose turn it is hears `game_state_is_you`.  While agent_s plays South it is Notify.
     */
    function NotifyBySide(d: Deciders): (r: (World, Outcome<EnvError>))
      ensures s.side != Some(North) && n.side != Some(South) ==> r == Notify(d)
      ensures env == NorthTurn && s.side == Some(North) ==> r == FireBoth(d, GameStateIsOpp, GameStateIsYou)
      ensures env == SouthTurn && n.side == Some(South) ==> r == FireBoth(d, GameStateIsYou, GameStateIsOpp)
    {
      if env == NorthTurn && s.side == Some(North) then FireBoth(d, GameStateIsOpp, GameStateIsYou)
      else if env == SouthTurn && n.side == Some(South) then FireBoth(d, GameStateIsYou, GameStateIsOpp)
      else Notify(d)
    }

    /**
     * order_agent with the pie rule carried through: after the agent commits SWAP, the other
     * agent swaps its side as well, and the notification goes to the agents by the side they
     * now play.  Every other action is order_agent itself.
     */
    function OrderAgentPieRule(seat: Seat, d: Deciders): (r: (World, Outcome<EnvError>))
      ensures Agent(seat).action != Some(Swap) || Agent(seat).side.None? ==> r == OrderAgent(seat, d)
      ensures Agent(seat).action == Some(Swap) && Agent(seat).side.Some? ==> r.0.board == board && r.0.env == NorthTurn
    {
      var v := Agent(seat);
      if v.action != Some(Swap) || v.side.None? then OrderAgent(seat, d)
      else
        var (v1, out1) := v.Commit(board, d.Of(seat));
        var w1 := World(board, s, n, NorthTurn).WithAgent(seat, v1);
        if out1.Fail? then (w1, Fail(AgentFailed(out1.error)))
        else
          var (v2, out2) := v1.Unregister();
          var w2 := w1.WithAgent(seat, v2);
          if out2.Fail? then (w2, Fail(AgentFailed(out2.error)))
          else
            var (o, out3) := w2.Agent(Other(seat)).SwapSide();
            var w3 := w2.WithAgent(Other(seat), o);
            if out3.Fail? then (w3, Fail(AgentFailed(out3.error)))
            else w3.NotifyBySide(d)
    }

    /** The start of play_game: agent_s gets new_match_1st, agent_n new_match_2nd, South moves. */
    function StartGame(d: Deciders): (r: (World, Outcome<EnvError>))
      ensures FireOn(SouthSeat, d, NewMatch1st).1.Fail? ==> r == FireOn(SouthSeat, d, NewMatch1st)
      ensures FireOn(SouthSeat, d, NewMatch1st).1.Pass? ==>
        var w1 := FireOn(SouthSeat, d, NewMatch1st).0;
        r == if w1.FireOn(NorthSeat, d, NewMatch2nd).1.Fail? then w1.FireOn(NorthSeat, d, NewMatch2nd)
             else (w1.FireOn(NorthSeat, d, NewMatch2nd).0.(env := SouthTurn), Pass)
    {
      var (w1, out1) := FireOn(SouthSeat, d, NewMatch1st);
      if out1.Fail? then (w1, out1)
      else
        var (w2, out2) := w1.FireOn(NorthSeat, d, NewMatch2nd);
        if out2.Fail? then (w2, out2) else (w2.(env := SouthTurn), Pass)
    }

    /** KalahEnv.reset: both agents reset, the board is reset, env_state is INIT again. */
    function ResetAll(d: Deciders): (r: World)
      ensures r.board == Initial() && r.env == EnvInit
      ensures r.s.state == Init && r.n.state == Init
      ensures r.s.side == s.side && r.s.action == s.action && r.n.side == n.side && r.n.action == n.action
    {
      GameOverAndResetAlwaysFire(s.state);
      GameOverAndResetAlwaysFire(n.state);
      var w1 := FireOn(SouthSeat, d, AgentMachine.Reset).0;
      var w2 := w1.FireOn(NorthSeat, d, AgentMachine.Reset).0;
      World(Initial(), w2.s, w2.n, EnvInit)
    }

    /**
     * game_res: raises unless the game has ended; otherwise the sign of agent_s's store
     * offset names the winner, its size is the margin, and an offset of 0 is a draw.
     */
    function GameResult(): (r: Result<GameRes, EnvError>)
      ensures env != GameEnds ==> r == Err(GameNotEnded)
      ensures env == GameEnds && s.side.None? ==> r == Err(AgentFailed(InvalidSide))
    {
      if env != GameEnds then Err(GameNotEnded)
      else if s.side.None? then Err(AgentFailed(InvalidSide))
      else
        var offset := StoreOffset(board, s.side.value);
        if offset > 0 then Ok(GameRes(false, Some(SouthSeat), Some(NorthSeat), offset))
        else if offset < 0 then Ok(GameRes(false, Some(NorthSeat), Some(SouthSeat), -offset))
        else Ok(GameRes(true, None, None, 0))
    }
  }

  // ---------------------------------------------------------------- properties

  /**
   * The result of an ended game: the winner is the agent whose store holds more, by exactly
   * win_score; it is a draw exactly when the two stores are equal.
   */
  lemma GameResWinner(w: World)
    requires w.env == GameEnds && w.s.side.Some?
    ensures var r := w.GameResult().value;
      var mine := w.board.Store(w.s.side.value);
      var theirs := w.board.Store(w.s.side.value.Opposite());
      (r.draw <==> mine == theirs) &&
      (r.winner == Some(SouthSeat) <==> mine > theirs) &&
      (r.winner == Some(NorthSeat) <==> mine < theirs) &&
      (!r.draw ==>
        r.winScore > 0 && r.loser == Some(Other(r.winner.value)) &&
        r.winScore == (if mine > theirs then mine - theirs else theirs - mine))
  {
  }

  /** order_agent never changes the number of seeds on the board. */
  lemma OrderAgentConserves(w: World, seat: Seat, d: Deciders)
    ensures Total(w.OrderAgent(seat, d).0.board) == Total(w.board)
  {
    var v := w.Agent(seat);
    if v.action.Some? && v.side.Some? {
      StepsConserve(w.board, v.side.value, v.action.value);
    }
  }

  /**
   * After a move that does not end the game both sides still have a seed in some hole, so
   * the agent told `game_state_is_you` next is offered at least one move.
   */
  lemma EnvStepLeavesMoves(b: BoardState, mover: Side, h: HoleIdx)
    requires EnvStep(b, mover, Move(h)).1 != GameEnds
    ensures forall s: Side :: NonzeroHoles(EnvStep(b, mover, Move(h)).0, s) != []
  {
    var b4 := AfterCapture(b, mover, h);
    assert FinishedSide(b4, mover) == None;
    assert EnvStep(b, mover, Move(h)).0 == b4;
  }

  /**
   * One whole order_agent for a move that does not end the game: the board is the move's,
   * the turn goes to the other side, the agent ends up waiting for the server with an empty
   * slot, and it is the other agent that is told `game_state_is_you`.
   */
  lemma OrderAgentMove(w: World, seat: Seat, d: Deciders)
    requires var v := w.Agent(seat); v.side.Some? && v.action.Some? && v.action.value.Move?
    requires Deciding(w.Agent(seat).state)
    requires w.Agent(seat).action.value in PossibleActionsOf(w.board, w.Agent(seat).state, w.Agent(seat).side).value
    requires EnvStep(w.board, w.Agent(seat).side.value, w.Agent(seat).action.value).1 != GameEnds
    ensures var v := w.Agent(seat);
      var (b, st) := EnvStep(w.board, v.side.value, v.action.value);
      var w2 := World(b, w.s, w.n, st).WithAgent(seat,
        AgentView(if v.state == DecideOn1stMove then WaitForMoveResult else WaitForGameState, v.side, None));
      st == (if v.side.value == South then NorthTurn else SouthTurn) &&
      w.OrderAgent(seat, d) == w2.Notify(d)
  {
    var v := w.Agent(seat);
    var (b, st) := EnvStep(w.board, v.side.value, v.action.value);
    assert ActionsFor(b, v.state, v.side.value) == PossibleActionsOf(b, v.state, v.side).value;
    CommitPossibleOnAnyBoard(v, w.board, b, d.Of(seat));
  }

  /** Whether a pending move stays possible does not matter to commit: only the state does. */
  lemma CommitPossibleOnAnyBoard(v: AgentView, b: BoardState, b2: BoardState, decide: Decider)
    requires Deciding(v.state) && v.side.Some? && v.action.Some? && v.action.value.Move?
    requires v.action.value in PossibleActionsOf(b, v.state, v.side).value
    ensures v.Commit(b2, decide) ==
      (AgentView(if v.state == DecideOn1stMove then WaitForMoveResult else WaitForGameState, v.side, v.action), Pass)
  {
    CommitTriggers(v.state);
    NextIsDiagram(v.state, Moves);
  }

  /**
   * The swap as the environment runs it: agent_n (North, asked MAKE_MOVE_OR_SWAP) has
   * registered SWAP after agent_s's first move.  The board is kept and env_state stays
   * NORTH_TURN, agent_n swaps to South and is asked for its next move, and agent_s, told
   * only `game_state_is_opp`, keeps South too: both agents now play South and the agent
   * that just swapped moves again.
   */
  lemma SwapLeavesBothSouth(w: World, d: Deciders)
    requires w.env == NorthTurn
    requires w.s == AgentView(WaitForSwapDecision, Some(South), None)
    requires w.n == AgentView(MakeMoveOrSwap, Some(North), Some(Swap))
    ensures var (w3, out) := w.OrderAgent(NorthSeat, d);
      out == Pass && w3.board == w.board && w3.env == NorthTurn &&
      w3.s == AgentView(WaitForGameState, Some(South), None) &&
      w3.n == AgentView(DecideOnMove, Some(South), Some(d.n(w.board, South, ActionsFor(w.board, DecideOnMove, South))))
  {
    SwapCommitted(w, d);
    var w2 := World(w.board, w.s, AgentView(WaitForGameState, Some(South), None), NorthTurn);
    var decided := AgentView(DecideOnMove, Some(South), Some(d.n(w.board, South, ActionsFor(w.board, DecideOnMove, South))));
    AskSwappedAgent(w2, d);
    TellSouthAfterSwap(w2.(n := decided), d);
    NotifyNorthTurn(w2, d, w2.(n := decided), w2.(n := decided, s := AgentView(WaitForGameState, Some(South), None)));
  }

  /**
   * The same swap under the pie rule: agent_n takes South and waits for the other side,
   * and agent_s takes North and is asked to move, deciding among North's moves; the two
   * agents play opposite sides again.
   */
  lemma PieRuleSwapsBoth(w: World, d: Deciders)
    requires w.env == NorthTurn
    requires w.s == AgentView(WaitForSwapDecision, Some(South), None)
    requires w.n == AgentView(MakeMoveOrSwap, Some(North), Some(Swap))
    ensures var (w3, out) := w.OrderAgentPieRule(NorthSeat, d);
      out == Pass && w3.board == w.board && w3.env == NorthTurn &&
      w3.n == AgentView(WaitForGameState, Some(South), None) &&
      w3.s == AgentView(DecideOnMove, Some(North), Some(d.s(w.board, North, ActionsFor(w.board, DecideOnMove, North))))
  {
    PieRuleCommitted(w, d);
    NotifyAfterPieRule(World(w.board, AgentView(WaitForSwapDecision, Some(North), None),
      AgentView(WaitForGameState, Some(South), None), NorthTurn), d);
  }

  /** The first half of that swap: agent_n commits SWAP and takes South, agent_s takes North. */
  lemma PieRuleCommitted(w: World, d: Deciders)
    requires w.env == NorthTurn
    requires w.s == AgentView(WaitForSwapDecision, Some(South), None)
    requires w.n == AgentView(MakeMoveOrSwap, Some(North), Some(Swap))
    ensures w.OrderAgentPieRule(NorthSeat, d) ==
      World(w.board, AgentView(WaitForSwapDecision, Some(North), None),
        AgentView(WaitForGameState, Some(South), None), NorthTurn).NotifyBySide(d)
  {
    NextIsDiagram(MakeMoveOrSwap, Swaps);
    FireQuiet(AgentView(MakeMoveOrSwap, Some(South), Some(Swap)), w.board, d.n, Swaps, WaitForGameState);
  }

  /** The second half: agent_n, South, hears game_state_is_opp and agent_s, North, is asked to move. */
  lemma NotifyAfterPieRule(w: World, d: Deciders)
    requires w.env == NorthTurn
    requires w.s == AgentView(WaitForSwapDecision, Some(North), None)
    requires w.n == AgentView(WaitForGameState, Some(South), None)
    ensures w.NotifyBySide(d) == (w.(s := AgentView(DecideOnMove, Some(North),
      Some(d.s(w.board, North, ActionsFor(w.board, DecideOnMove, North))))), Pass)
  {
    TellSwappedAgent(w, d);
    AskNorthAfterSwap(w, d);
    assert w.NotifyBySide(d) == w.FireBoth(d, GameStateIsOpp, GameStateIsYou);
  }

  /** agent_n, South and waiting, hears game_state_is_opp and keeps waiting. */
  lemma TellSwappedAgent(w: World, d: Deciders)
    requires w.n == AgentView(WaitForGameState, Some(South), None)
    ensures w.FireOn(NorthSeat, d, GameStateIsOpp) == (w, Pass)
  {
    NextIsDiagram(WaitForGameState, GameStateIsOpp);
    FireQuiet(w.n, w.board, d.n, GameStateIsOpp, WaitForGameState);
    FireOnPass(w, NorthSeat, d, GameStateIsOpp, w.n);
    assert w.WithAgent(NorthSeat, w.n) == w;
  }

  /** agent_s, now North and waiting for the swap decision, hears game_state_is_you and decides. */
  lemma AskNorthAfterSwap(w: World, d: Deciders)
    requires w.s == AgentView(WaitForSwapDecision, Some(North), None)
    ensures w.FireOn(SouthSeat, d, GameStateIsYou) ==
      (w.(s := AgentView(DecideOnMove, Some(North), Some(d.s(w.board, North, ActionsFor(w.board, DecideOnMove, North))))), Pass)
  {
    var decided := AgentView(DecideOnMove, Some(North), Some(d.s(w.board, North, ActionsFor(w.board, DecideOnMove, North))));
    NextIsDiagram(WaitForSwapDecision, GameStateIsYou);
    FireDeciding(w.s, w.board, d.s, GameStateIsYou, DecideOnMove);
    FireOnPass(w, SouthSeat, d, GameStateIsYou, decided);
  }

  /** agent_n, now South and waiting, hears game_state_is_you and decides its next move. */
  lemma AskSwappedAgent(w: World, d: Deciders)
    requires w.n == AgentView(WaitForGameState, Some(South), None)
    ensures w.FireOn(NorthSeat, d, GameStateIsYou) ==
      (w.(n := AgentView(DecideOnMove, Some(South), Some(d.n(w.board, South, ActionsFor(w.board, DecideOnMove, South))))), Pass)
  {
    NextIsDiagram(w.n.state, GameStateIsYou);
    var decided := AgentView(DecideOnMove, Some(South), Some(d.n(w.board, South, ActionsFor(w.board, DecideOnMove, South))));
    FireDeciding(w.n, w.board, d.n, GameStateIsYou, DecideOnMove);
    FireOnPass(w, NorthSeat, d, GameStateIsYou, decided);
  }

  /** agent_s, waiting for the swap decision, hears only game_state_is_opp and keeps South. */
  lemma TellSouthAfterSwap(w: World, d: Deciders)
    requires w.s == AgentView(WaitForSwapDecision, Some(South), None)
    ensures w.FireOn(SouthSeat, d, GameStateIsOpp) == (w.(s := AgentView(WaitForGameState, Some(South), None)), Pass)
  {
    NextIsDiagram(w.s.state, GameStateIsOpp);
    FireQuiet(w.s, w.board, d.s, GameStateIsOpp, WaitForGameState);
    FireOnPass(w, SouthSeat, d, GameStateIsOpp, AgentView(WaitForGameState, Some(South), None));
  }

  /** The first half of that swap: agent_n commits SWAP, swaps to South and waits; the board is kept. */
  lemma SwapCommitted(w: World, d: Deciders)
    requires w.env == NorthTurn
    requires w.s == AgentView(WaitForSwapDecision, Some(South), None)
    requires w.n == AgentView(MakeMoveOrSwap, Some(North), Some(Swap))
    ensures w.OrderAgent(NorthSeat, d) ==
      World(w.board, w.s, AgentView(WaitForGameState, Some(South), None), NorthTurn).Notify(d)
  {
    NextIsDiagram(MakeMoveOrSwap, Swaps);
    FireQuiet(AgentView(MakeMoveOrSwap, Some(South), Some(Swap)), w.board, d.n, Swaps, WaitForGameState);
  }

  /**
   * The opening as play_game runs it: from two fresh agents, agent_s takes South and
   * registers its first decision and agent_n takes North and waits; South is to move.
   */
  lemma StartGameOpening(w: World, d: Deciders)
    requires w.s == AgentView(Init, None, None) && w.n == AgentView(Init, None, None)
    ensures var (w1, out) := w.StartGame(d);
      out == Pass && w1.board == w.board && w1.env == SouthTurn &&
      w1.s == AgentView(DecideOn1stMove, Some(South), Some(d.s(w.board, South, ActionsFor(w.board, DecideOn1stMove, South)))) &&
      w1.n == AgentView(WaitFor1stMove, Some(North), None)
  {
    NewMatch(w.s, w.board, d.s);
    NewMatch(w.n, w.board, d.n);
  }

  /**
   * South's first move does not end the game: agent_s waits for the swap decision and
   * agent_n, North, is asked to move or swap, with one of its possible actions registered.
   */
  lemma FirstMoveOffersSwap(w: World, d: Deciders)
    requires Sound(d.n)
    requires w.env == SouthTurn && w.s.state == DecideOn1stMove && w.s.side == Some(South)
    requires w.n == AgentView(WaitFor1stMove, Some(North), None)
    requires w.s.action.Some? && w.s.action.value.Move?
    requires w.s.action.value in ActionsFor(w.board, DecideOn1stMove, South)
    requires EnvStep(w.board, South, w.s.action.value).1 != GameEnds
    ensures var (w2, out) := w.OrderAgent(SouthSeat, d);
      out == Pass && w2.env == NorthTurn &&
      w2.s == AgentView(WaitForSwapDecision, Some(South), None) &&
      w2.n.state == MakeMoveOrSwap && w2.n.side == Some(North) && w2.n.action.Some? &&
      Chosen(w2.n.action.value, ActionsFor(w2.board, MakeMoveOrSwap, North)) &&
      Swap in ActionsFor(w2.board, MakeMoveOrSwap, North)
  {
    OrderAgentMove(w, SouthSeat, d);
    var b := EnvStep(w.board, South, w.s.action.value).0;
    var w1 := World(b, AgentView(WaitForMoveResult, Some(South), None), w.n, NorthTurn);
    assert w.OrderAgent(SouthSeat, d) == w1.Notify(d);
    NotifyAfterFirstMove(w1, d);
    var possible := ActionsFor(b, MakeMoveOrSwap, North);
    assert Chosen(d.n(b, North, possible), possible);
  }

  /** notify_game_state on NORTH_TURN, from what each agent's trigger does. */
  lemma NotifyNorthTurn(w: World, d: Deciders, w1: World, w2: World)
    requires w.env == NorthTurn
    requires w.FireOn(NorthSeat, d, GameStateIsYou) == (w1, Pass)
    requires w1.FireOn(SouthSeat, d, GameStateIsOpp) == (w2, Pass)
    ensures w.Notify(d) == (w2, Pass)
  {
  }

  /** The notification after South's first move: North is asked to move or swap. */
  lemma NotifyAfterFirstMove(w: World, d: Deciders)
    requires w.env == NorthTurn
    requires w.s == AgentView(WaitForMoveResult, Some(South), None)
    requires w.n == AgentView(WaitFor1stMove, Some(North), None)
    ensures w.Notify(d) == (World(w.board, AgentView(WaitForSwapDecision, Some(South), None),
      AgentView(MakeMoveOrSwap, Some(North), Some(d.n(w.board, North, ActionsFor(w.board, MakeMoveOrSwap, North)))),
      NorthTurn), Pass)
  {
    var asked := AgentView(MakeMoveOrSwap, Some(North), Some(d.n(w.board, North, ActionsFor(w.board, MakeMoveOrSwap, North))));
    var waiting := AgentView(WaitForSwapDecision, Some(South), None);
    AskNorthAfterFirstMove(w, d);
    TellSouthAfterFirstMove(w.(n := asked), d);
    NotifyNorthTurn(w, d, w.(n := asked), w.(n := asked, s := waiting));
  }

  /** agent_n, waiting for South's first move, hears game_state_is_you and decides. */
  lemma AskNorthAfterFirstMove(w: World, d: Deciders)
    requires w.n == AgentView(WaitFor1stMove, Some(North), None)
    ensures w.FireOn(NorthSeat, d, GameStateIsYou) ==
      (w.(n := AgentView(MakeMoveOrSwap, Some(North), Some(d.n(w.board, North, ActionsFor(w.board, MakeMoveOrSwap, North))))), Pass)
  {
    NextIsDiagram(w.n.state, GameStateIsYou);
    var asked := AgentView(MakeMoveOrSwap, Some(North), Some(d.n(w.board, North, ActionsFor(w.board, MakeMoveOrSwap, North))));
    FireDeciding(w.n, w.board, d.n, GameStateIsYou, MakeMoveOrSwap);
    FireOnPass(w, NorthSeat, d, GameStateIsYou, asked);
  }

  /** agent_s, waiting for the result of its first move, hears game_state_is_opp. */
  lemma TellSouthAfterFirstMove(w: World, d: Deciders)
    requires w.s == AgentView(WaitForMoveResult, Some(South), None)
    ensures w.FireOn(SouthSeat, d, GameStateIsOpp) == (w.(s := AgentView(WaitForSwapDecision, Some(South), None)), Pass)
  {
    NextIsDiagram(w.s.state, GameStateIsOpp);
    FireQuiet(w.s, w.board, d.s, GameStateIsOpp, WaitForSwapDecision);
    FireOnPass(w, SouthSeat, d, GameStateIsOpp, AgentView(WaitForSwapDecision, Some(South), None));
  }

  /** A trigger the agent takes without error: FireOn puts the agent's new view in its seat. */
  lemma FireOnPass(w: World, seat: Seat, d: Deciders, tr: Trigger, v: AgentView)
    requires w.Agent(seat).Fire(w.board, d.Of(seat), tr) == (v, Pass)
    ensures w.FireOn(seat, d, tr) == (w.WithAgent(seat, v), Pass)
  {
  }

  // ---------------------------------------------------------------- the environment, as an object

  /** KalahEnv: the shared board, the two agents and env_state. */
  class KalahEnv {
    const board: Board
    const agentS: Agent
    const agentN: Agent
    var envState: EnvState

    ghost predicate Valid()
      reads this, agentS, agentN
    {
      board.Valid() && agentS.board == board && agentN.board == board && agentS != agentN
    }

    function Current(): World
      reads this, board.north, board.south, agentS, agentN
      requires board.Valid()
    {
      World(board.State(), agentS.View(), agentN.View(), envState)
    }

    function Policies(): Deciders
      reads agentS, agentN
    {
      Deciders(DeciderOf(agentS.strategy), DeciderOf(agentN.strategy))
    }

    function AgentAt(seat: Seat): Agents.Agent
      reads this
    {
      if seat == SouthSeat then agentS else agentN
    }

    /** KalahEnv.__init__: the board the two agents share; env_state INIT. */
    constructor (board: Board, agentS: Agents.Agent, agentN: Agents.Agent)
      requires board.Valid() && agentS.board == board && agentN.board == board && agentS != agentN
      ensures Valid() && this.board == board && this.agentS == agentS && this.agentN == agentN
      ensures envState == EnvInit
    {
      this.board := board;
      this.agentS := agentS;
      this.agentN := agentN;
      envState := EnvInit;
    }

    /**
     * execute_action: SWAP leaves the board and gives NORTH_TURN; a move empties the hole,
     * sows the full laps and then the remainder seed by seed, captures (both facing holes;
     * see Rules.CaptureAsWritten for what the source empties) and, when a side has run
     * out, sweeps the other side's holes into its store.
     */
    method ExecuteAction(action: Action, side: Side) returns (r: EnvState)
      requires board.Valid()
      modifies board.north, board.south
      ensures board.Valid()
      ensures (board.State(), r) == EnvStep(old(board.State()), side, action)
    {
      if action == Swap {
        return NorthTurn;
      }
      ghost var b0 := board.State();
      ghost var h := action.well;
      var sowSide, sowHole := SowHole(side, action.well);
      ghost var sown := Sow(b0, side, h);
      CaptureLast(side, sowSide, sowHole);
      ghost var b4 := board.State();
      assert b4 == AfterCapture(b0, side, h);
      var finished: Option<Side> := None;
      if NonzeroHoles(board.State(), side) == [] {
        finished := Some(side);
      } else if NonzeroHoles(board.State(), side.Opposite()) == [] {
        finished := Some(side.Opposite());
      }
      assert finished == FinishedSide(b4, side);
      if finished.Some? {
        Sweep(finished.value.Opposite());
        return GameEnds;
      }
      if side == South {
        r := NorthTurn;
      } else {
        r := SouthTurn;
      }
    }

    /**
     * The sowing part of execute_action: empty the hole, sow the full laps (the lap loop
     * reuses `hole`, which keeps its last value, 7) and then the remainder; the cursor ends
     * on the cell of the last seed.
     */
    method SowHole(side: Side, hole: HoleIdx) returns (sowSide: Side, sowHole: int)
      requires board.Valid()
      modifies board.north, board.south
      ensures board.Valid() && board.State() == Sow(old(board.State()), side, hole).board
      ensures 0 <= sowHole < 8 && Pos(sowSide, sowHole) == LastPos(Sow(old(board.State()), side, hole), side)
    {
      ghost var b0 := board.State();
      var seedsToSow := board.Hole(hole, side);
      board.SetHole(hole, side, 0);
      ghost var emptied := board.State();
      var rounds := seedsToSow / ReceivingPits;
      var extra := seedsToSow % ReceivingPits;
      var start := SowRounds(side, hole, rounds);
      SowSteps(b0, side, hole, emptied, board.State(), start);
      sowSide, sowHole := SowExtra(side, start, extra);
    }

    /**
     * The lap loop of execute_action: every hole of both sides and the mover's store gain
     * `rounds` seeds; `hole` is reused as the loop variable, so it ends at 7 after a lap.
     */
    method SowRounds(side: Side, hole: HoleIdx, rounds: int) returns (start: HoleIdx)
      requires board.Valid()
      modifies board.north, board.south
      ensures board.Valid()
      ensures board.State() == if rounds != 0 then SowLaps(old(board.State()), side, rounds) else old(board.State())
      ensures start == StartHole(hole, rounds)
    {
      ghost var emptied := board.State();
      start := hole;
      if rounds != 0 {
        for k := 1 to 8
          invariant board.Valid() && board.State() == LapHoles(emptied, side, rounds, k - 1)
          invariant k > 1 ==> start == k - 1
        {
          start := k;
          board.AddSeedsToHole(k, side, rounds);
          board.AddSeedsToHole(k, side.Opposite(), rounds);
        }
        board.AddSeedsToStore(side, rounds);
      }
    }

    /** The capture test and capture of execute_action, on the cell of the last seed. */
    method CaptureLast(side: Side, sowSide: Side, sowHole: int)
      requires board.Valid() && 0 <= sowHole < 8
      modifies board.north, board.south
      ensures board.Valid()
      ensures board.State() ==
        if CaptureApplies(old(board.State()), side, Pos(sowSide, sowHole))
        then Capture(old(board.State()), side, sowHole) else old(board.State())
    {
      if sowSide == side && sowHole > 0 && board.Hole(sowHole, sowSide) == 1
        && board.Hole(8 - sowHole, sowSide.Opposite()) > 0
      {
        var captured := board.Hole(8 - sowHole, sowSide.Opposite());
        board.AddSeedsToStore(side, 1 + captured);
        board.SetHole(sowHole, side, 0);
        // the source writes set_hole(sow_hole, side.opposite(), 0) here: Rules.CaptureAsWritten
        board.SetHole(8 - sowHole, side.Opposite(), 0);
      }
    }

    /** The loop that sows the remainder one seed at a time after hole `hole` of side. */
    method SowExtra(side: Side, hole: HoleIdx, extra: int) returns (sowSide: Side, sowHole: int)
      requires board.Valid() && 0 <= extra < ReceivingPits
      modifies board.north, board.south
      ensures board.Valid() && board.State() == Scatter(old(board.State()), side, hole - 1, extra)
      ensures 0 <= sowHole < 8 && Pos(sowSide, sowHole) == RingCell(side, Advance(hole - 1, extra))
    {
      ghost var lapped := board.State();
      ghost var c: int := hole as int - 1;
      sowSide := side;
      sowHole := hole;
      for j := 0 to extra
        invariant board.Valid() && board.State() == Scatter(lapped, side, c, j)
        invariant Pos(sowSide, sowHole) == RingCell(side, Advance(c, j))
      {
        ghost var prev := board.State();
        sowSide, sowHole := SowSeed(side, sowSide, sowHole, Advance(c, j));
        ScatterNext(lapped, side, c, j, prev, board.State());
      }
    }

    /**
     * One pass of the remainder loop: the cursor moves to the next pit, skipping the
     * opponent's store, and that pit gains a seed.
     */
    method SowSeed(side: Side, sowSide: Side, sowHole: int, ghost q: int) returns (nextSide: Side, nextHole: int)
      requires board.Valid() && 0 <= q < ReceivingPits
      requires Pos(sowSide, sowHole) == RingCell(side, q)
      modifies board.north, board.south
      ensures Pos(nextSide, nextHole) == RingCell(side, Advance(q, 1))
      ensures board.Valid()
      ensures board.State() == old(board.State()).Add(RingCell(side, Advance(q, 1)).side, RingCell(side, Advance(q, 1)).idx, 1)
    {
      nextSide := sowSide;
      nextHole := sowHole + 1;
      if nextHole == 1 {
        nextSide := nextSide.Opposite();
      }
      if nextHole > 7 && nextSide == side {
        nextHole := 0;
        board.AddSeedsToStore(nextSide, 1);
      } else {
        if nextHole > 7 {
          nextSide := nextSide.Opposite();
          nextHole := 1;
        }
        board.AddSeedsToHole(nextHole, nextSide, 1);
      }
    }

    /** The loop that sweeps the holes of the collecting side into its store. */
    method Sweep(collecting: Side)
      requires board.Valid()
      modifies board.north, board.south
      ensures board.Valid() && board.State() == Collect(old(board.State()), collecting)
    {
      ghost var b4 := board.State();
      var seeds := 0;
      for k := 1 to 8
        invariant board.Valid() && board.State() == ZeroHoles(b4, collecting, k - 1)
        invariant seeds == Sum(b4.Holes(collecting)[..k - 1])
      {
        ZeroHolesCell(b4, collecting, k - 1, collecting, k);
        SumPrefix(b4.Holes(collecting), k - 1);
        seeds := seeds + board.Hole(k, collecting);
        board.SetHole(k, collecting, 0);
      }
      assert b4.Holes(collecting)[..7] == b4.Holes(collecting);
      board.AddSeedsToStore(collecting, seeds);
    }

    /** Fire tr on one of the agents. */
    method FireOn(seat: Seat, tr: Trigger) returns (r: Outcome<EnvError>)
      requires Valid()
      modifies AgentAt(seat)
      ensures Valid()
      ensures (Current(), r) == old(Current()).FireOn(seat, old(Policies()), tr)
    {
      var out := AgentAt(seat).Fire(tr);
      r := if out.Fail? then Fail(AgentFailed(out.error)) else Pass;
    }

    /** notify_game_state */
    method NotifyGameState() returns (r: Outcome<EnvError>)
      requires Valid()
      modifies agentS, agentN
      ensures Valid()
      ensures (Current(), r) == old(Current()).Notify(old(Policies()))
    {
      var trN, trS;
      if envState == NorthTurn {
        trN, trS := GameStateIsYou, GameStateIsOpp;
      } else if envState == SouthTurn {
        trN, trS := GameStateIsOpp, GameStateIsYou;
      } else if envState == GameEnds {
        trN, trS := GameStateIsEnd, GameStateIsEnd;
      } else {
        return Fail(InvalidEnvState(envState));
      }
      r := FireOn(NorthSeat, trN);
      if r.Fail? {
        return;
      }
      r := FireOn(SouthSeat, trS);
    }

    /** order_agent */
    method OrderAgent(seat: Seat) returns (r: Outcome<EnvError>)
      requires Valid()
      modifies this, board.north, board.south, agentS, agentN
      ensures Valid()
      ensures (Current(), r) == old(Current()).OrderAgent(seat, old(Policies()))
    {
      var agent := AgentAt(seat);
      if !agent.ActionIsRegistered() {
        return Fail(NoActionRegistered);
      }
      if agent.side.None? {
        return Fail(AgentFailed(InvalidSide));
      }
      envState := ExecuteAction(agent.action.value, agent.side.value);
      var out := agent.CommitAction();
      if out.Fail? {
        return Fail(AgentFailed(out.error));
      }
      out := agent.UnregisterAction();
      if out.Fail? {
        return Fail(AgentFailed(out.error));
      }
      r := NotifyGameState();
    }

    /** The start of play_game, up to the loop that plays the game out. */
    method StartGame() returns (r: Outcome<EnvError>)
      requires Valid()
      modifies this, agentS, agentN
      ensures Valid()
      ensures (Current(), r) == old(Current()).StartGame(old(Policies()))
    {
      r := FireOn(SouthSeat, NewMatch1st);
      if r.Fail? {
        return;
      }
      r := FireOn(NorthSeat, NewMatch2nd);
      if r.Fail? {
        return;
      }
      envState := SouthTurn;
    }

    /** KalahEnv.reset */
    method Reset()
      requires Valid()
      modifies this, board.north, board.south, agentS, agentN
      ensures Valid()
      ensures Current() == old(Current()).ResetAll(old(Policies()))
    {
      var _ := FireOn(SouthSeat, AgentMachine.Reset);
      var _ := FireOn(NorthSeat, AgentMachine.Reset);
      board.Reset();
      envState := EnvInit;
    }
  }
}
