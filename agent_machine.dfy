/**
 * The state machine that `transitions.Machine` builds for every agent of
 * kalah_python/utils/agents.py from Agent.TRANSITIONS (agents.py:89-107): the table as
 * data, the lookup of a trigger, and the same machine drawn state by state.
 */
module AgentMachine {
  import opened Wrappers
  import opened Enums

  /** The triggers Machine adds to an agent. */
  datatype Trigger =
    | NewMatch1st | NewMatch2nd | Moves | Swaps
    | GameStateIsOpp | GameStateIsYou | GameStateIsEnd | GameOver | Reset

  /** A transition's source: one state, or '*' (every state). */
  datatype Source = From(state: AgentState) | AnyState
  /** A transition's destination: one state, or '=' (the state it fired from). */
  datatype Dest = To(state: AgentState) | Same

  datatype Transition = Transition(trigger: Trigger, source: Source, dest: Dest)

  /** Agent.TRANSITIONS, in its order. */
  const Transitions: seq<Transition> := [
    Transition(NewMatch1st, From(Init), To(DecideOn1stMove)),
    Transition(NewMatch2nd, From(Init), To(WaitFor1stMove)),
    Transition(Moves, From(DecideOn1stMove), To(WaitForMoveResult)),
    Transition(Moves, From(MakeMoveOrSwap), To(WaitForGameState)),
    Transition(Moves, From(DecideOnMove), To(WaitForGameState)),
    Transition(Swaps, From(MakeMoveOrSwap), To(WaitForGameState)),
    Transition(GameStateIsOpp, From(WaitForSwapDecision), To(WaitForGameState)),
    Transition(GameStateIsOpp, From(WaitForMoveResult), To(WaitForSwapDecision)),
    Transition(GameStateIsOpp, From(WaitForGameState), Same),
    Transition(GameStateIsYou, From(WaitForSwapDecision), To(DecideOnMove)),
    Transition(GameStateIsYou, From(WaitFor1stMove), To(MakeMoveOrSwap)),
    Transition(GameStateIsYou, From(WaitForGameState), To(DecideOnMove)),
    Transition(GameStateIsEnd, From(WaitForGameState), To(Finished)),
    Transition(GameOver, AnyState, To(Exit)),
    Transition(Reset, AnyState, To(Init))
  ]

  predicate Matches(t: Transition, s: AgentState, tr: Trigger)
  {
    t.trigger == tr && (t.source == AnyState || t.source == From(s))
  }

  function Target(t: Transition, s: AgentState): AgentState
  {
    if t.dest.Same? then s else t.dest.state
  }

  /** The first entry from i on that tr fires from s; None when there is none. */
  function LookupFrom(s: AgentState, tr: Trigger, i: int): (r: Option<AgentState>)
    requires 0 <= i <= |Transitions|
    ensures r.None? <==> forall k :: i <= k < |Transitions| ==> !Matches(Transitions[k], s, tr)
    ensures r.Some? ==> exists k :: i <= k < |Transitions| && Matches(Transitions[k], s, tr) &&
                                    r.value == Target(Transitions[k], s)
    decreases |Transitions| - i
  {
    if i == |Transitions| then None
    else if Matches(Transitions[i], s, tr) then Some(Target(Transitions[i], s))
    else LookupFrom(s, tr, i + 1)
  }

  /** Where tr takes the machine from s; None is the MachineError of an invalid trigger. */
  function Next(s: AgentState, tr: Trigger): (r: Option<AgentState>)
    ensures r.None? <==> forall k :: 0 <= k < |Transitions| ==> !Matches(Transitions[k], s, tr)
    ensures r.Some? ==> exists k :: 0 <= k < |Transitions| && Matches(Transitions[k], s, tr) &&
                                    r.value == Target(Transitions[k], s)
  {
    LookupFrom(s, tr, 0)
  }

  /**
   * The same machine drawn state by state: a reference for the table.  Only reset leads
   * to INIT and only game_over to EXIT, and both lead there from every state.
   */
  function Diagram(s: AgentState, tr: Trigger): (r: Option<AgentState>)
    ensures r == Some(Init) <==> tr == Reset
    ensures r == Some(Exit) <==> tr == GameOver
  {
    match tr
    case GameOver => Some(Exit)
    case Reset => Some(Init)
    case NewMatch1st => if s == Init then Some(DecideOn1stMove) else None
    case NewMatch2nd => if s == Init then Some(WaitFor1stMove) else None
    case Moves =>
      if s == DecideOn1stMove then Some(WaitForMoveResult)
      else if s == MakeMoveOrSwap || s == DecideOnMove then Some(WaitForGameState)
      else None
    case Swaps => if s == MakeMoveOrSwap then Some(WaitForGameState) else None
    case GameStateIsOpp =>
      if s == WaitForMoveResult then Some(WaitForSwapDecision)
      else if s == WaitForSwapDecision || s == WaitForGameState then Some(WaitForGameState)
      else None
    case GameStateIsYou =>
      if s == WaitFor1stMove then Some(MakeMoveOrSwap)
      else if s == WaitForSwapDecision || s == WaitForGameState then Some(DecideOnMove)
      else None
    case GameStateIsEnd => if s == WaitForGameState then Some(Finished) else None
  }

  /** No state has two entries for one trigger: the order of the table does not matter. */
  lemma TableDeterministic(s: AgentState, tr: Trigger, j: int, k: int)
    requires 0 <= j < |Transitions| && 0 <= k < |Transitions|
    requires Matches(Transitions[j], s, tr) && Matches(Transitions[k], s, tr)
    ensures j == k
  {
  }

  /** The table and the diagram are the same machine. */
  lemma {:induction false} NextIsDiagram(s: AgentState, tr: Trigger)
    ensures Next(s, tr) == Diagram(s, tr)
  {
    if Diagram(s, tr).Some? {
      var k := DiagramEntry(s, tr);
      var r := Next(s, tr);
      var k' :| 0 <= k' < |Transitions| && Matches(Transitions[k'], s, tr) && r.value == Target(Transitions[k'], s);
      TableDeterministic(s, tr, k, k');
    } else {
      NoEntry(s, tr);
    }
  }

  /** Where the diagram has no arrow, no entry of the table fires. */
  lemma NoEntry(s: AgentState, tr: Trigger)
    requires Diagram(s, tr).None?
    ensures forall k :: 0 <= k < |Transitions| ==> !Matches(Transitions[k], s, tr)
  {
  }

  /** The entry of the table behind each arrow of the diagram. */
  function DiagramEntry(s: AgentState, tr: Trigger): (k: int)
    requires Diagram(s, tr).Some?
    ensures 0 <= k < |Transitions| && Matches(Transitions[k], s, tr)
    ensures Diagram(s, tr) == Some(Target(Transitions[k], s))
  {
    match tr
    case NewMatch1st => 0
    case NewMatch2nd => 1
    case Moves => if s == DecideOn1stMove then 2 else if s == MakeMoveOrSwap then 3 else 4
    case Swaps => 5
    case GameStateIsOpp => if s == WaitForSwapDecision then 6 else if s == WaitForMoveResult then 7 else 8
    case GameStateIsYou => if s == WaitForSwapDecision then 9 else if s == WaitFor1stMove then 10 else 11
    case GameStateIsEnd => 12
    case GameOver => 13
    case Reset => 14
  }

  /** game_over and reset fire from every state. */
  lemma GameOverAndResetAlwaysFire(s: AgentState)
    ensures Next(s, GameOver) == Some(Exit) && Next(s, Reset) == Some(Init)
  {
    NextIsDiagram(s, GameOver);
    NextIsDiagram(s, Reset);
  }

  /** The states in which the agent holds a decision of its own. */
  predicate Deciding(s: AgentState)
  {
    s == DecideOn1stMove || s == MakeMoveOrSwap || s == DecideOnMove
  }

  /**
   * `moves` fires exactly from the deciding states and `swaps` only from MAKE_MOVE_OR_SWAP;
   * both lead to a state that waits for the server.
   */
  lemma CommitTriggers(s: AgentState)
    ensures Next(s, Moves).Some? <==> Deciding(s)
    ensures Next(s, Swaps).Some? <==> s == MakeMoveOrSwap
    ensures Next(s, Moves).Some? ==> Next(s, Moves).value in {WaitForMoveResult, WaitForGameState}
    ensures Next(s, Swaps).Some? ==> Next(s, Swaps) == Some(WaitForGameState)
  {
    NextIsDiagram(s, Moves);
    NextIsDiagram(s, Swaps);
  }

  /** A deciding state is entered only from a state waiting for the server or from INIT. */
  lemma DecidingEnteredBy(s: AgentState, tr: Trigger)
    requires Next(s, tr).Some? && Deciding(Next(s, tr).value)
    ensures (tr == NewMatch1st && s == Init) ||
            (tr == GameStateIsYou && s in {WaitFor1stMove, WaitForSwapDecision, WaitForGameState})
  {
    NextIsDiagram(s, tr);
  }
}
