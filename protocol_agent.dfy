/**
 * The protocol-facing agent of kalah_python/utils/agent.py: the move and swap actions with
 * their validation and their command strings, and the agent that validates an action
 * before it sends the action's command to the game engine.
 */
module ProtocolAgent {
  import opened Wrappers
  import opened Enums
  import opened Text
  import opened Boards

  /** Turn: whose turn the game engine last announced. */
  datatype Turn = You | Opponent | End

  /** State of agent.py: the states of the agent machine, with WAIT_FOR_TURN. */
  datatype ProtoState =
    | PInit | PDecideOn1stMove | PWaitForMoveResult | PWaitFor1stMove | PMakeMoveOrSwap
    | PWaitForSwapDecision | PDecideOnMove | PWaitForTurn | PFinished | PExit

  /** The states from which a move may be made. */
  predicate MovableState(s: ProtoState)
  {
    s == PDecideOn1stMove || s == PDecideOnMove || s == PMakeMoveOrSwap
  }

  /** MoveAction(state, side, hole_idx) and SwapAction(state). */
  datatype ProtoAction =
    | MoveAction(state: ProtoState, side: Side, holeIdx: int)
    | SwapAction(state: ProtoState)

  /** The ValueErrors validate raises. */
  datatype ValidationError =
    | InvalidHoleIdx(side: Side, holeIdx: int)   // "Invalid hole_idx for side ..."
    | CannotMoveFrom(state: ProtoState)          // "cannot from the state: ..."
    | CannotSwapFrom(state: ProtoState)          // "cannot swap from the state: ..."

  /**
   * MoveAction._validate_hole_idx as written: 1..7 for SOUTH, but 0..6 for NORTH, so North
   * may not name its hole 7 and may name 0.
   */
  function ValidateHoleIdxAsWritten(side: Side, h: int): (r: Outcome<ValidationError>)
    ensures side == South ==> (r.Pass? <==> 1 <= h <= HolesPerSide)
    ensures side == North ==> (r.Pass? <==> 0 <= h <= HolesPerSide - 1)
    ensures r.Fail? ==> r.error == InvalidHoleIdx(side, h)
  {
    if side == North then
      if h < 0 || h > HolesPerSide - 1 then Fail(InvalidHoleIdx(side, h)) else Pass
    else
      if h < 1 || h > HolesPerSide then Fail(InvalidHoleIdx(side, h)) else Pass
  }

  /** North's hole 7 is refused and North's hole 0 (no hole at all) is accepted. */
  lemma NorthHoleRangeAsWritten()
    ensures ValidateHoleIdxAsWritten(North, 7) == Fail(InvalidHoleIdx(North, 7))
    ensures ValidateHoleIdxAsWritten(North, 0) == Pass
    ensures FromValue(0).None? && FromValue(7) == Some(Move(7))
  {
  }

  /** The hole check with the range the board and the commands use on both sides: 1..7. */
  function ValidateHoleIdx(side: Side, h: int): (r: Outcome<ValidationError>)
    ensures r.Pass? <==> 1 <= h <= HolesPerSide
    ensures r.Fail? ==> r.error == InvalidHoleIdx(side, h)
  {
    if h < 1 || h > HolesPerSide then Fail(InvalidHoleIdx(side, h)) else Pass
  }

  /** The corrected check accepts exactly the holes that are moves of the game, on either side. */
  lemma ValidateHoleIdxNamesAMove(side: Side, h: int)
    ensures ValidateHoleIdx(side, h).Pass? <==> FromValue(h).Some? && FromValue(h).value.Move?
  {
  }

  /** _validate_state of the two actions. */
  function ValidateState(a: ProtoAction): (r: Outcome<ValidationError>)
    ensures a.MoveAction? ==> (r.Pass? <==> MovableState(a.state))
    ensures a.SwapAction? ==> (r.Pass? <==> a.state == PMakeMoveOrSwap)
    ensures r.Fail? ==> r.error == (if a.MoveAction? then CannotMoveFrom(a.state) else CannotSwapFrom(a.state))
  {
    match a
    case MoveAction(st, _, _) => if MovableState(st) then Pass else Fail(CannotMoveFrom(st))
    case SwapAction(st) => if st == PMakeMoveOrSwap then Pass else Fail(CannotSwapFrom(st))
  }

  /** validate: a move checks its hole first and then its state; a swap checks its state. */
  function Validate(a: ProtoAction): (r: Outcome<ValidationError>)
    ensures a.MoveAction? ==> (r.Pass? <==> 1 <= a.holeIdx <= HolesPerSide && MovableState(a.state))
    ensures a.MoveAction? && !(1 <= a.holeIdx <= HolesPerSide) ==> r == Fail(InvalidHoleIdx(a.side, a.holeIdx))
    ensures a.MoveAction? && 1 <= a.holeIdx <= HolesPerSide && !MovableState(a.state) ==>
      r == Fail(CannotMoveFrom(a.state))
    ensures a.SwapAction? ==> (r.Pass? <==> a.state == PMakeMoveOrSwap)
    ensures a.SwapAction? && r.Fail? ==> r.error == CannotSwapFrom(a.state)
  {
    match a
    case MoveAction(_, side, h) =>
      var hole := ValidateHoleIdx(side, h);
      if hole.Fail? then hole else ValidateState(a)
    case SwapAction(_) => ValidateState(a)
  }

  /** to_cmd: "MOVE;<hole_idx>\n" or "SWAP\n". */
  function ToCmd(a: ProtoAction): (r: string)
    ensures a.SwapAction? ==> r == "SWAP\n"
    ensures a.MoveAction? ==> |r| >= 7 && r[..5] == "MOVE;" && r[|r| - 1] == '\n'
  {
    match a
    case MoveAction(_, _, h) => "MOVE;" + IntToString(h) + "\n"
    case SwapAction(_) => "SWAP\n"
  }

  /** A command as the game engine reads it. */
  datatype Command = MoveCmd(hole: int) | SwapCmd

  /** Reading a command: SWAP, or MOVE with an integer argument. */
  function ParseCmd(cmd: string): Option<Command>
  {
    if cmd == "SWAP\n" then Some(SwapCmd)
    else if |cmd| >= 7 && cmd[..5] == "MOVE;" && cmd[|cmd| - 1] == '\n' then
      match ParseInt(cmd[5..|cmd| - 1])
      case Some(h) => Some(MoveCmd(h))
      case None => None
    else None
  }

  /** The command an action stands for. */
  function CommandOf(a: ProtoAction): Command
  {
    if a.MoveAction? then MoveCmd(a.holeIdx) else SwapCmd
  }

  /** to_cmd loses nothing: the command reads back as the action's hole, or as SWAP. */
  lemma ToCmdParses(a: ProtoAction)
    ensures ParseCmd(ToCmd(a)) == Some(CommandOf(a))
  {
    if a.MoveAction? {
      var cmd := ToCmd(a);
      assert cmd[5..|cmd| - 1] == IntToString(a.holeIdx);
      ParseIntToString(a.holeIdx);
    }
  }

  /** A valid move sends the same command as the Action member of the same hole. */
  lemma ToCmdAgrees(a: ProtoAction)
    requires Validate(a).Pass?
    ensures a.MoveAction? ==> ToCmd(a) == Move(a.holeIdx).ToCmd()
    ensures a.SwapAction? ==> ToCmd(a) == Swap.ToCmd()
  {
  }

  /** The agent of agent.py; the commands given to the protocol are kept in `sent`. */
  class Agent {
    const board: Board
    var state: ProtoState
    var side: Option<Side>
    var turn: Option<Turn>
    var sent: seq<string>

    /** Agent.__init__: a fresh board, state INIT, no side, no turn. */
    constructor ()
      ensures fresh(board.north) && fresh(board.south) && board.Valid() && board.State() == Initial()
      ensures state == PInit && side == None && turn == None && sent == []
    {
      board := new Board();
      state := PInit;
      side := None;
      turn := None;
      sent := [];
    }

    /** _execute: validate first; only a valid action's command is sent. */
    method Execute(a: ProtoAction) returns (r: Outcome<ValidationError>)
      modifies this
      ensures r == Validate(a)
      ensures r.Pass? ==> sent == old(sent) + [ToCmd(a)]
      ensures r.Fail? ==> sent == old(sent)
      ensures state == old(state) && side == old(side) && turn == old(turn)
    {
      r := Validate(a);
      if r.Fail? {
        return;
      }
      sent := sent + [ToCmd(a)];
    }

    /**
     * start_playing up to the first wait: the first player takes South with turn YOU, decides
     * and executes its first move and waits for the result; the second player takes North
     * with turn OPPONENT and waits for the first move.  An invalid first move raises in
     * DECIDE_ON_1ST_MOVE with nothing sent.
     */
    method StartPlaying(isSouth: bool, decideOnMove: (BoardState, ProtoState, Side) -> ProtoAction)
      returns (r: Outcome<ValidationError>)
      requires board.Valid()
      modifies this
      ensures isSouth ==> side == Some(South) && turn == Some(You)
      ensures !isSouth ==> side == Some(North) && turn == Some(Opponent)
      ensures !isSouth ==> r == Pass && state == PWaitFor1stMove && sent == old(sent)
      ensures isSouth ==>
        var a := decideOnMove(board.State(), PDecideOn1stMove, South);
        r == Validate(a) &&
        (r.Pass? ==> state == PWaitForMoveResult && sent == old(sent) + [ToCmd(a)]) &&
        (r.Fail? ==> state == PDecideOn1stMove && sent == old(sent))
    {
      if isSouth {
        side := Some(South);
        turn := Some(You);
        state := PDecideOn1stMove;
        var a := decideOnMove(board.State(), state, South);
        r := Execute(a);
        if r.Fail? {
          return;
        }
        state := PWaitForMoveResult;
      } else {
        side := Some(North);
        turn := Some(Opponent);
        state := PWaitFor1stMove;
        r := Pass;
      }
    }
  }
}
