# Kalah bot: board, rules, agents, environment and protocol agent in Dafny

This project models the core of a Python bot for Kalah in the 7-hole, 7-seed variant.
Each side has seven holes and one store. A move sows the seeds of one hole
counter-clockwise, skipping the opponent's store. A last seed that lands in an empty
hole of one's own, facing a nonempty hole, captures both holes. A game ends when one
side has no seeds left in its holes, and the other side then sweeps its own holes
into its store.

The Dafny model covers:

- **Enums** (`enums.dfy`): sides, actions and their commands, the agent and environment states.
- **Boards** (`board.dfy`):
  - the board as a value (`BoardState`) for the rules and the search;
  - the class `Board`, two arrays updated in place, with the primitive mutators;
  - the parse of a server `CHANGE` message in `update_board`.
- **Text** (`text.dfy`): `str.split`, `int()` and `str()`, as far as `update_board` and
  `to_cmd` need them.
- **Rules** (`rules.dfy`): what one move does to the board (sowing, capture, end-of-game
  sweep), and the two turn rules. `execute_action` always hands the turn over (a SWAP
  gives NORTH_TURN). `simulate_move` keeps the player after a capture, after a last seed
  in its own store, and when the game ends.
- **Env** (`env.dfy`): the training environment `KalahEnv`:
  - `execute_action` keeps the loops of the source in methods of the class, proved equal
    to `Rules.EnvStep`;
  - `order_agent`, `notify_game_state`, `game_res`, `reset` and the start of `play_game`,
    specified on a value (`World`) and implemented by the class.
- **AgentMachine** (`agent_machine.dfy`): the `transitions` table of the agents as data,
  with the same machine drawn state by state.
- **Agents** (`agents.dfy`): the finite-state agent with its one-action slot,
  `possible_actions`, `swap_side`, the `on_enter_*` callbacks and `commit_action`:
  - specified on `AgentView`;
  - implemented by the class `Agents.Agent`.
- **MiniMaxAgent** (`search.dfy`): `GameNode`, `simulate_move` and its heuristic, and the
  recursive alpha-beta search of `choose_mini_max_move` (a method with a loop, proved
  equal to a specification function).
- **SearchProofs** (`search_proofs.dfy`): the search compared with a full minimax without
  pruning:
  - alpha-beta soundness inside the window;
  - exactness at the root;
  - the decision is the first move with the best value.
- **ProtocolAgent** (`protocol_agent.dfy`): the protocol-facing agent of `agent.py`, with
  its `MoveAction`/`SwapAction` validation, its commands and `start_playing`.
- **Protocol** (`protocol.dfy`): the classification of server messages.

Some behaviour of the code that the model keeps:

- `execute_action` always passes the turn to the other side (env.py:248-252), and a SWAP
  gives NORTH_TURN (env.py:178-185). Only `simulate_move` grants an extra turn.
- `simulate_move` leaves the player unchanged on SWAP, because
  `(SOUTH, NORTH)[player == NORTH]` is the player itself (agents.py:310-317).
- From the reset board, South's hole 3 sows its seven seeds into South's holes 4..7,
  South's store and North's holes 1 and 2. South's hole 1 ends in South's store.
- The agent machine has exactly the entries of the `TRANSITIONS` table (agents.py:90-107).
  This includes `game_state_is_opp` from WAIT_FOR_SWAP_DECISION to WAIT_FOR_GAME_STATE.
- The lap loop reuses the loop variable `hole` (env.py:197, agents.py:329). So after one or
  more full laps, the remainder is sown starting after hole 7, that is from the mover's
  store on, not after the source hole.
- The capture of env.py:227 and agents.py:364 empties the wrong opponent hole (## Findings,
  row 1). The model's moves use the corrected capture.
- North's hole check in agent.py:72-75 accepts 0..6 (## Findings, row 2). The model's
  validation uses the corrected range 1..7.
- A SWAP changes the side of the swapping agent only, so both agents end up South
  (## Findings, row 3). The environment class keeps this; the corrected pie rule is
  stated beside it.

Error paths of the source (a `ValueError`, a `MachineError`, an `IndexError`) are
`Result`/`Outcome` values; the numpy casting errors of `update_board` are not modelled
(see "## Left out"). The I/O of the source is left out: printing, sockets, and
sending commands. The protocol agent's commands are kept in a log (`sent`) instead.

## Model

| member | source | states |
|---|---|---|
| Enums.Side.Opposite | kalah_python/utils/enums.py:79-85 | the opposite side is the other side |
| Enums.OppositeInvolution | kalah_python/utils/enums.py:79-85 | opposite applied twice gives the side back |
| Enums.Side.StoreIdx | kalah_python/utils/enums.py:87-93 | the values 0 for NORTH and 7 for SOUTH that store_idx returns; no code of the core calls it |
| Enums.StoreIdxDistinct | kalah_python/utils/enums.py:87-93 | the two sides' store positions differ |
| Enums.Action.Value | kalah_python/utils/enums.py:6-15 | SWAP is exactly the value -1; a move's value is its hole |
| Enums.ValuesUnique | kalah_python/utils/enums.py:5-15 | distinct members have distinct values (`@unique`) |
| Enums.FromValue | kalah_python/utils/enums.py:6-15 | `Action(value=v)` exists exactly for 1..7 and -1, and has value v |
| Enums.AllActions | kalah_python/utils/enums.py:17-24 | the eight members in declaration order: moves 1..7, then SWAP |
| Enums.MoveActions | kalah_python/utils/enums.py:26-35 | the seven moves in order; exactly the members of all_actions other than SWAP |
| Enums.Filter | kalah_python/utils/enums.py:31-35 | the comprehension keeps exactly the elements that are not SWAP, and is never longer than its input |
| Enums.FilterAppend | kalah_python/utils/enums.py:31-35 | the comprehension distributes over concatenation, so it keeps the order and the repetitions of its input |
| Enums.FilterAll | kalah_python/utils/enums.py:31-35 | the comprehension over all eight members yields MOVE_1..MOVE_7 in order |
| Enums.Action.ToStr | kalah_python/utils/enums.py:46-51 | "SWAP" for a swap, "MOVE;" and the hole's digit for a move |
| Enums.Action.ToCmd | kalah_python/utils/enums.py:37-44 | the command is `__str__` followed by a newline |
| Enums.Digit | kalah_python/utils/enums.py:43 | the character of a decimal digit has that digit's value |
| Boards.BoardState.Holes | kalah_python/utils/board.py:114-120 | the seven holes of a side, cell k at position k - 1, store excluded |
| Boards.BoardState.With | kalah_python/utils/board.py:179-185 | set_hole: the chosen cell holds the new value and every other cell is unchanged |
| Boards.BoardState.Add | kalah_python/utils/board.py:83-97 | add_seeds_to_hole/store: the chosen cell gains k and every other cell is unchanged |
| Boards.AddTotal | kalah_python/utils/board.py:83-97 | adding k seeds to a cell adds k to the board total |
| Boards.WithTotal | kalah_python/utils/board.py:179-185 | setting a cell changes the total by the new value minus the old one |
| Boards.InitialTotal | kalah_python/utils/board.py:19-28 | a fresh board holds 98 seeds, 7 in every hole, and empty stores |
| Boards.Initial | kalah_python/utils/board.py:19-28 | after reset every store is empty and every hole holds seven seeds |
| Boards.Total | kalah_python/utils/board.py:165-167 | the seeds property sums all sixteen cells; it is never negative on a board without negative cells |
| Boards.HoardSideValue | kalah_python/utils/board.py:187-197 | the seeds of the side's row less its store; on a board without negative cells, between 0 and the total less that store |
| Boards.StoreOffset | kalah_python/utils/board.py:122-123 | own store minus the other's; on a board without negative cells, between minus the total and the total |
| Boards.CellAtMostTotal | kalah_python/utils/board.py:165-167 | on a board without negative cells no cell holds more than the total |
| Boards.OppositeHoleIdx | kalah_python/utils/board.py:30-34 | the facing hole 8 - h exactly for h in 1..7; ValueError otherwise |
| Boards.OppositeHoleInvolution | kalah_python/utils/board.py:30-34 | the facing hole of the facing hole is the hole itself |
| Boards.OppositeHole | kalah_python/utils/board.py:107-112 | the seeds in the hole facing h on the other side; an error outside 1..7 |
| Boards.NonzeroFrom | kalah_python/utils/board.py:36-41 | the nonzero holes from i on, exactly, ascending |
| Boards.NonzeroHoles | kalah_python/utils/board.py:36-41 | exactly the nonempty holes 1..7 of a side, ascending, never the store |
| Boards.NonzeroHolesEmpty | kalah_python/utils/board.py:36-41 | nonzero_holes is empty exactly when every hole of the side is empty |
| Boards.StoreOffsetAntisymmetric | kalah_python/utils/board.py:122-123 | a side's store offset is its store minus the other's, and the negation of the other side's offset |
| Boards.BoardFlat | kalah_python/utils/board.py:125-137 | 17 cells: the south row, then the north row, then 1 for SOUTH or 0 for NORTH |
| Boards.ParseAll | kalah_python/utils/board.py:50-57 | int() of every piece succeeds exactly when each piece is an integer, and gives those integers |
| Boards.ParseSnapshot | kalah_python/utils/board.py:43-59 | the parse succeeds exactly when field 2 exists and holds 16 integer pieces; then North's store is b7 and its holes b0..b6, South's store is b15 and its holes b8..b14 |
| Boards.PartsParse | kalah_python/utils/board.py:50-57 | when every piece is an integer, each of the four slices that update_board converts parses |
| Boards.ParseChangeMessage | kalah_python/utils/board.py:43-62 | update_board reads back exactly the 16 cells a server CHANGE message carries |
| Boards.ParseIntegers | kalah_python/utils/board.py:43-59 | 16 integer pieces in field 2 parse into the board those cells describe |
| Boards.ChangeMessagePieces | kalah_python/utils/board.py:49 | field 2 of a CHANGE message splits back into the written numbers |
| Boards.Stringify | kalah_python/utils/board.py:49-57 | each cell written as its decimal string |
| Boards.Board.constructor | kalah_python/utils/board.py:21-28 | two fresh rows holding the initial board |
| Boards.Board.Reset | kalah_python/utils/board.py:64-67 | the arrays hold the initial board afterwards |
| Boards.Board.Hole | kalah_python/utils/board.py:99-105 | reads the cell of the side (index 0 is the store) |
| Boards.Board.Store | kalah_python/utils/board.py:69-80 | reads cell 0 of the side |
| Boards.Board.SetHole | kalah_python/utils/board.py:179-185 | the new board is the old one with that cell set, and nothing else changes |
| Boards.Board.AddSeedsToHole | kalah_python/utils/board.py:91-97 | the new board is the old one with seeds added to that cell only |
| Boards.Board.AddSeedsToStore | kalah_python/utils/board.py:83-89 | the new board is the old one with seeds added to the side's store only |
| Boards.Board.GetHoardSideValue | kalah_python/utils/board.py:187-197 | the loop returns the seeds in the side's seven holes, store excluded |
| Boards.Board.UpdateBoard | kalah_python/utils/board.py:43-62 | a message that parses replaces both rows with the snapshot; one that does not parse raises and changes nothing (cells are unbounded integers, not int64; see ## Left out) |
| Text.Split | kalah_python/utils/board.py:49-57 | str.split: at least one piece, no piece holds the separator, one piece more than separators |
| Text.SplitJoin | kalah_python/utils/board.py:49-57 | splitting joined pieces that hold no separator gives the pieces back |
| Text.ParseIntStrip | kalah_python/utils/board.py:51-56 | int() strips space, tab, line feed, vertical tab, form feed and carriage return from both ends (not 0x1c..0x1f) and then reads an optional sign and a numeral |
| Text.ParseIntIgnoresSpace | kalah_python/utils/board.py:51-56 | whitespace before or after the text does not change what int() reads |
| Text.ParseIntSeparators | kalah_python/utils/board.py:51-56 | the separators 0x1c..0x1f are not whitespace to int(): a number with one at either end raises |
| Text.ParseIntBlank | kalah_python/utils/board.py:51-56 | int() refuses empty and all-whitespace text |
| Text.ParseIntHasDigit | kalah_python/utils/board.py:51-56 | a number int() accepts holds a digit, and only a minus sign makes it negative |
| Text.ParseNumber | kalah_python/utils/board.py:51-56 | an accepted number has a digit first or right after its sign, and only '-' makes it negative |
| Text.ParseGrouped | kalah_python/utils/board.py:51-56 | an underscore between two runs of digits is digit grouping: d_e reads as the number de |
| Text.ParseStrayUnderscore | kalah_python/utils/board.py:51-56 | an underscore first, last or doubled makes int() raise |
| Text.ParseBareSign | kalah_python/utils/board.py:51-56 | a sign without digits makes int() raise |
| Text.ParseNegative | kalah_python/utils/board.py:51-56 | a minus sign before digits gives the negated value |
| Text.ParseNatToString | kalah_python/utils/board.py:51-56 | int(str(n)) == n for every natural n |
| Text.IntToString | kalah_python/utils/agent.py:58-59 | str(i) is nonempty and holds no newline and no ';' |
| Text.ParseIntToString | kalah_python/utils/agent.py:58-59 | int(str(i)) == i for every integer, negative ones included |
| Rules.RingCell | kalah_python/utils/env.py:202-217 | each of the 15 sowing positions is a cell of the board other than the opponent's store |
| Rules.RingIndex | kalah_python/utils/env.py:202-217 | every cell but the opponent's store has a ring position, and RingCell maps it back |
| Rules.RingIndexOfCell | kalah_python/utils/env.py:202-217 | RingIndex inverts RingCell |
| Rules.AdvanceIsModular | kalah_python/utils/env.py:204-217 | advancing j pits around the ring is addition modulo 15 |
| Rules.Offset | kalah_python/utils/env.py:204-217 | the distance from one ring position to another, which Advance inverts |
| Rules.LapHolesCell | kalah_python/utils/env.py:196-199 | the lap loop up to hole k adds the laps to holes 1..k of both sides and nothing else |
| Rules.LapHolesTotal | kalah_python/utils/env.py:196-199 | the lap loop up to hole k adds 2·k·laps seeds |
| Rules.SowLapsCell | kalah_python/utils/env.py:191-200 | full laps: every hole of both sides and the mover's store gain the laps; the total grows by 15·laps |
| Rules.ScatterCell | kalah_python/utils/env.py:202-217 | the remainder loop adds one seed to each of the k pits after the cursor and nothing else |
| Rules.ScatterTotal | kalah_python/utils/env.py:202-217 | the remainder loop adds exactly k seeds |
| Rules.Sow | kalah_python/utils/env.py:187-217 | the seeds of the hole split into 15·laps + remainder, with the remainder below 15 |
| Rules.SowConserves | kalah_python/utils/env.py:187-217 | sowing never creates or destroys a seed |
| Rules.SowCell | kalah_python/utils/env.py:187-217 | per cell: the source hole is emptied, every hole and the mover's store gain seeds div 15, the remainder lands one per pit from the start hole on, and the opponent's store gains nothing |
| Rules.SowSkipsOpponentStore | kalah_python/utils/env.py:187-217 | the opponent's store never receives a seed of the sowing |
| Rules.SowSteps | kalah_python/utils/env.py:187-217 | Sow is the three steps in order: empty the hole, sow seeds div 15 full laps, scatter seeds mod 15 from the start hole; the last cell is that many ring cells on |
| Rules.StartHole | kalah_python/utils/env.py:196-205 | the shadowed `hole`: after one or more full laps the remainder starts at the mover's store; without laps it starts right after the source hole |
| Rules.SowLaps | kalah_python/utils/env.py:195-200 | the full laps add the laps to the mover's store and nothing to the opponent's store |
| Rules.Scatter | kalah_python/utils/env.py:202-217 | the remainder never reaches the opponent's store |
| Rules.CaptureApplies | kalah_python/utils/env.py:219-223 | the capture test: the last seed is in a hole of the mover that now holds one seed, and the facing hole is nonempty |
| Rules.CaptureAsWritten | kalah_python/utils/env.py:224-227 | as written: the store gains 1 plus the facing seeds, the landing hole and the opponent hole of the same number are emptied, and the facing hole keeps its seeds unless it is hole 4 |
| Rules.Capture | kalah_python/utils/env.py:220-227 | corrected capture: the landing hole and the facing hole are emptied, and the store gains 1 plus the facing seeds |
| Rules.CaptureConserves | kalah_python/utils/env.py:220-227 | the corrected capture keeps the total and changes only the store and the two captured holes |
| Rules.FindingSow | kalah_python/utils/env.py:187-217 | on the finding board, South's hole 1 sows its one seed into hole 2 |
| Rules.CaptureAsWrittenBreaksConservation | kalah_python/utils/env.py:224-227 | the capture as written turns 98 seeds into 102, where the corrected one keeps 98 |
| Rules.ZeroHolesCell | kalah_python/utils/env.py:239-241 | the sweep loop up to k empties holes 1..k of the side and removes exactly their seeds |
| Rules.CollectCell | kalah_python/utils/env.py:236-243 | the sweep empties the side's holes into its own store and keeps the total |
| Rules.Collect | kalah_python/utils/env.py:236-243 | the sweep moves the seeds of the side's holes into its own store and keeps the total |
| Rules.CollectEmptiesBoth | kalah_python/utils/env.py:229-243 | when the other side is already empty, the sweep leaves every hole of both sides empty |
| Rules.FinishedSide | kalah_python/utils/env.py:229-234 | the mover's side when its holes are empty; otherwise the other side when its holes are empty; otherwise none |
| Rules.ApplyConserves | kalah_python/utils/env.py:187-246 | a whole move (sow, capture, sweep) keeps the number of seeds (with the corrected capture of ## Findings row 1) |
| Rules.Apply | kalah_python/utils/env.py:187-246 | a last seed in the store is never a capture; a move that does not end the game leaves the sown and captured board (with the corrected capture of ## Findings row 1) |
| Rules.ApplyNonNegative | kalah_python/utils/env.py:187-246 | a move never makes a cell negative, so with conservation it keeps a board within 98 seeds and without negative cells |
| Rules.ApplyEnds | kalah_python/utils/env.py:229-246 | a move ends the game exactly when it leaves every hole of both sides empty |
| Rules.ApplyEndsSweep | kalah_python/utils/env.py:236-243 | at the end each store gains exactly its own side's remaining holes |
| Rules.HoardZero | kalah_python/utils/board.py:187-197 | a side with empty holes has nothing to sweep |
| Rules.ApplyCaptures | kalah_python/utils/env.py:219-227 | a move captures exactly when the capture test holds on the last sown cell; then both holes are emptied and the store gains 1 plus the facing seeds |
| Rules.EnvStep | kalah_python/utils/env.py:171-252 | SWAP leaves the board and gives NORTH_TURN; a move gives the move's board and GAME_ENDS exactly when the move ends the game, and the other side's turn otherwise (with the corrected capture of ## Findings row 1) |
| Rules.SimulateStep | kalah_python/utils/agents.py:301-446 | SWAP keeps the board and the player; a move keeps the player exactly when it ended the game, captured, or put its last seed in the store (with the corrected capture of ## Findings row 1) |
| Rules.StepsConserve | kalah_python/utils/env.py:171-252 | neither turn rule changes the number of seeds (with the corrected capture of ## Findings row 1) |
| Rules.StepsBounded | kalah_python/utils/env.py:171-252 | both turn rules keep a board without negative cells and within 98 seeds |
| Rules.FinishedSideNone | kalah_python/utils/env.py:230-234 | no side has finished while both have a seed in some hole |
| Rules.ApplyQuiet | kalah_python/utils/env.py:219-246 | a move that neither captures nor empties a side is its sowing, with no game end |
| Rules.SowOpeningHoleOne | kalah_python/utils/env.py:187-217 | South's hole 1 of the reset board fills holes 2..7 and the store |
| Rules.OpeningHoleOne | kalah_python/utils/agents.py:337-348 | that opening ends in the store: simulate_move keeps South, execute_action gives NORTH_TURN |
| Rules.SowOpeningHoleThree | kalah_python/utils/env.py:187-217 | South's hole 3 of the reset board reaches North's holes 1 and 2 |
| Rules.OpeningHoleThree | kalah_python/utils/agents.py:438-444 | after the hole-3 opening the turn passes to North in both turn rules |
| AgentMachine.LookupFrom | kalah_python/utils/agents.py:90-107 | None exactly when no entry from i on fires; otherwise the target of an entry that fires |
| AgentMachine.Next | kalah_python/utils/agents.py:90-107 | a trigger fails (MachineError) exactly when no entry matches; otherwise it leads to the target of a matching entry |
| AgentMachine.Diagram | kalah_python/utils/agents.py:90-107 | the machine drawn state by state; only reset leads to INIT and only game_over to EXIT |
| AgentMachine.TableDeterministic | kalah_python/utils/agents.py:90-107 | no state has two entries for the same trigger |
| AgentMachine.NextIsDiagram | kalah_python/utils/agents.py:90-107 | the table's lookup equals the machine drawn state by state, for every state and trigger |
| AgentMachine.NoEntry | kalah_python/utils/agents.py:90-107 | where the diagram has no arrow no table entry fires (a MachineError) |
| AgentMachine.DiagramEntry | kalah_python/utils/agents.py:90-107 | each arrow of the diagram is an entry of the table |
| AgentMachine.GameOverAndResetAlwaysFire | kalah_python/utils/agents.py:105-106 | game_over leads to EXIT and reset to INIT from every state |
| AgentMachine.CommitTriggers | kalah_python/utils/agents.py:93-96 | moves fires exactly from the deciding states and swaps only from MAKE_MOVE_OR_SWAP, into a waiting state |
| AgentMachine.DecidingEnteredBy | kalah_python/utils/agents.py:90-107 | a deciding state is entered only from INIT or a waiting state, by the listed triggers |
| Agents.MiniMaxDecision | kalah_python/utils/agents.py:491-509 | the minimax decision is SWAP on an empty list and one of the possible actions otherwise |
| Agents.MiniMaxSound | kalah_python/utils/agents.py:491-509 | the minimax agent always picks one of the actions it is offered |
| Agents.ActionsFor | kalah_python/utils/agents.py:141-148 | a move exactly for each nonempty hole, ascending and before SWAP; SWAP exactly in MAKE_MOVE_OR_SWAP |
| Agents.PossibleActionsOf | kalah_python/utils/agents.py:141-148 | without a side the board raises; otherwise the list above |
| Agents.AgentView.Register | kalah_python/utils/agents.py:153-156 | fills a free slot; refuses when an action is pending and changes nothing |
| Agents.AgentView.Unregister | kalah_python/utils/agents.py:158-162 | empties a full slot; refuses when nothing is pending |
| Agents.RegisterUnregister | kalah_python/utils/agents.py:153-162 | register then unregister on a free slot restores the agent |
| Agents.AgentView.SwapSide | kalah_python/utils/agents.py:176-182 | North and South trade places; without a side it raises and nothing changes |
| Agents.SwapSideTwice | kalah_python/utils/agents.py:176-182 | swapping twice restores the side |
| Agents.AgentView.DecideAndRegister | kalah_python/utils/agents.py:195-203 | keeps the state; raises without a side or with a pending action; otherwise registers the decision on the possible actions |
| Agents.AgentView.Enter | kalah_python/utils/agents.py:184-211 | what each on_enter_* does: WAIT_FOR_1ST_MOVE takes North, DECIDE_ON_1ST_MOVE takes South and decides, the two other deciding states decide, the rest change nothing |
| Agents.AgentView.Fire | kalah_python/utils/agents.py:90-107 | a trigger without a transition raises and changes nothing; otherwise the state becomes the transition's target and the entry action runs |
| Agents.AgentView.Commit | kalah_python/utils/agents.py:164-174 | nothing pending raises; a pending move fires moves; a pending SWAP swaps the side, then fires swaps |
| Agents.EnterRegistersChosen | kalah_python/utils/agents.py:184-203 | with a sound decider, entering a deciding state registers one of the possible actions (SWAP when there are none) |
| Agents.CommitPossible | kalah_python/utils/agents.py:164-174 | committing a possible action from a deciding state succeeds, lands in a waiting state, and swaps the side exactly for SWAP |
| Agents.NewMatch | kalah_python/utils/agents.py:91-92 | new_match_1st takes South and registers a decision; new_match_2nd only takes North |
| Agents.FireQuiet | kalah_python/utils/agents.py:90-107 | a trigger into a state without an entry action only changes the state |
| Agents.FireDeciding | kalah_python/utils/agents.py:195-203 | a trigger into MAKE_MOVE_OR_SWAP or DECIDE_ON_MOVE registers the decision on the new state's possible actions |
| Agents.Agent.constructor | kalah_python/utils/agents.py:124-132 | the agent starts in INIT with no side and an empty slot, on the given board |
| Agents.Agent.ActionIsRegistered | kalah_python/utils/agents.py:150-151 | true exactly when unregister would succeed |
| Agents.Agent.PossibleActions | kalah_python/utils/agents.py:141-148 | the loop over the holes returns PossibleActionsOf on the current board |
| Agents.Agent.RegisterAction | kalah_python/utils/agents.py:153-156 | the new state and result are those of AgentView.Register |
| Agents.Agent.UnregisterAction | kalah_python/utils/agents.py:158-162 | the new state and result are those of AgentView.Unregister |
| Agents.Agent.SwapSide | kalah_python/utils/agents.py:176-182 | the new state and result are those of AgentView.SwapSide |
| Agents.Agent.DecideOnAction | kalah_python/utils/agents.py:134-139 | the strategy's decision on the agent's board and side |
| Agents.Agent.DecideAndRegister | kalah_python/utils/agents.py:195-203 | the new state and result are those of AgentView.DecideAndRegister |
| Agents.Agent.Fire | kalah_python/utils/agents.py:90-107 | the new state and result are those of AgentView.Fire |
| Agents.Agent.CommitAction | kalah_python/utils/agents.py:164-174 | the new state and result are those of AgentView.Commit |
| MiniMaxAgent.MoveList | kalah_python/utils/agents.py:271-274 | one move per hole number, in order |
| MiniMaxAgent.MovesOf | kalah_python/utils/agents.py:268-275 | a move exactly for each nonempty hole of the player, in ascending order |
| MiniMaxAgent.MovesUpToSplit | kalah_python/utils/board.py:36-41 | the walk over the holes up to h, then the comprehension from h, gives the whole comprehension |
| MiniMaxAgent.MoveListAppend | kalah_python/utils/agents.py:271-274 | the comprehension distributes over concatenation |
| MiniMaxAgent.SimulateMove | kalah_python/utils/agents.py:301-446 | the board and next player are SimulateStep's; the new moves are exactly the nonempty holes of the player to move; ended exactly when the move ends the game (with the corrected capture of ## Findings row 1) |
| MiniMaxAgent.SeedsAddedToStore | kalah_python/utils/agents.py:308-382 | the count of the remainder seed in the store, the capture and the sweep; between 0 and 2 + twice the total on a board without negative cells |
| MiniMaxAgent.SownIntoStore | kalah_python/utils/agents.py:334-349 | a remainder seed reaches the mover's store at most once |
| MiniMaxAgent.HeuristicParts | kalah_python/utils/agents.py:387-430 | on a reachable board each term of the value lies within the board's seeds |
| MiniMaxAgent.Heuristic | kalah_python/utils/agents.py:387-430 | the value simulate_move gives a node; on a board without negative cells and within 98 seeds it lies strictly between -35 and 275, inside the clamps |
| MiniMaxAgent.Over | kalah_python/utils/agents.py:284-287 | is_over becomes true exactly when no move is left or it already was; nothing else changes |
| MiniMaxAgent.Root | kalah_python/utils/agents.py:502-503 | the root of decide_on_action: depth 0, no `next`, best move SWAP; it is over exactly when there are no possible actions |
| MiniMaxAgent.Child | kalah_python/utils/agents.py:462-465 | the deep copy is one level deeper and keeps `next` and the best move; a move sets the value to the evaluation, SWAP keeps it |
| MiniMaxAgent.Search | kalah_python/utils/agents.py:452-488 | the search changes only the value, the link, the best move and is_over of a node |
| MiniMaxAgent.SearchLoop | kalah_python/utils/agents.py:461-487 | the loop changes only the value, the link, the best move and is_over |
| MiniMaxAgent.ChooseMiniMaxMove | kalah_python/utils/agents.py:452-488 | the method with its loop and recursion returns exactly Search |
| MiniMaxAgent.DecideOnAction | kalah_python/utils/agents.py:491-509 | SWAP when there are no possible actions, otherwise one of them |
| MiniMaxAgent.SearchBestMove | kalah_python/utils/agents.py:452-488 | the best move of a searched node is the one it had or one of its moves |
| MiniMaxAgent.SearchLoopBestMove | kalah_python/utils/agents.py:461-487 | the loop from move i picks the node's best move or one of moves i.. |
| MiniMaxAgent.FirstMoveTaken | kalah_python/utils/agents.py:467-473 | an expanded node without `next` always takes a move of its own |
| MiniMaxAgent.Decide | kalah_python/utils/agents.py:491-509 | the root search by the method returns DecideOnAction |
| SearchProofs.Minimax | kalah_python/utils/agents.py:452-488 | the reference search without pruning changes only value, link, best move and is_over |
| SearchProofs.MinimaxLoop | kalah_python/utils/agents.py:461-487 | the same for its loop |
| SearchProofs.SimulateMoveMovesOnly | kalah_python/utils/agents.py:268-275 | below the root nodes are offered moves only, never SWAP |
| SearchProofs.SearchRange | kalah_python/utils/agents.py:452-488 | for any simulation that keeps a board invariant and evaluation strictly within the clamps ±999 on it, every searched value is within them too |
| SearchProofs.SearchLoopRange | kalah_python/utils/agents.py:461-487 | the same for the loop |
| SearchProofs.MinimaxRange | kalah_python/utils/agents.py:452-488 | the same for the reference search |
| SearchProofs.MinimaxLoopRange | kalah_python/utils/agents.py:461-487 | the same for the reference loop |
| SearchProofs.MinimaxLoopMonotone | kalah_python/utils/agents.py:468-487 | once linked, a maximising node's value only grows and a minimising one's only shrinks |
| SearchProofs.Window | kalah_python/utils/agents.py:452-488 | alpha-beta soundness: below the root, the pruned and full searches agree on the value clipped to (alpha, beta), for any simulation that keeps a board invariant and evaluation strictly within ±999 on it |
| SearchProofs.ChildrenAlike | kalah_python/utils/agents.py:462-465 | the pruned and full searches build the same child for a move |
| SearchProofs.WindowLoopMax | kalah_python/utils/agents.py:468-477 | the clipped agreement is kept by the loop of a maximising node |
| SearchProofs.WindowLoopMin | kalah_python/utils/agents.py:478-487 | the clipped agreement is kept by the loop of a minimising node |
| SearchProofs.WindowMaxStep | kalah_python/utils/agents.py:468-477 | one comparison at a maximising node keeps the agreement and the window's cut-off |
| SearchProofs.WindowMinStep | kalah_python/utils/agents.py:478-487 | one comparison at a minimising node keeps the agreement and the window's cut-off |
| SearchProofs.RootExact | kalah_python/utils/agents.py:491-509 | at the root, with (-9999, 9999), the pruned search equals the full search exactly, for any simulation that keeps a board invariant and evaluation strictly within ±999 on it |
| SearchProofs.RootLoop | kalah_python/utils/agents.py:461-477 | the root loop, with alpha the root's value once linked, equals the full loop |
| SearchProofs.DecisionUnaffectedByPruning | kalah_python/utils/agents.py:491-509 | decide_on_action returns the best move of the full search, for any simulation that keeps a board invariant and evaluation strictly within ±999 on it |
| SearchProofs.MinimaxIgnoresBest | kalah_python/utils/agents.py:452-488 | the full search's value and as-updated best move do not depend on the best move carried in |
| SearchProofs.MinimaxLoopIgnoresBest | kalah_python/utils/agents.py:461-487 | the same for its loop |
| SearchProofs.ChildValues | kalah_python/utils/agents.py:461-466 | the full-search values of a root's moves, one per move |
| SearchProofs.FirstMaxStep | kalah_python/utils/agents.py:469 | a strict comparison keeps the first occurrence of the maximum |
| SearchProofs.FirstMinStep | kalah_python/utils/agents.py:479 | a strict comparison keeps the first occurrence of the minimum |
| SearchProofs.StepSeesChildValue | kalah_python/utils/agents.py:461-466 | step i of the full loop sees the i-th child value |
| SearchProofs.MaxTakesFirstBest | kalah_python/utils/agents.py:468-477 | a maximising root ends with the largest child value and the first move reaching it |
| SearchProofs.MaxLoopTakesFirstBest | kalah_python/utils/agents.py:468-477 | the loop invariant behind it |
| SearchProofs.MinTakesFirstBest | kalah_python/utils/agents.py:478-487 | a minimising node without `next` ends with the smallest child value and the first move reaching it |
| SearchProofs.MinLoopTakesFirstBest | kalah_python/utils/agents.py:478-487 | the loop invariant behind it |
| SearchProofs.DecisionIsFirstBest | kalah_python/utils/agents.py:491-509 | on moves only, decide_on_action plays the first move with the largest full-search value, for any simulation that keeps a board invariant and evaluation strictly within ±999 on it |
| SearchProofs.ShippedSearchAdmissible | kalah_python/utils/agents.py:301-446 | simulate_move offers only moves, keeps boards reachable, and the heuristic is inside the clamps on reachable boards |
| SearchProofs.ShippedDecisionUnpruned | kalah_python/utils/agents.py:491-509 | on a reachable board the minimax agent plays the best move of the full search without pruning |
| SearchProofs.ShippedDecisionIsFirstBest | kalah_python/utils/agents.py:491-509 | on a reachable board and moves only, the minimax agent plays the first move whose full-search value is the largest |
| Env.World.WithAgent | kalah_python/utils/env.py:39-45 | replaces one agent and keeps the other, the shared board and env_state |
| Env.World.FireOn | kalah_python/utils/env.py:83-156 | a trigger on one agent, on the shared board; the other agent is kept and the agent's error is passed on |
| Env.World.FireBoth | kalah_python/utils/env.py:145-154 | agent_n first, then agent_s unless agent_n raised; the board and env_state are kept |
| Env.World.Notify | kalah_python/utils/env.py:145-156 | the agent to move hears game_state_is_you and the other game_state_is_opp; both hear game_state_is_end at the end; INIT raises |
| Env.World.OrderAgent | kalah_python/utils/env.py:83-100 | no registered action raises and changes nothing, as does a missing side; otherwise the board and env_state are EnvStep's, the agent commits and unregisters, and both are notified (with the corrected capture of ## Findings row 1) |
| Env.World.StartGame | kalah_python/utils/env.py:53-55 | new_match_1st on agent_s, then new_match_2nd on agent_n, then SOUTH_TURN |
| Env.World.ResetAll | kalah_python/utils/env.py:67-81 | both agents back to INIT (side and slot kept), the initial board, env_state INIT |
| Env.World.GameResult | kalah_python/utils/env.py:125-143 | raises unless the game has ended, and when agent_s has no side |
| Env.GameResWinner | kalah_python/utils/env.py:125-143 | a draw exactly when the stores are equal; otherwise the winner holds more, by win_score, and the loser is the other agent |
| Env.OrderAgentConserves | kalah_python/utils/env.py:83-100 | order_agent never changes the number of seeds (with the corrected capture of ## Findings row 1) |
| Env.EnvStepLeavesMoves | kalah_python/utils/env.py:229-252 | after a move that does not end the game, both sides still have a nonempty hole |
| Env.OrderAgentMove | kalah_python/utils/env.py:83-100 | a possible, non-final move: the board is the move's, the turn passes, the agent waits with an empty slot, and the other agent is told game_state_is_you |
| Env.CommitPossibleOnAnyBoard | kalah_python/utils/agents.py:164-174 | committing a pending move depends only on the state, not the board |
| Env.SwapLeavesBothSouth | kalah_python/utils/env.py:178-185 | a SWAP by agent_n keeps the board and NORTH_TURN, makes agent_n South and asks it to move again, and leaves agent_s South too |
| Env.World.NotifyBySide | kalah_python/utils/env.py:145-156 | corrected notification: the agent playing the side to move hears game_state_is_you; while agent_s plays South it is notify_game_state |
| Env.World.OrderAgentPieRule | kalah_python/utils/env.py:83-100 | corrected order_agent: every action but SWAP is order_agent; a SWAP keeps the board and NORTH_TURN |
| Env.PieRuleSwapsBoth | kalah_python/utils/env.py:83-100 | under the corrected rule a SWAP by agent_n makes it South and waiting, and makes agent_s North and asked to move, with its decision registered |
| Env.StartGameOpening | kalah_python/utils/env.py:53-55 | from fresh agents: agent_s is South with its decision registered, agent_n is North and waiting, South to move |
| Env.FirstMoveOffersSwap | kalah_python/utils/env.py:83-100 | after South's first, non-final move, agent_s waits for the swap decision and agent_n is asked to move or swap, with one of its possible actions registered |
| Env.NotifyAfterFirstMove | kalah_python/utils/env.py:145-148 | the notification after the first move puts agent_n in MAKE_MOVE_OR_SWAP and agent_s in WAIT_FOR_SWAP_DECISION |
| Env.KalahEnv.constructor | kalah_python/utils/env.py:29-45 | the environment holds the shared board and the two agents; env_state INIT |
| Env.KalahEnv.ExecuteAction | kalah_python/utils/env.py:171-252 | the loops leave the board and return the env_state that Rules.EnvStep gives (with the corrected capture of ## Findings row 1) |
| Env.KalahEnv.SowHole | kalah_python/utils/env.py:187-217 | the board after emptying, laps and remainder is Rules.Sow's, and the cursor is on the last seed |
| Env.KalahEnv.SowExtra | kalah_python/utils/env.py:202-217 | the remainder loop gives Scatter from the cursor, and ends on the ring cell `extra` pits on |
| Env.KalahEnv.SowRounds | kalah_python/utils/env.py:195-200 | the lap loop gives Rules.SowLaps (every hole of both sides and the mover's store gain the rounds), or leaves the board alone when there are none, and leaves the start hole at 7 after a lap |
| Env.KalahEnv.SowSeed | kalah_python/utils/env.py:205-217 | one pass of the remainder loop moves the cursor to the next ring cell, skipping the opponent's store, and adds one seed there and nowhere else |
| Env.KalahEnv.CaptureLast | kalah_python/utils/env.py:219-227 | the capture test and the corrected capture on the last cell |
| Env.KalahEnv.Sweep | kalah_python/utils/env.py:236-243 | the sweep loop gives Rules.Collect |
| Env.KalahEnv.FireOn | kalah_python/utils/env.py:83-156 | the new world and result are those of World.FireOn |
| Env.KalahEnv.NotifyGameState | kalah_python/utils/env.py:145-156 | the new world and result are those of World.Notify |
| Env.KalahEnv.OrderAgent | kalah_python/utils/env.py:83-100 | the new world and result are those of World.OrderAgent |
| Env.KalahEnv.StartGame | kalah_python/utils/env.py:53-55 | the new world and result are those of World.StartGame |
| Env.KalahEnv.Reset | kalah_python/utils/env.py:67-81 | the new world is World.ResetAll |
| ProtocolAgent.ValidateHoleIdxAsWritten | kalah_python/utils/agent.py:71-81 | as written: South accepts exactly 1..7 and North exactly 0..6 |
| ProtocolAgent.NorthHoleRangeAsWritten | kalah_python/utils/agent.py:72-75 | as written, North's hole 7 is refused and North's hole 0 (no hole) is accepted |
| ProtocolAgent.ValidateHoleIdx | kalah_python/utils/agent.py:71-81 | corrected: either side accepts exactly 1..7 |
| ProtocolAgent.ValidateHoleIdxNamesAMove | kalah_python/utils/agent.py:71-81 | the corrected check accepts exactly the hole numbers that are moves of the game |
| ProtocolAgent.ValidateState | kalah_python/utils/agent.py:61-69 | a move is allowed exactly in the three deciding states, a swap exactly in MAKE_MOVE_OR_SWAP; otherwise the matching error |
| ProtocolAgent.Validate | kalah_python/utils/agent.py:52-98 | a move is valid exactly with a hole in 1..7 and a movable state, with the hole checked first; a swap exactly in MAKE_MOVE_OR_SWAP (with the corrected hole check of ## Findings row 2) |
| ProtocolAgent.ToCmd | kalah_python/utils/agent.py:57-59 | "SWAP\n" for a swap; "MOVE;", the hole and a newline for a move |
| ProtocolAgent.ToCmdParses | kalah_python/utils/agent.py:57-93 | the command reads back as the action's hole, or as SWAP |
| ProtocolAgent.ToCmdAgrees | kalah_python/utils/enums.py:37-44 | a valid action's command is that of the Action member of the same hole |
| ProtocolAgent.Agent.constructor | kalah_python/utils/agent.py:104-112 | a fresh board, INIT, no side, no turn, nothing sent |
| ProtocolAgent.Agent.Execute | kalah_python/utils/agent.py:149-154 | the result is the validation; the command is sent exactly when the action is valid; nothing else changes (with the corrected hole check of ## Findings row 2) |
| ProtocolAgent.Agent.StartPlaying | kalah_python/utils/agent.py:135-165 | the first player takes South and YOU, sends its valid first move and waits for the result (an invalid one raises with nothing sent); the second takes North and OPPONENT and waits (with the corrected hole check of ## Findings row 2) |
| Protocol.GetMsgType | kalah_python/utils/protocol.py:13-21 | START, STATE and END exactly for the prefixes "START;", "CHANGE;" and "END\n"; any other message raises |
| Protocol.HasPrefix | kalah_python/utils/protocol.py:14-18 | str.startswith: exactly when the message begins with the prefix, character by character |
| Protocol.PrefixesExclusive | kalah_python/utils/protocol.py:13-21 | no message has two of the prefixes, so the order of the tests does not matter |
| Protocol.EndNeedsNewline | kalah_python/utils/protocol.py:18-21 | "END" without a newline raises, while "END\n" is END |
| Protocol.ChangeMessageIsState | kalah_python/utils/protocol.py:16-17 | every CHANGE message that update_board reads is classified STATE |

## Left out

- The reward of `execute_action` (env.py:161-169) and `seeds_added_to_store` as a reward
  term: floating point with hyperparameters from outside the core. The second result of
  `execute_action` is left out.
- `reward_and_penalise`, `reward_winner`, `penalise_loser` and the reward buffers
  (env.py:102-123): float bookkeeping for training. `clear_buffers` in `reset` is also
  left out.
- The `while` loop of `play_game` (env.py:56-65). Its start is `Env.KalahEnv.StartGame`,
  and each iteration is one `Env.KalahEnv.OrderAgent`. Whole-game termination is not
  proved.
- `game_is_over` (env.py:158-159): it reads `EnvState.GAME_OVER`, a member that does not
  exist, so it can only raise `AttributeError`. `render` and printing are left out.
- The neural agent `ACAgent` of env.py: it is the abstract `Chooser(pick)` strategy, and
  its network is not part of this model.
- MiniMaxAgent.ChooseMiniMaxMove: `@lru_cache` only memoises, and the debugging
  prints are I/O.
- SearchProofs.Window, SearchProofs.RootExact, SearchProofs.DecisionUnaffectedByPruning and
  SearchProofs.DecisionIsFirstBest are stated for any simulation and evaluation that keep an
  invariant of the boards and stay strictly between -999 and 999 on them (`EvalInRange`),
  because the source clamps alpha and beta there. SearchProofs.ShippedSearchAdmissible
  proves that `simulate_move` and its heuristic meet this on every board without negative
  cells and within 98 seeds; on other boards the pruning is not proved harmless.
- MiniMaxAgent.Heuristic: real arithmetic stands in for Python floats, and no rounding
  is modelled.
- agents.py gives SWAP the value 's', while enums.py gives it -1. `Enums.Action.Value`
  uses -1. No code of the core compares the value of SWAP.
- Enums.Action.ToCmd: `to_cmd` returns UTF-8 bytes. The model returns the same ASCII
  text as a string.
- The busy-wait handlers of agent.py after the first wait (`_wait_for_move_result`,
  `_wait_for_swap_decision`, `_wait_for_1st_move`, `_make_move_or_swap`,
  `_decide_on_move`, `_wait_for_turn`, `_finish_game`). They poll a `turn` field that
  another thread updates, which is concurrency. `ProtocolAgent.Agent.StartPlaying` stops
  at the first wait.
- `Protocol.send_cmd` does not exist in protocol.py: the commands `_execute` sends are
  appended to the log `sent`. `interpret_start_msg` and the other message readers of
  protocol.py are not part of this model.
- The socket server and the training scripts around the core.
- Text.ParseInt: only ASCII digits and ASCII whitespace are read. Python's `int()` also
  accepts other Unicode decimal digits and strips Unicode whitespace; such text gives None.
- Boards.ParseAll: inherits the ASCII-only `int()` of Text.ParseInt, so a piece written
  with non-ASCII digits is refused.
- Boards.ParseSnapshot: the same ASCII-only reading of each of the sixteen pieces.
- Boards.Board.UpdateBoard: a CHANGE message whose numbers use non-ASCII digits or
  whitespace raises in the model, where `update_board` would accept it. The numpy
  casting of `np.copyto` is not modelled either: a piece of 2^64 or more makes the source
  raise `TypeError` after the North row has already been copied, and a piece in
  [2^63, 2^64) is wrapped to a negative int64; the model stores both values unchanged and
  reports success.
- Boards.Board: the cells are unbounded integers, where the source's numpy rows are int64
  (board.py:19). Every board the rules reach holds at most 98 seeds, so the moves, the
  capture and the sweep never come near that width.
- Rules.Apply, Rules.EnvStep, Rules.SimulateStep, MiniMaxAgent.Heuristic,
  MiniMaxAgent.SeedsAddedToStore, MiniMaxAgent.SimulateMove (and so the shipped search of
  SearchProofs.ShippedDecisionUnpruned and Agents.MiniMaxDecision), Env.World.OrderAgent,
  Env.KalahEnv.OrderAgent, Env.KalahEnv.ExecuteAction and Env.KalahEnv.CaptureLast use the
  corrected capture of ## Findings row 1, not the capture as written.
- ProtocolAgent.Validate, ProtocolAgent.Agent.Execute and ProtocolAgent.Agent.StartPlaying
  use the corrected hole check of ## Findings row 2, not North's range as written.
- Env.World.OrderAgent and Env.KalahEnv.OrderAgent keep the SWAP handling as written
  (## Findings row 3); the corrected pie rule is Env.World.OrderAgentPieRule, which the
  class does not use.

## Findings

| source | as written | input that shows it | evidently intended | confidence | as-written member | corrected member |
|---|---|---|---|---|---|---|
| kalah_python/utils/env.py:227 (and agents.py:364) | the capture empties the opponent's hole with the same number as the landing hole, `set_hole(sow_hole, side.opposite(), 0)` | South sows hole 1 (one seed) of the board North [17,7,3,7,7,7,7,7], South [0,1,0,7,7,7,7,7]: the store gains 8, North's hole 2 (3 seeds) is emptied and North's hole 6 (7 seeds) stays, so 98 seeds become 102 | empty the facing hole `8 - sow_hole`, whose seeds went to the store | high (not executed) | Rules.CaptureAsWrittenBreaksConservation | Rules.CaptureConserves |
| kalah_python/utils/agent.py:72-75 | North's hole index must lie in 0..6 | a MoveAction for North with hole_idx 7 is refused, and one with hole_idx 0 is accepted and sent as "MOVE;0" | 1..7 for both sides, as South's check, the board and the commands use | high (not executed) | ProtocolAgent.NorthHoleRangeAsWritten | ProtocolAgent.ValidateHoleIdxNamesAMove |
| kalah_python/utils/env.py:83-100 (and agents.py:168-172) | after a SWAP only the committing agent changes side (`swap_side` in `commit_action`), and `notify_game_state` then tells agent_n game_state_is_you | agent_n swaps right after South's first move: both agents now play South, env_state is NORTH_TURN, and agent_n, now South, is asked to move again | the other agent also changes side, and the agent now playing North, agent_s, is asked to move | high (not executed) | Env.SwapLeavesBothSouth | Env.PieRuleSwapsBoth |
