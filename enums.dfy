/** The enumerations of kalah_python/utils/enums.py (also used by agents.py and env.py). */
module Enums {
  import opened Wrappers

  datatype Side = North | South {

    /** Side.opposite */
    function Opposite(): (r: Side)
      ensures r != this
    {
      if this == North then South else North
    }

    /** Side.store_idx: the value it returns, 0 for NORTH and 7 for SOUTH; no code of the core uses it. */
    function StoreIdx(): (r: int)
      ensures this == North ==> r == 0
      ensures this == South ==> r == 7
    {
      if this == North then 0 else 7
    }
  }

  /** The hole numbers 1..7 that a move may name. */
  type HoleIdx = i: int | 1 <= i <= 7 witness 1

  /** Action: MOVE_1ST_WELL .. MOVE_7TH_WELL (values 1..7) and SWAP (value -1). */
  datatype Action = Move(well: HoleIdx) | Swap {

    /** The enum value; SWAP is -1 in enums.py (agents.py gives it the value 's'). */
    function Value(): (r: int)
      ensures Swap? <==> r == -1
      ensures Move? ==> r == well
    {
      if Swap? then -1 else well
    }

    /** Action.__str__ */
    function ToStr(): (r: string)
      ensures Swap? ==> r == "SWAP"
      ensures Move? ==> r == "MOVE;" + [Digit(well)]
    {
      if Swap? then "SWAP" else "MOVE;" + [Digit(well)]
    }

    /** Action.to_cmd: the outbound command, __str__ followed by a newline. */
    function ToCmd(): (r: string)
      ensures r == ToStr() + "\n"
    {
      if this == Swap then "SWAP\n" else "MOVE;" + [Digit(well)] + "\n"
    }
  }

  /** The decimal digit of a value 0..9. */
  function Digit(d: int): (c: char)
    requires 0 <= d <= 9
    ensures '0' <= c <= '9' && c as int - '0' as int == d
  {
    ('0' as int + d) as char
  }

  /** Action(value=v): the member with that value, none when no member has it (ValueError). */
  function FromValue(v: int): (r: Option<Action>)
    ensures r.Some? <==> (1 <= v <= 7 || v == -1)
    ensures r.Some? ==> r.value.Value() == v
  {
    if v == -1 then Some(Swap) else if 1 <= v <= 7 then Some(Move(v)) else None
  }

  /** Action.all_actions(): every member in declaration order. */
  function AllActions(): (r: seq<Action>)
    ensures |r| == 8 && r[7] == Swap
    ensures forall k :: 0 <= k < 7 ==> r[k] == Move(k + 1)
  {
    [Move(1), Move(2), Move(3), Move(4), Move(5), Move(6), Move(7), Swap]
  }

  /** Action.move_actions(): every member but SWAP, in the same order. */
  function MoveActions(): (r: seq<Action>)
    ensures |r| == 7
    ensures forall k :: 0 <= k < 7 ==> r[k] == Move(k + 1)
    ensures forall a :: a in r <==> a in AllActions() && a != Swap
  {
    var all := AllActions();
    FilterAll();
    MovesInOrder();
    Filter(all)
  }

  /** The seven moves in hole order. */
  lemma MovesInOrder()
    ensures forall k :: 0 <= k < 7 ==> [Move(1), Move(2), Move(3), Move(4), Move(5), Move(6), Move(7)][k] == Move(k + 1)
  {
    var m := [Move(1), Move(2), Move(3), Move(4), Move(5), Move(6), Move(7)];
    forall k | 0 <= k < 7
      ensures m[k] == Move(k + 1)
    {
      if k == 0 {} else if k == 1 {} else if k == 2 {} else if k == 3 {} else if k == 4 {} else if k == 5 {} else {}
    }
  }

  /** The comprehension over all eight members, one member at a time from the end. */
  lemma FilterAll()
    ensures Filter(AllActions()) == [Move(1), Move(2), Move(3), Move(4), Move(5), Move(6), Move(7)]
  {
    var all := AllActions();
    assert Filter(all[7..]) == [];
    assert all[6..][1..] == all[7..];
    assert Filter(all[6..]) == [Move(7)];
    assert all[5..][1..] == all[6..];
    assert Filter(all[5..]) == [Move(6), Move(7)];
    assert all[4..][1..] == all[5..];
    assert Filter(all[4..]) == [Move(5), Move(6), Move(7)];
    assert all[3..][1..] == all[4..];
    assert Filter(all[3..]) == [Move(4), Move(5), Move(6), Move(7)];
    assert all[2..][1..] == all[3..];
    assert Filter(all[2..]) == [Move(3), Move(4), Move(5), Move(6), Move(7)];
    assert all[1..][1..] == all[2..];
    assert Filter(all[1..]) == [Move(2), Move(3), Move(4), Move(5), Move(6), Move(7)];
    assert all[0..] == all;
  }

  /** The list comprehension of move_actions: keep the members that are not SWAP. */
  function Filter(s: seq<Action>): (r: seq<Action>)
    ensures forall a :: a in r <==> a in s && a != Swap
    ensures |r| <= |s|
  {
    if s == [] then [] else (if s[0] == Swap then [] else [s[0]]) + Filter(s[1..])
  }

  /** The comprehension keeps order: filtering a concatenation filters each part. */
  lemma {:induction false} FilterAppend(s: seq<Action>, t: seq<Action>)
    ensures Filter(s + t) == Filter(s) + Filter(t)
  {
    if s == [] {
      assert s + t == t;
    } else {
      assert (s + t)[0] == s[0] && (s + t)[1..] == s[1..] + t;
      FilterAppend(s[1..], t);
    }
  }

  /** Side.opposite is an involution. */
  lemma OppositeInvolution(s: Side)
    ensures s.Opposite().Opposite() == s
  {
  }

  /** The enum values are pairwise distinct (@unique). */
  lemma ValuesUnique(a: Action, b: Action)
    ensures a.Value() == b.Value() ==> a == b
  {
  }

  /** The values store_idx returns for the two sides differ. */
  lemma StoreIdxDistinct(s: Side)
    ensures s.StoreIdx() != s.Opposite().StoreIdx()
  {
  }

  /** AgentState of enums.py, agents.py (Agent.State) and its ten members. */
  datatype AgentState =
    | Init | DecideOn1stMove | WaitForMoveResult | WaitFor1stMove | MakeMoveOrSwap
    | WaitForSwapDecision | DecideOnMove | WaitForGameState | Finished | Exit

  /** KalahEnvState of enums.py, EnvState of env.py. */
  datatype EnvState = EnvInit | SouthTurn | NorthTurn | GameEnds
}
