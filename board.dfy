/**
 * kalah_python/utils/board.py: two rows of eight cells, one per side; cell 0 is the
 * side's store and cells 1..7 are its holes.  The rows are a value (BoardState) for the
 * rules and the search, and two arrays updated in place (class Board) for the match.
 */
module Boards {
  import opened Wrappers
  import opened Enums
  import Text

  const HolesPerSide: int := 7
  const SeedsPerHole: int := 7
  /** Board.STATE_SIZE: the length of board_flat */
  const StateSize: int := 17

  type Row = s: seq<int> | |s| == 8 witness [0, 0, 0, 0, 0, 0, 0, 0]

  /** Board.BOARD_SIDE_INIT: an empty store and seven holes of seven seeds. */
  const InitRow: Row := [0, 7, 7, 7, 7, 7, 7, 7]

  /** The exceptions the board raises. */
  datatype BoardError =
    | HoleOutOfRange      // opposite_hole_idx: ValueError
    | MissingField        // update_board: IndexError on a short message or snapshot
    | NotAnInteger        // update_board: ValueError from int()
    | ShapeMismatch       // update_board: ValueError "shape mismatch"

  datatype BoardState = BoardState(north: Row, south: Row) {

    function Row(side: Side): Row
    {
      if side == North then north else south
    }

    function Cell(side: Side, i: int): int
      requires 0 <= i < 8
    {
      Row(side)[i]
    }

    /** Board.store */
    function Store(side: Side): int
    {
      Row(side)[0]
    }

    /** Board.holes: the seven holes of a side, without its store. */
    function Holes(side: Side): (r: seq<int>)
      ensures |r| == 7 && forall k :: 1 <= k < 8 ==> r[k - 1] == Cell(side, k)
    {
      Row(side)[1..]
    }

    /** The board with cell i of side set to v: nothing else changes. */
    function With(side: Side, i: int, v: int): (r: BoardState)
      requires 0 <= i < 8
      ensures r.Cell(side, i) == v
      ensures forall s: Side, j :: 0 <= j < 8 && (s != side || j != i) ==> r.Cell(s, j) == Cell(s, j)
    {
      if side == North then BoardState(north[i := v], south) else BoardState(north, south[i := v])
    }

    /** The board with k more seeds in cell i of side. */
    function Add(side: Side, i: int, k: int): (r: BoardState)
      requires 0 <= i < 8
      ensures r.Cell(side, i) == Cell(side, i) + k
      ensures forall s: Side, j :: 0 <= j < 8 && (s != side || j != i) ==> r.Cell(s, j) == Cell(s, j)
    {
      With(side, i, Cell(side, i) + k)
    }
  }

  /** The board after reset: empty stores and seven seeds in every hole. */
  function Initial(): (r: BoardState)
    ensures forall s: Side :: r.Store(s) == 0
    ensures forall s: Side, i :: 1 <= i < 8 ==> r.Cell(s, i) == SeedsPerHole
  {
    BoardState(InitRow, InitRow)
  }

  function Sum(s: seq<int>): int
  {
    if s == [] then 0 else Sum(s[..|s| - 1]) + s[|s| - 1]
  }

  /** The eight cells of a row, store included. */
  function RowSum(r: Row): int
  {
    r[0] + r[1] + r[2] + r[3] + r[4] + r[5] + r[6] + r[7]
  }

  /** Board.seeds: all sixteen cells; never negative when no cell is. */
  function Total(b: BoardState): (r: int)
    ensures NonNegative(b) ==> r >= 0
  {
    if NonNegative(b) then
      RowsNonNegative(b);
      RowSum(b.north) + RowSum(b.south)
    else RowSum(b.north) + RowSum(b.south)
  }

  /** Adding k seeds to one cell adds k to the total. */
  lemma AddTotal(b: BoardState, side: Side, i: int, k: int)
    requires 0 <= i < 8
    ensures Total(b.Add(side, i, k)) == Total(b) + k
  {
  }

  /** Setting one cell to v changes the total by v minus what the cell held. */
  lemma WithTotal(b: BoardState, side: Side, i: int, v: int)
    requires 0 <= i < 8
    ensures Total(b.With(side, i, v)) == Total(b) - b.Cell(side, i) + v
  {
  }

  /** A freshly reset board holds 98 seeds, and no more than that is ever Bounded. */
  lemma InitialTotal()
    ensures Total(Initial()) == 98 == 2 * HolesPerSide * SeedsPerHole
    ensures Bounded(Initial())
  {
  }

  /** No cell holds a negative number of seeds. */
  predicate NonNegative(b: BoardState)
  {
    forall s: Side, i :: 0 <= i < 8 ==> b.Cell(s, i) >= 0
  }

  /** A board the game can reach: no negative cell and no more seeds than a reset board. */
  predicate Bounded(b: BoardState)
  {
    NonNegative(b) && Total(b) <= 2 * HolesPerSide * SeedsPerHole
  }

  /** On a board without negative cells no cell exceeds the total. */
  lemma CellAtMostTotal(b: BoardState, s: Side, i: int)
    requires NonNegative(b) && 0 <= i < 8
    ensures 0 <= b.Cell(s, i) <= Total(b)
  {
    RowsNonNegative(b);
  }

  /** NonNegative, read on the two rows. */
  lemma RowsNonNegative(b: BoardState)
    requires NonNegative(b)
    ensures forall k :: 0 <= k < 8 ==> b.north[k] >= 0 && b.south[k] >= 0
  {
    forall k | 0 <= k < 8 ensures b.north[k] >= 0 && b.south[k] >= 0 {
      assert b.Cell(North, k) >= 0 && b.Cell(South, k) >= 0;
    }
  }

  lemma SumPrefix(s: seq<int>, k: int)
    requires 0 <= k < |s|
    ensures Sum(s[..k + 1]) == Sum(s[..k]) + s[k]
  {
    assert s[..k + 1][..k] == s[..k];
  }

  /** The sum of the seven holes of a side, written out. */
  lemma SumHoles(s: seq<int>)
    requires |s| == 7
    ensures Sum(s) == s[0] + s[1] + s[2] + s[3] + s[4] + s[5] + s[6]
  {
    assert s[..0] == [];
    SumPrefix(s, 0); SumPrefix(s, 1); SumPrefix(s, 2); SumPrefix(s, 3);
    SumPrefix(s, 4); SumPrefix(s, 5); SumPrefix(s, 6);
    assert s[..7] == s;
  }

  /**
   * Board.get_hoard_side_value: the seeds in the seven holes of a side, that is its row
   * without the store; with no negative cell, at most the total less that store.
   */
  function HoardSideValue(b: BoardState, side: Side): (r: int)
    ensures r == RowSum(b.Row(side)) - b.Store(side)
    ensures NonNegative(b) ==> 0 <= r <= Total(b) - b.Store(side)
  {
    SumHoles(b.Holes(side));
    if NonNegative(b) then
      RowsNonNegative(b);
      Sum(b.Holes(side))
    else Sum(b.Holes(side))
  }

  /** Board.opposite_hole_idx: the hole facing hole h across the board; ValueError outside 1..7. */
  function OppositeHoleIdx(h: int): (r: Result<int, BoardError>)
    ensures r.Ok? <==> 1 <= h <= HolesPerSide
    ensures r.Ok? ==> 1 <= r.value <= HolesPerSide && r.value == 8 - h
    ensures r.Err? ==> r.error == HoleOutOfRange
  {
    if h < 1 || h > HolesPerSide then Err(HoleOutOfRange) else Ok(HolesPerSide - h + 1)
  }

  /** Facing holes face each other: opposite_hole_idx is an involution on 1..7. */
  lemma OppositeHoleInvolution(h: int)
    requires 1 <= h <= 7
    ensures OppositeHoleIdx(OppositeHoleIdx(h).value) == Ok(h)
  {
  }

  /** Board.opposite_hole: the seeds in the hole facing hole h of side. */
  function OppositeHole(b: BoardState, h: int, side: Side): (r: Result<int, BoardError>)
    ensures r.Ok? <==> 1 <= h <= 7
    ensures r.Ok? ==> r.value == b.Cell(side.Opposite(), 8 - h)
  {
    var o :- OppositeHoleIdx(h);
    Ok(b.Cell(side.Opposite(), o))
  }

  /** The 1-based indices i..7 of the nonzero cells of a row, ascending. */
  function NonzeroFrom(row: Row, i: int): (r: seq<int>)
    requires 1 <= i <= 8
    ensures forall x :: x in r <==> i <= x < 8 && row[x] != 0
    ensures forall k :: 0 <= k < |r| ==> i <= r[k] < 8
    ensures forall p, q :: 0 <= p < q < |r| ==> r[p] < r[q]
    decreases |row| - i
  {
    if i == 8 then []
    else
      var rest := NonzeroFrom(row, i + 1);
      assert forall k :: 0 <= k < |rest| ==> rest[k] in rest;
      (if row[i] != 0 then [i] else []) + rest
  }

  /** Board.nonzero_holes: the holes of side that hold seeds, ascending; never the store. */
  function NonzeroHoles(b: BoardState, side: Side): (r: seq<int>)
    ensures forall x :: x in r <==> 1 <= x <= 7 && b.Cell(side, x) != 0
    ensures forall k :: 0 <= k < |r| ==> 1 <= r[k] <= 7
    ensures forall p, q :: 0 <= p < q < |r| ==> r[p] < r[q]
  {
    NonzeroFrom(b.Row(side), 1)
  }

  /** A side's holes are all empty exactly when nonzero_holes is empty. */
  lemma NonzeroHolesEmpty(b: BoardState, side: Side)
    ensures NonzeroHoles(b, side) == [] <==> forall i :: 1 <= i < 8 ==> b.Cell(side, i) == 0
  {
    var r := NonzeroHoles(b, side);
    if r != [] {
      assert r[0] in r;
    }
  }

  /** Board.store_offset: own store minus the opponent's store. */
  function StoreOffset(b: BoardState, side: Side): (r: int)
    ensures NonNegative(b) ==> -Total(b) <= r <= Total(b)
  {
    if NonNegative(b) then
      CellAtMostTotal(b, side, 0);
      CellAtMostTotal(b, side.Opposite(), 0);
      b.Store(side) - b.Store(side.Opposite())
    else b.Store(side) - b.Store(side.Opposite())
  }

  /** The two sides' offsets are opposite numbers. */
  lemma StoreOffsetAntisymmetric(b: BoardState, side: Side)
    ensures StoreOffset(b, side) == -StoreOffset(b, side.Opposite())
    ensures StoreOffset(b, side) == b.Cell(side, 0) - b.Cell(side.Opposite(), 0)
  {
  }

  /** Board.board_flat: the south row, then the north row, then 1 for SOUTH or 0 for NORTH. */
  function BoardFlat(b: BoardState, side: Side): (r: seq<int>)
    ensures |r| == StateSize
    ensures r[..8] == b.south && r[8..16] == b.north
    ensures r[16] == (if side == South then 1 else 0)
  {
    b.south + b.north + [if side == North then 0 else 1]
  }

  /** int() applied to every piece, or None when one of them is not an integer. */
  function ParseAll(pieces: seq<string>): (r: Option<seq<int>>)
    ensures r.Some? <==> forall k :: 0 <= k < |pieces| ==> Text.ParseInt(pieces[k]).Some?
    ensures r.Some? ==>
      |r.value| == |pieces| &&
      forall k :: 0 <= k < |pieces| ==> r.value[k] == Text.ParseInt(pieces[k]).value
  {
    if pieces == [] then Some([])
    else
      match Text.ParseInt(pieces[0])
      case None => None
      case Some(v) =>
        match ParseAll(pieces[1..])
        case None => None
        case Some(vs) => Some([v] + vs)
  }

  /** The comma-separated pieces of field 2 of a ';'-separated message (when it has one). */
  function SnapshotPieces(msg: string): seq<string>
    requires |Text.Split(msg, ';')| >= 3
  {
    Text.Split(Text.Split(msg, ';')[2], ',')
  }

  /** True when every piece of the snapshot is an integer. */
  predicate AllIntegers(pieces: seq<string>)
  {
    forall k :: 0 <= k < |pieces| ==> Text.ParseInt(pieces[k]).Some?
  }

  /**
   * The parse of Board.update_board, in the source's order of evaluation: field 2 of the
   * message (IndexError when missing), north = [b7] + b0..b6, south = [b(-1)] + b8..b(-2)
   * (IndexError when b7 is missing, ValueError from int()), then the shape test.
   */
  function ParseSnapshot(msg: string): (r: Result<BoardState, BoardError>)
    ensures r.Ok? <==>
      |Text.Split(msg, ';')| >= 3 && |SnapshotPieces(msg)| == 16 && AllIntegers(SnapshotPieces(msg))
    ensures r.Ok? ==>
      var p := SnapshotPieces(msg);
      r.value.Store(North) == Text.ParseInt(p[7]).value &&
      r.value.Store(South) == Text.ParseInt(p[15]).value &&
      forall i :: 1 <= i <= 7 ==>
        r.value.Cell(North, i) == Text.ParseInt(p[i - 1]).value &&
        r.value.Cell(South, i) == Text.ParseInt(p[i + 7]).value
  {
    var fields := Text.Split(msg, ';');
    if |fields| < 3 then Err(MissingField)
    else
      var p := Text.Split(fields[2], ',');
      if |p| < 8 then Err(MissingField)
      else
        var n7 := ParseAll([p[7]]);
        var n := ParseAll(p[..7]);
        var s15 := ParseAll([p[|p| - 1]]);
        var tail := if |p| >= 9 then p[8..|p| - 1] else [];
        var s := ParseAll(tail);
        if n7.None? || n.None? || s15.None? || s.None? then
          PartsParse(p);
          Err(NotAnInteger)
        else if |n7.value + n.value| != 8 || |s15.value + s.value| != 8 then Err(ShapeMismatch)
        else
          SnapshotOk(p, n7, n, s15, s);
          Ok(BoardState(n7.value + n.value, s15.value + s.value))
  }

  /** When all four parts parse and the rows have eight cells, every piece is a cell of the board. */
  lemma SnapshotOk(p: seq<string>, n7: Option<seq<int>>, n: Option<seq<int>>, s15: Option<seq<int>>, s: Option<seq<int>>)
    requires |p| >= 8
    requires n7 == ParseAll([p[7]]) && n == ParseAll(p[..7]) && s15 == ParseAll([p[|p| - 1]])
    requires s == ParseAll(if |p| >= 9 then p[8..|p| - 1] else [])
    requires n7.Some? && n.Some? && s15.Some? && s.Some?
    requires |n7.value + n.value| == 8 && |s15.value + s.value| == 8
    ensures |p| == 16 && AllIntegers(p)
    ensures var r := BoardState(n7.value + n.value, s15.value + s.value);
      r.Store(North) == Text.ParseInt(p[7]).value &&
      r.Store(South) == Text.ParseInt(p[15]).value &&
      forall i :: 1 <= i <= 7 ==>
        r.Cell(North, i) == Text.ParseInt(p[i - 1]).value &&
        r.Cell(South, i) == Text.ParseInt(p[i + 7]).value
  {
    SnapshotIntegers(p, n7, n, s15, s);
    SnapshotCells(p, n7, n, s15, s);
  }

  /** The four parts cover the sixteen pieces, so each of them parses. */
  lemma SnapshotIntegers(p: seq<string>, n7: Option<seq<int>>, n: Option<seq<int>>, s15: Option<seq<int>>, s: Option<seq<int>>)
    requires |p| >= 8
    requires n7 == ParseAll([p[7]]) && n == ParseAll(p[..7]) && s15 == ParseAll([p[|p| - 1]])
    requires s == ParseAll(if |p| >= 9 then p[8..|p| - 1] else [])
    requires n7.Some? && n.Some? && s15.Some? && s.Some?
    requires |n7.value + n.value| == 8 && |s15.value + s.value| == 8
    ensures |p| == 16 && AllIntegers(p)
  {
    var tail := if |p| >= 9 then p[8..|p| - 1] else [];
    assert |tail| == 7;
    forall k | 0 <= k < |p| ensures Text.ParseInt(p[k]).Some? {
      if k < 7 {
        PieceParses(p[..7], k);
        assert p[..7][k] == p[k];
      } else if k == 7 {
        PieceParses([p[7]], 0);
      } else if k < 15 {
        PieceParses(tail, k - 8);
        assert tail[k - 8] == p[k];
      } else {
        PieceParses([p[|p| - 1]], 0);
      }
    }
  }

  lemma PieceParses(pieces: seq<string>, k: int)
    requires ParseAll(pieces).Some? && 0 <= k < |pieces|
    ensures Text.ParseInt(pieces[k]).Some?
  {
  }

  /** Piece i - 1 is North's hole i, piece 7 its store, piece i + 7 South's hole i and piece 15 its store. */
  lemma SnapshotCells(p: seq<string>, n7: Option<seq<int>>, n: Option<seq<int>>, s15: Option<seq<int>>, s: Option<seq<int>>)
    requires |p| >= 8
    requires n7 == ParseAll([p[7]]) && n == ParseAll(p[..7]) && s15 == ParseAll([p[|p| - 1]])
    requires s == ParseAll(if |p| >= 9 then p[8..|p| - 1] else [])
    requires n7.Some? && n.Some? && s15.Some? && s.Some?
    requires |n7.value + n.value| == 8 && |s15.value + s.value| == 8
    requires |p| == 16 && AllIntegers(p)
    ensures var r := BoardState(n7.value + n.value, s15.value + s.value);
      r.Store(North) == Text.ParseInt(p[7]).value &&
      r.Store(South) == Text.ParseInt(p[15]).value &&
      forall i :: 1 <= i <= 7 ==>
        r.Cell(North, i) == Text.ParseInt(p[i - 1]).value &&
        r.Cell(South, i) == Text.ParseInt(p[i + 7]).value
  {
    var tail := if |p| >= 9 then p[8..|p| - 1] else [];
    var nr, sr := n7.value + n.value, s15.value + s.value;
    assert |tail| == 7;
    forall i | 1 <= i <= 7
      ensures BoardState(nr, sr).Cell(North, i) == Text.ParseInt(p[i - 1]).value
      ensures BoardState(nr, sr).Cell(South, i) == Text.ParseInt(p[i + 7]).value
    {
      assert nr[i] == n.value[i - 1] == Text.ParseInt(p[..7][i - 1]).value;
      assert p[..7][i - 1] == p[i - 1];
      assert sr[i] == s.value[i - 1] == Text.ParseInt(tail[i - 1]).value;
      assert tail[i - 1] == p[i + 7];
    }
  }

  lemma PartsParse(p: seq<string>)
    requires |p| >= 8
    ensures AllIntegers(p) ==>
      ParseAll([p[7]]).Some? && ParseAll(p[..7]).Some? && ParseAll([p[|p| - 1]]).Some? &&
      ParseAll(if |p| >= 9 then p[8..|p| - 1] else []).Some?
  {
    var head := p[..7];
    var tail := if |p| >= 9 then p[8..|p| - 1] else [];
    assert forall k :: 0 <= k < 7 ==> head[k] == p[k];
    assert forall k :: 0 <= k < |tail| ==> tail[k] == p[k + 8];
  }

  /** The board that a 16-cell server snapshot describes. */
  function FromSnapshot(cells: seq<int>): (b: BoardState)
    requires |cells| == 16
  {
    BoardState([cells[7]] + cells[..7], [cells[15]] + cells[8..15])
  }

  function Stringify(cells: seq<nat>): (r: seq<string>)
    ensures |r| == |cells| && forall k :: 0 <= k < |cells| ==> r[k] == Text.NatToString(cells[k])
  {
    if cells == [] then [] else [Text.NatToString(cells[0])] + Stringify(cells[1..])
  }

  /** The text of a CHANGE message: CHANGE;<move>;<b0,...,b15>;<rest>. */
  function ChangeMessage(move: string, cells: seq<nat>, rest: string): string
    requires |cells| == 16
  {
    "CHANGE;" + move + ";" + Text.Join(Stringify(cells), ',') + ";" + rest
  }

  /** update_board reads back exactly the snapshot that the server wrote. */
  lemma {:induction false} ParseChangeMessage(move: string, cells: seq<nat>, rest: string)
    requires |cells| == 16 && ';' !in move
    ensures ParseSnapshot(ChangeMessage(move, cells, rest)) == Ok(FromSnapshot(cells))
  {
    var strs := Stringify(cells);
    var msg := ChangeMessage(move, cells, rest);
    ChangeMessagePieces(move, cells, rest);
    forall k | 0 <= k < 16 ensures Text.ParseInt(strs[k]) == Some(cells[k] as int) {
      Text.ParseNatToString(cells[k]);
    }
    ParseIntegers(msg, cells);
  }

  /** A snapshot of sixteen integers parses into the board FromSnapshot describes. */
  lemma ParseIntegers(msg: string, cells: seq<int>)
    requires |cells| == 16 && |Text.Split(msg, ';')| >= 3 && |SnapshotPieces(msg)| == 16
    requires forall k :: 0 <= k < 16 ==> Text.ParseInt(SnapshotPieces(msg)[k]) == Some(cells[k])
    ensures ParseSnapshot(msg) == Ok(FromSnapshot(cells))
  {
    var r := ParseSnapshot(msg);
    assert r.Ok?;
    SnapshotBoard(r.value, cells);
  }

  /** A board that holds the snapshot's numbers cell by cell is the board FromSnapshot builds. */
  lemma SnapshotBoard(b: BoardState, cells: seq<int>)
    requires |cells| == 16 && b.Store(North) == cells[7] && b.Store(South) == cells[15]
    requires forall i :: 1 <= i <= 7 ==> b.Cell(North, i) == cells[i - 1] && b.Cell(South, i) == cells[i + 7]
    ensures b == FromSnapshot(cells)
  {
    var f := FromSnapshot(cells);
    forall i | 0 <= i < 8 ensures b.north[i] == f.north[i] && b.south[i] == f.south[i] {
      if i > 0 {
        assert b.Cell(North, i) == cells[i - 1];
        assert b.Cell(South, i) == cells[i + 7];
      }
    }
    assert b.north == f.north;
    assert b.south == f.south;
  }

  /** The snapshot pieces of a CHANGE message are the written numbers. */
  lemma {:induction false} ChangeMessagePieces(move: string, cells: seq<nat>, rest: string)
    requires |cells| == 16 && ';' !in move
    ensures |Text.Split(ChangeMessage(move, cells, rest), ';')| >= 3
    ensures SnapshotPieces(ChangeMessage(move, cells, rest)) == Stringify(cells)
  {
    var strs := Stringify(cells);
    forall k | 0 <= k < 16 ensures ',' !in strs[k] && ';' !in strs[k] {
      Text.ParseNatToString(cells[k]);
    }
    var snap := Text.Join(strs, ',');
    JoinAvoids(strs, ',', ';');
    var msg := ChangeMessage(move, cells, rest);
    assert msg == "CHANGE" + [';'] + (move + [';'] + (snap + [';'] + rest));
    Text.SplitAtSeparator("CHANGE", ';', move + [';'] + (snap + [';'] + rest));
    Text.SplitAtSeparator(move, ';', snap + [';'] + rest);
    Text.SplitAtSeparator(snap, ';', rest);
    assert Text.Split(msg, ';')[2] == snap;
    Text.SplitJoin(strs, ',');
  }

  lemma {:induction false} JoinAvoids(pieces: seq<string>, c: char, d: char)
    requires |pieces| >= 1 && c != d
    requires forall k :: 0 <= k < |pieces| ==> d !in pieces[k]
    ensures d !in Text.Join(pieces, c)
  {
    if |pieces| > 1 {
      JoinAvoids(pieces[1..], c, d);
    }
  }

  /** The mutable board, with np.copyto and the primitive mutators. */
  class Board {
    const north: array<int>
    const south: array<int>

    ghost predicate Valid()
    {
      north.Length == 8 && south.Length == 8 && north != south
    }

    /** The value the two arrays hold. */
    function State(): BoardState
      reads north, south
      requires Valid()
    {
      BoardState(north[..], south[..])
    }

    /** Board(): both rows initialised to BOARD_SIDE_INIT. */
    constructor ()
      ensures Valid() && fresh(north) && fresh(south)
      ensures State() == Initial()
    {
      var n := new int[8];
      var s := new int[8];
      CopyInto(n, InitRow);
      CopyInto(s, InitRow);
      north, south := n, s;
    }

    /** np.copyto(dst, src) */
    static method CopyInto(dst: array<int>, src: Row)
      requires dst.Length == 8
      modifies dst
      ensures dst[..] == src
    {
      for i := 0 to 8
        invariant dst[..i] == src[..i]
      {
        dst[i] := src[i];
      }
    }

    function Side(side: Side): array<int>
    {
      if side == Enums.North then north else south
    }

    /** Board.reset */
    method Reset()
      requires Valid()
      modifies north, south
      ensures Valid() && State() == Initial()
    {
      CopyInto(north, InitRow);
      CopyInto(south, InitRow);
    }

    /** Board.hole (index 0 reads the store). */
    function Hole(i: int, side: Side): (r: int)
      reads north, south
      requires Valid() && 0 <= i < 8
      ensures r == State().Cell(side, i)
    {
      Side(side)[i]
    }

    /** Board.store */
    function Store(side: Side): (r: int)
      reads north, south
      requires Valid()
      ensures r == State().Store(side)
    {
      Side(side)[0]
    }

    /** Board.set_hole: cell i of side becomes seeds; no other cell changes. */
    method SetHole(i: int, side: Side, seeds: int)
      requires Valid() && 0 <= i < 8
      modifies north, south
      ensures Valid() && State() == old(State()).With(side, i, seeds)
    {
      Side(side)[i] := seeds;
      assert State().north == old(State()).With(side, i, seeds).north;
    }

    /** Board.add_seeds_to_hole: cell i of side gains seeds; no other cell changes. */
    method AddSeedsToHole(i: int, side: Side, seeds: int)
      requires Valid() && 0 <= i < 8
      modifies north, south
      ensures Valid() && State() == old(State()).Add(side, i, seeds)
    {
      var a := Side(side);
      a[i] := a[i] + seeds;
      assert State().north == old(State()).Add(side, i, seeds).north;
    }

    /** Board.add_seeds_to_store: the store of side gains seeds; no other cell changes. */
    method AddSeedsToStore(side: Side, seeds: int)
      requires Valid()
      modifies north, south
      ensures Valid() && State() == old(State()).Add(side, 0, seeds)
    {
      var a := Side(side);
      a[0] := a[0] + seeds;
      assert State().north == old(State()).Add(side, 0, seeds).north;
    }

    /** Board.get_hoard_side_value: the loop that adds up the holes of a side. */
    method GetHoardSideValue(side: Side) returns (value: int)
      requires Valid()
      ensures value == HoardSideValue(State(), side)
    {
      var a := Side(side);
      value := 0;
      for k := 1 to 8
        invariant value == Sum(a[1..k])
      {
        assert a[1..k + 1][..k - 1] == a[1..k];
        value := value + a[k];
      }
      assert a[1..8] == State().Holes(side);
    }

    /**
     * Board.update_board: parse the snapshot, then copy it into both rows; a message that
     * does not parse raises before anything is copied.
     */
    method UpdateBoard(msg: string) returns (r: Outcome<BoardError>)
      requires Valid()
      modifies north, south
      ensures Valid()
      ensures ParseSnapshot(msg).Ok? ==> r == Pass && State() == ParseSnapshot(msg).value
      ensures ParseSnapshot(msg).Err? ==>
        r == Fail(ParseSnapshot(msg).error) && State() == old(State())
    {
      var parsed := ParseSnapshot(msg);
      if parsed.Err? {
        return Fail(parsed.error);
      }
      CopyInto(north, parsed.value.north);
      CopyInto(south, parsed.value.south);
      r := Pass;
    }
  }
}
