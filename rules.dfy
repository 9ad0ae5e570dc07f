/**
 * The board effect of one move, shared by KalahEnv.execute_action (env.py:171-252) and
 * simulate_move (agents.py:301-446): empty the source hole, sow the full laps, sow the
 * remainder one seed at a time around the 15-pit ring (the opponent's store is skipped),
 * capture, and sweep the remaining seeds when one side has run out.  The two callers differ
 * only in whose turn comes next; both turn rules are at the end of this module.
 */
module Rules {
  import opened Wrappers
  import opened Enums
  import opened Boards

  /** 2 * HOLES_PER_SIDE + 1: the pits a sown seed can land in. */
  const ReceivingPits: int := 15

  /** A cell of the board: a side and an index, 0 for the store. */
  datatype Pos = Pos(side: Side, idx: int)

  predicate ValidPos(p: Pos) { 0 <= p.idx < 8 }

  /**
   * The pits in sowing order as seen by the mover: its holes 1..7 are ring indices 0..6,
   * its store is 7 and the opponent's holes 1..7 are 8..14.
   */
  function RingCell(mover: Side, q: int): (p: Pos)
    requires 0 <= q < ReceivingPits
    ensures ValidPos(p) && p != Pos(mover.Opposite(), 0)
  {
    if q < 7 then Pos(mover, q + 1) else if q == 7 then Pos(mover, 0) else Pos(mover.Opposite(), q - 7)
  }

  /** The ring index of a cell other than the opponent's store. */
  function RingIndex(mover: Side, p: Pos): (q: int)
    requires ValidPos(p) && p != Pos(mover.Opposite(), 0)
    ensures 0 <= q < ReceivingPits && RingCell(mover, q) == p
  {
    if p.side == mover then (if p.idx == 0 then 7 else p.idx - 1) else p.idx + 7
  }

  lemma RingIndexOfCell(mover: Side, q: int)
    requires 0 <= q < ReceivingPits
    ensures RingIndex(mover, RingCell(mover, q)) == q
  {
  }

  /** The ring index j pits after c. */
  function Advance(c: int, j: int): (q: int)
    requires 0 <= c < ReceivingPits && 0 <= j < ReceivingPits
    ensures 0 <= q < ReceivingPits
  {
    if c + j < ReceivingPits then c + j else c + j - ReceivingPits
  }

  /** Advancing around the ring is addition modulo 15. */
  lemma AdvanceIsModular(c: int, j: int)
    requires 0 <= c < ReceivingPits && 0 <= j < ReceivingPits
    ensures Advance(c, j) == (c + j) % ReceivingPits
  {
  }

  /** How many pits after c the ring index q comes. */
  function Offset(c: int, q: int): (j: int)
    requires 0 <= c < ReceivingPits && 0 <= q < ReceivingPits
    ensures 0 <= j < ReceivingPits && Advance(c, j) == q
  {
    if q >= c then q - c else q - c + ReceivingPits
  }

  // ---------------------------------------------------------------- full laps

  /** The lap loop: holes 1..k of both sides gain laps seeds each. */
  function LapHoles(b: BoardState, mover: Side, laps: int, k: int): BoardState
    requires 0 <= k <= 7
  {
    if k == 0 then b
    else LapHoles(b, mover, laps, k - 1).Add(mover, k, laps).Add(mover.Opposite(), k, laps)
  }

  /** Full laps: every hole of both sides and the mover's store gain laps seeds. */
  function SowLaps(b: BoardState, mover: Side, laps: int): (r: BoardState)
    ensures r.Store(mover) == b.Store(mover) + laps
    ensures r.Store(mover.Opposite()) == b.Store(mover.Opposite())
  {
    LapHolesCell(b, mover, laps, 7, mover, 0);
    LapHolesCell(b, mover, laps, 7, mover.Opposite(), 0);
    LapHoles(b, mover, laps, 7).Add(mover, 0, laps)
  }

  lemma {:induction false} LapHolesCell(b: BoardState, mover: Side, laps: int, k: int, s: Side, i: int)
    requires 0 <= k <= 7 && 0 <= i < 8
    ensures LapHoles(b, mover, laps, k).Cell(s, i) == b.Cell(s, i) + (if 1 <= i <= k then laps else 0)
  {
    if k > 0 {
      var c := LapHoles(b, mover, laps, k - 1);
      LapHolesCell(b, mover, laps, k - 1, s, i);
      var c1 := c.Add(mover, k, laps);
      assert c1.Cell(s, i) == c.Cell(s, i) + (if s == mover && i == k then laps else 0);
      assert c1.Add(mover.Opposite(), k, laps).Cell(s, i) ==
        c1.Cell(s, i) + (if s == mover.Opposite() && i == k then laps else 0);
    }
  }

  lemma {:induction false} LapHolesTotal(b: BoardState, mover: Side, laps: int, k: int)
    requires 0 <= k <= 7
    ensures Total(LapHoles(b, mover, laps, k)) == Total(b) + 2 * k * laps
  {
    if k > 0 {
      var c := LapHoles(b, mover, laps, k - 1);
      LapHolesTotal(b, mover, laps, k - 1);
      AddTotal(c, mover, k, laps);
      AddTotal(c.Add(mover, k, laps), mover.Opposite(), k, laps);
      LapsStep(k, laps);
    }
  }

  lemma LapsStep(k: int, laps: int)
    ensures 2 * k * laps == 2 * (k - 1) * laps + 2 * laps
  {
  }

  /** Lap correctness: laps seeds land in each of the 14 holes and in the mover's store. */
  lemma SowLapsCell(b: BoardState, mover: Side, laps: int, s: Side, i: int)
    requires 0 <= i < 8
    ensures SowLaps(b, mover, laps).Cell(s, i) ==
      b.Cell(s, i) + (if i != 0 || s == mover then laps else 0)
    ensures Total(SowLaps(b, mover, laps)) == Total(b) + ReceivingPits * laps
  {
    LapHolesCell(b, mover, laps, 7, s, i);
    LapHolesTotal(b, mover, laps, 7);
    AddTotal(LapHoles(b, mover, laps, 7), mover, 0, laps);
  }

  // ---------------------------------------------------------------- remainder

  /** The remainder loop: seed j (1..k) lands j pits after the cursor c. */
  function Scatter(b: BoardState, mover: Side, c: int, k: int): (r: BoardState)
    requires 0 <= c < ReceivingPits && 0 <= k < ReceivingPits
    ensures r.Store(mover.Opposite()) == b.Store(mover.Opposite())
  {
    if k == 0 then b
    else
      var p := RingCell(mover, Advance(c, k));
      Scatter(b, mover, c, k - 1).Add(p.side, p.idx, 1)
  }

  /** Every remainder seed adds one to the total. */
  lemma {:induction false} ScatterTotal(b: BoardState, mover: Side, c: int, k: int)
    requires 0 <= c < ReceivingPits && 0 <= k < ReceivingPits
    ensures Total(Scatter(b, mover, c, k)) == Total(b) + k
  {
    if k > 0 {
      ScatterTotal(b, mover, c, k - 1);
      var p := RingCell(mover, Advance(c, k));
      AddTotal(Scatter(b, mover, c, k - 1), p.side, p.idx, 1);
    }
  }

  /** Whether cell p receives one of the k seeds sown after the cursor c. */
  predicate Receives(mover: Side, c: int, k: int, p: Pos)
    requires 0 <= c < ReceivingPits && ValidPos(p)
  {
    p != Pos(mover.Opposite(), 0) && 1 <= Offset(c, RingIndex(mover, p)) <= k
  }

  /** The remainder seeds land, one each, in the k pits that follow the cursor. */
  lemma {:induction false} ScatterCell(b: BoardState, mover: Side, c: int, k: int, s: Side, i: int)
    requires 0 <= c < ReceivingPits && 0 <= k < ReceivingPits && 0 <= i < 8
    ensures Scatter(b, mover, c, k).Cell(s, i) ==
      b.Cell(s, i) + (if Receives(mover, c, k, Pos(s, i)) then 1 else 0)
  {
    if k > 0 {
      ScatterCell(b, mover, c, k - 1, s, i);
      ReceivesStep(mover, c, k, Pos(s, i));
      var p := RingCell(mover, Advance(c, k));
      var prev := Scatter(b, mover, c, k - 1);
      assert Scatter(b, mover, c, k) == prev.Add(p.side, p.idx, 1);
      if s == p.side && i == p.idx {
        assert Scatter(b, mover, c, k).Cell(s, i) == prev.Cell(s, i) + 1;
      } else {
        assert Scatter(b, mover, c, k).Cell(s, i) == prev.Cell(s, i);
      }
    }
  }

  /** Seed k of the remainder goes to the pit k after the cursor, and to no other. */
  lemma ReceivesStep(mover: Side, c: int, k: int, p: Pos)
    requires 0 <= c < ReceivingPits && 0 < k < ReceivingPits && ValidPos(p)
    ensures Receives(mover, c, k, p) <==> Receives(mover, c, k - 1, p) || p == RingCell(mover, Advance(c, k))
    ensures p == RingCell(mover, Advance(c, k)) ==> !Receives(mover, c, k - 1, p)
  {
    var q := Advance(c, k);
    RingIndexOfCell(mover, q);
    if p != Pos(mover.Opposite(), 0) {
      var r := RingIndex(mover, p);
      assert p == RingCell(mover, q) <==> r == q;
      assert r == q <==> Offset(c, r) == k;
    }
  }

  // ---------------------------------------------------------------- one move

  /**
   * Where the remainder starts.  The lap loop reuses the variable `hole`
   * (env.py:197, agents.py:329), so after one or more full laps the remainder is sown
   * from after hole 7, that is starting with the mover's store, not after the source hole.
   */
  function StartHole(h: HoleIdx, laps: int): (r: HoleIdx)
    ensures forall m: Side :: RingCell(m, Advance(r - 1, 1)) == if laps != 0 then Pos(m, 0) else RingCell(m, h)
  {
    if laps != 0 then 7 else h
  }

  /** The board right after sowing from hole h, before capture, and the last cursor. */
  datatype Sown = Sown(board: BoardState, seeds: int, laps: int, rem: int, last: int)

  function Sow(b: BoardState, mover: Side, h: HoleIdx): (r: Sown)
    ensures 0 <= r.rem < ReceivingPits && 0 <= r.last < ReceivingPits
    ensures r.seeds == b.Cell(mover, h) && r.seeds == ReceivingPits * r.laps + r.rem
  {
    var seeds := b.Cell(mover, h);
    var emptied := b.With(mover, h, 0);
    var laps := seeds / ReceivingPits;
    var rem := seeds % ReceivingPits;
    var lapped := if laps != 0 then SowLaps(emptied, mover, laps) else emptied;
    var c := StartHole(h, laps) - 1;
    Sown(Scatter(lapped, mover, c, rem), seeds, laps, rem, Advance(c, rem))
  }

  /** Sow in its three steps: empty the hole, sow the full laps, then scatter the rest. */
  lemma SowSteps(b: BoardState, mover: Side, h: HoleIdx, emptied: BoardState, lapped: BoardState, start: HoleIdx)
    requires emptied == b.With(mover, h, 0)
    requires lapped == if b.Cell(mover, h) / ReceivingPits != 0
      then SowLaps(emptied, mover, b.Cell(mover, h) / ReceivingPits) else emptied
    requires start == StartHole(h, b.Cell(mover, h) / ReceivingPits)
    ensures Sow(b, mover, h).board == Scatter(lapped, mover, start - 1, b.Cell(mover, h) % ReceivingPits)
    ensures LastPos(Sow(b, mover, h), mover) == RingCell(mover, Advance(start - 1, b.Cell(mover, h) % ReceivingPits))
    ensures Sow(b, mover, h).laps == b.Cell(mover, h) / ReceivingPits
    ensures Sow(b, mover, h).rem == b.Cell(mover, h) % ReceivingPits
  {
  }

  /** Sowing moves seeds and never creates or destroys one. */
  lemma SowConserves(b: BoardState, mover: Side, h: HoleIdx)
    ensures Total(Sow(b, mover, h).board) == Total(b)
  {
    var seeds := b.Cell(mover, h);
    var emptied := b.With(mover, h, 0);
    WithTotal(b, mover, h, 0);
    var laps := seeds / ReceivingPits;
    if laps != 0 {
      SowLapsCell(emptied, mover, laps, mover, 0);
    }
    var lapped := if laps != 0 then SowLaps(emptied, mover, laps) else emptied;
    ScatterTotal(lapped, mover, StartHole(h, laps) - 1, seeds % ReceivingPits);
  }

  /**
   * Sowing, cell by cell: the source hole is emptied, every hole and the mover's store
   * gain seeds div 15, and the seeds mod 15 left over land one each in the pits after the
   * start hole; the opponent's store never receives a seed.
   */
  lemma SowCell(b: BoardState, mover: Side, h: HoleIdx, s: Side, i: int)
    requires 0 <= i < 8
    ensures var r := Sow(b, mover, h);
      r.board.Cell(s, i) ==
        (if s == mover && i == h then 0 else b.Cell(s, i))
        + (if i != 0 || s == mover then r.laps else 0)
        + (if Receives(mover, StartHole(h, r.laps) - 1, r.rem, Pos(s, i)) then 1 else 0)
  {
    var seeds := b.Cell(mover, h);
    var emptied := b.With(mover, h, 0);
    var laps := seeds / ReceivingPits;
    var rem := seeds % ReceivingPits;
    var lapped := if laps != 0 then SowLaps(emptied, mover, laps) else emptied;
    var c := StartHole(h, laps) - 1;
    SowSteps(b, mover, h, emptied, lapped, StartHole(h, laps));
    LappedCell(b, mover, h, laps, lapped, s, i);
    ScatterCell(lapped, mover, c, rem, s, i);
  }

  /** After emptying the hole and sowing the full laps, cell by cell. */
  lemma LappedCell(b: BoardState, mover: Side, h: HoleIdx, laps: int, lapped: BoardState, s: Side, i: int)
    requires 0 <= i < 8
    requires lapped == if laps != 0 then SowLaps(b.With(mover, h, 0), mover, laps) else b.With(mover, h, 0)
    ensures lapped.Cell(s, i) ==
      (if s == mover && i == h then 0 else b.Cell(s, i)) + (if i != 0 || s == mover then laps else 0)
  {
    if laps != 0 {
      SowLapsCell(b.With(mover, h, 0), mover, laps, s, i);
    }
  }

  /** The opponent's store never receives a seed of the sowing. */
  lemma SowSkipsOpponentStore(b: BoardState, mover: Side, h: HoleIdx)
    ensures Sow(b, mover, h).board.Store(mover.Opposite()) == b.Store(mover.Opposite())
  {
    SowCell(b, mover, h, mover.Opposite(), 0);
  }

  /** The cell the last seed went to (the start hole itself when nothing was left over). */
  function LastPos(r: Sown, mover: Side): Pos
    requires 0 <= r.last < ReceivingPits
  {
    RingCell(mover, r.last)
  }

  /**
   * The capture test of env.py:220-223: the last seed landed in one of the mover's holes,
   * that hole now holds exactly one seed and the facing hole is not empty.
   */
  predicate CaptureApplies(b: BoardState, mover: Side, last: Pos)
    requires ValidPos(last)
    ensures CaptureApplies(b, mover, last) <==>
      last.side == mover && last.idx > 0 && b.Cell(mover, last.idx) == 1 &&
      OppositeHole(b, last.idx, last.side).Ok? && OppositeHole(b, last.idx, last.side).value > 0
  {
    last.side == mover && last.idx > 0 && b.Cell(mover, last.idx) == 1
    && b.Cell(mover.Opposite(), 8 - last.idx) > 0
  }

  /**
   * Capture as the source writes it (env.py:224-227): the store gains 1 + the facing hole,
   * the landing hole is emptied, and then set_hole(sow_hole, side.opposite(), 0) empties the
   * opponent's hole with the SAME number, not the facing hole 8 - sow_hole.
   */
  function CaptureAsWritten(b: BoardState, mover: Side, i: int): (r: BoardState)
    requires 1 <= i <= 7
    ensures r.Store(mover) == b.Store(mover) + 1 + b.Cell(mover.Opposite(), 8 - i)
    ensures r.Cell(mover, i) == 0 && r.Cell(mover.Opposite(), i) == 0
    ensures i != 4 ==> r.Cell(mover.Opposite(), 8 - i) == b.Cell(mover.Opposite(), 8 - i)
  {
    b.Add(mover, 0, 1 + b.Cell(mover.Opposite(), 8 - i)).With(mover, i, 0).With(mover.Opposite(), i, 0)
  }

  /** The capture the rules call for: both the landing hole and the facing hole are emptied. */
  function Capture(b: BoardState, mover: Side, i: int): (r: BoardState)
    requires 1 <= i <= 7
    ensures r.Cell(mover, i) == 0 && r.Cell(mover.Opposite(), 8 - i) == 0
    ensures r.Store(mover) == b.Store(mover) + 1 + b.Cell(mover.Opposite(), 8 - i)
  {
    var o := b.Cell(mover.Opposite(), 8 - i);
    b.Add(mover, 0, 1 + o).With(mover, i, 0).With(mover.Opposite(), 8 - i, 0)
  }

  /** The corrected capture moves the two captured holes into the store and nothing else. */
  lemma CaptureConserves(b: BoardState, mover: Side, i: int)
    requires 1 <= i <= 7 && b.Cell(mover, i) == 1
    ensures Total(Capture(b, mover, i)) == Total(b)
    ensures forall s: Side, j ::
      0 <= j < 8 && Pos(s, j) !in {Pos(mover, 0), Pos(mover, i), Pos(mover.Opposite(), 8 - i)} ==>
        Capture(b, mover, i).Cell(s, j) == b.Cell(s, j)
  {
    var o := b.Cell(mover.Opposite(), 8 - i);
    var b1 := b.Add(mover, 0, 1 + o);
    AddTotal(b, mover, 0, 1 + o);
    WithTotal(b1, mover, i, 0);
    WithTotal(b1.With(mover, i, 0), mover.Opposite(), 8 - i, 0);
  }

  /** A board on which the capture of the source creates seeds: 98 before, 102 after. */
  function FindingBoard(): BoardState
  {
    BoardState([17, 7, 3, 7, 7, 7, 7, 7], [0, 1, 0, 7, 7, 7, 7, 7])
  }

  /** South sows the single seed of its hole 1 into its empty hole 2, facing North's hole 6. */
  lemma FindingSow(b: BoardState)
    requires b == FindingBoard()
    ensures Sow(b, South, 1).board == BoardState([17, 7, 3, 7, 7, 7, 7, 7], [0, 0, 1, 7, 7, 7, 7, 7])
    ensures LastPos(Sow(b, South, 1), South) == Pos(South, 2)
  {
    var e := b.With(South, 1, 0);
    assert e == BoardState([17, 7, 3, 7, 7, 7, 7, 7], [0, 0, 0, 7, 7, 7, 7, 7]);
    assert b.Cell(South, 1) == 1;
    SowSteps(b, South, 1, e, e, 1);
    ScatterFrom(e, South, 0, 1, e, BoardState([17, 7, 3, 7, 7, 7, 7, 7], [0, 0, 1, 7, 7, 7, 7, 7]));
  }

  /**
   * South sows hole 1 of FindingBoard and captures.  The source adds 8 to South's store but
   * empties North's hole 2 (3 seeds) and leaves North's hole 6 (7 seeds) full, so the board
   * ends with 4 seeds more than it started; the corrected capture keeps the 98.
   */
  lemma CaptureAsWrittenBreaksConservation(b: BoardState)
    requires b == FindingBoard()
    ensures Total(b) == 98
    ensures CaptureApplies(Sow(b, South, 1).board, South, LastPos(Sow(b, South, 1), South))
    ensures Total(CaptureAsWritten(Sow(b, South, 1).board, South, 2)) == 102
    ensures Total(Capture(Sow(b, South, 1).board, South, 2)) == 98
  {
    FindingSow(b);
    var sb := BoardState([17, 7, 3, 7, 7, 7, 7, 7], [0, 0, 1, 7, 7, 7, 7, 7]);
    assert Total(sb) == 98 && sb.Cell(North, 6) == 7 && sb.Cell(North, 2) == 3;
    var b1 := sb.Add(South, 0, 8);
    AddTotal(sb, South, 0, 8);
    WithTotal(b1, South, 2, 0);
    WithTotal(b1.With(South, 2, 0), North, 2, 0);
    WithTotal(b1.With(South, 2, 0), North, 6, 0);
  }

  /** The holes 1..k of side emptied by the sweep loop (env.py:239-241). */
  function ZeroHoles(b: BoardState, side: Side, k: int): BoardState
    requires 0 <= k <= 7
  {
    if k == 0 then b else ZeroHoles(b, side, k - 1).With(side, k, 0)
  }

  /** The sweep: a side's remaining seeds go into that side's own store. */
  function Collect(b: BoardState, side: Side): (r: BoardState)
    ensures r.Store(side) == b.Store(side) + HoardSideValue(b, side)
    ensures Total(r) == Total(b)
  {
    ZeroHolesCell(b, side, 7, side, 0);
    assert b.Holes(side)[..7] == b.Holes(side);
    AddTotal(ZeroHoles(b, side, 7), side, 0, HoardSideValue(b, side));
    ZeroHoles(b, side, 7).Add(side, 0, HoardSideValue(b, side))
  }

  lemma {:induction false} ZeroHolesCell(b: BoardState, side: Side, k: int, s: Side, i: int)
    requires 0 <= k <= 7 && 0 <= i < 8
    ensures ZeroHoles(b, side, k).Cell(s, i) == if s == side && 1 <= i <= k then 0 else b.Cell(s, i)
    ensures Total(ZeroHoles(b, side, k)) == Total(b) - Sum(b.Holes(side)[..k])
  {
    if k > 0 {
      ZeroHolesCell(b, side, k - 1, s, i);
      ZeroHolesCell(b, side, k - 1, side, k);
      WithTotal(ZeroHoles(b, side, k - 1), side, k, 0);
      assert b.Holes(side)[..k][..k - 1] == b.Holes(side)[..k - 1];
    }
  }

  /** The sweep empties every hole of side, fills its store and keeps the total. */
  lemma CollectCell(b: BoardState, side: Side, s: Side, i: int)
    requires 0 <= i < 8
    ensures Collect(b, side).Cell(s, i) ==
      if s != side then b.Cell(s, i) else if i == 0 then b.Store(side) + HoardSideValue(b, side) else 0
    ensures Total(Collect(b, side)) == Total(b)
  {
    ZeroHolesCell(b, side, 7, s, i);
    ZeroHolesCell(b, side, 7, side, 0);
    assert b.Holes(side)[..7] == b.Holes(side);
    AddTotal(ZeroHoles(b, side, 7), side, 0, HoardSideValue(b, side));
  }

  /** The side whose holes are all empty, mover first (env.py:230-234). */
  function FinishedSide(b: BoardState, mover: Side): (r: Option<Side>)
    ensures r == Some(mover) <==> HolesEmpty(b, mover)
    ensures r == Some(mover.Opposite()) <==> !HolesEmpty(b, mover) && HolesEmpty(b, mover.Opposite())
  {
    NonzeroHolesEmpty(b, mover);
    NonzeroHolesEmpty(b, mover.Opposite());
    if NonzeroHoles(b, mover) == [] then Some(mover)
    else if NonzeroHoles(b, mover.Opposite()) == [] then Some(mover.Opposite())
    else None
  }

  /** Every hole of side is empty (its store may hold seeds). */
  predicate HolesEmpty(b: BoardState, side: Side)
  {
    forall i :: 1 <= i < 8 ==> b.Cell(side, i) == 0
  }

  /** What one move does to the board. */
  datatype Played = Played(board: BoardState, captured: bool, lastInStore: bool, ended: bool)

  /** Whether the last seed of r captures. */
  predicate Captures(r: Sown, mover: Side)
    requires 0 <= r.last < ReceivingPits
  {
    CaptureApplies(r.board, mover, LastPos(r, mover))
  }

  /** The board after sowing hole h and capturing, before the end-of-game check. */
  function AfterCapture(b: BoardState, mover: Side, h: HoleIdx): BoardState
  {
    var r := Sow(b, mover, h);
    if Captures(r, mover) then Capture(r.board, mover, LastPos(r, mover).idx) else r.board
  }

  /** The board effect of sowing hole h for mover (with the corrected capture). */
  function Apply(b: BoardState, mover: Side, h: HoleIdx): (o: Played)
    ensures o.lastInStore ==> !o.captured
    ensures !o.ended ==> o.board == AfterCapture(b, mover, h)
  {
    var r := Sow(b, mover, h);
    var b4 := AfterCapture(b, mover, h);
    var finished := FinishedSide(b4, mover);
    var b5 := if finished.Some? then Collect(b4, finished.value.Opposite()) else b4;
    Played(b5, Captures(r, mover), r.rem > 0 && r.last == 7, finished.Some?)
  }

  /** Seed conservation: a move never changes the number of seeds on the board. */
  lemma ApplyConserves(b: BoardState, mover: Side, h: HoleIdx)
    ensures Total(Apply(b, mover, h).board) == Total(b)
  {
    var r := Sow(b, mover, h);
    SowConserves(b, mover, h);
    if Captures(r, mover) {
      CaptureConserves(r.board, mover, LastPos(r, mover).idx);
    }
    var b4 := AfterCapture(b, mover, h);
    var finished := FinishedSide(b4, mover);
    if finished.Some? {
      CollectCell(b4, finished.value.Opposite(), mover, 0);
    }
  }

  /** Sowing and capturing leave no cell negative and keep the total. */
  lemma AfterCaptureNonNegative(b: BoardState, mover: Side, h: HoleIdx)
    requires NonNegative(b)
    ensures NonNegative(Sow(b, mover, h).board) && Total(Sow(b, mover, h).board) == Total(b)
    ensures NonNegative(AfterCapture(b, mover, h)) && Total(AfterCapture(b, mover, h)) == Total(b)
  {
    var r := Sow(b, mover, h);
    SowConserves(b, mover, h);
    assert b.Cell(mover, h) >= 0;
    forall s: Side, i | 0 <= i < 8 ensures r.board.Cell(s, i) >= 0 {
      SowCell(b, mover, h, s, i);
    }
    if Captures(r, mover) {
      CaptureConserves(r.board, mover, LastPos(r, mover).idx);
    }
  }

  /** A move leaves no cell negative: with the conservation of seeds, it keeps a board Bounded. */
  lemma ApplyNonNegative(b: BoardState, mover: Side, h: HoleIdx)
    requires NonNegative(b)
    ensures NonNegative(Apply(b, mover, h).board)
    ensures Bounded(b) ==> Bounded(Apply(b, mover, h).board)
  {
    AfterCaptureNonNegative(b, mover, h);
    ApplyConserves(b, mover, h);
    var b4 := AfterCapture(b, mover, h);
    var finished := FinishedSide(b4, mover);
    if finished.Some? {
      CollectNonNegative(b4, finished.value.Opposite());
    }
  }

  /** The sweep of a board without negative cells leaves none. */
  lemma CollectNonNegative(b: BoardState, side: Side)
    requires NonNegative(b)
    ensures NonNegative(Collect(b, side))
  {
    var hoard := HoardSideValue(b, side);
    assert b.Cell(side, 0) >= 0 && hoard >= 0;
    forall s: Side, i | 0 <= i < 8 ensures Collect(b, side).Cell(s, i) >= 0 {
      CollectCell(b, side, s, i);
    }
  }

  /** Sweeping one side when the other has no seed in its holes leaves every hole empty. */
  lemma CollectEmptiesBoth(b: BoardState, side: Side)
    requires HolesEmpty(b, side.Opposite())
    ensures forall s: Side, i :: 1 <= i < 8 ==> Collect(b, side).Cell(s, i) == 0
  {
    forall s: Side, i | 1 <= i < 8 ensures Collect(b, side).Cell(s, i) == 0 {
      CollectCell(b, side, s, i);
    }
  }

  /**
   * The end of the game: the move ends the game exactly when it leaves every hole of both
   * sides empty, the remaining side's seeds having been swept into its store.
   */
  lemma ApplyEnds(b: BoardState, mover: Side, h: HoleIdx)
    ensures var o := Apply(b, mover, h);
      o.ended <==> forall s: Side, i :: 1 <= i < 8 ==> o.board.Cell(s, i) == 0
  {
    var b4 := AfterCapture(b, mover, h);
    var finished := FinishedSide(b4, mover);
    var o := Apply(b, mover, h);
    if finished.Some? {
      assert o.board == Collect(b4, finished.value.Opposite());
      CollectEmptiesBoth(b4, finished.value.Opposite());
    } else {
      assert o.board == b4;
      var i :| 1 <= i < 8 && b4.Cell(mover, i) != 0;
      assert o.board.Cell(mover, i) != 0;
    }
  }

  /** When the game ends each side keeps its own seeds: a store gains exactly its side's holes. */
  lemma ApplyEndsSweep(b: BoardState, mover: Side, h: HoleIdx, s: Side)
    ensures var b4 := AfterCapture(b, mover, h);
      Apply(b, mover, h).ended ==>
        Apply(b, mover, h).board.Store(s) == b4.Store(s) + HoardSideValue(b4, s)
  {
    var b4 := AfterCapture(b, mover, h);
    var finished := FinishedSide(b4, mover);
    if finished.Some? {
      var f := finished.value;
      assert Apply(b, mover, h).board == Collect(b4, f.Opposite());
      if s == f {
        CollectCell(b4, f.Opposite(), s, 0);
        HoardZero(b4, f);
      }
    }
  }

  /** A side whose holes are all empty has nothing to sweep. */
  lemma HoardZero(b: BoardState, side: Side)
    requires HolesEmpty(b, side)
    ensures HoardSideValue(b, side) == 0
  {
    var h := b.Holes(side);
    assert forall k :: 0 <= k < 7 ==> h[k] == b.Cell(side, k + 1) == 0;
    SumHoles(h);
  }

  /**
   * Capture, stated on the whole move: when the last seed lands in one of the mover's holes
   * that now holds one seed and faces a nonempty hole, both holes are emptied and the
   * mover's store gains 1 + the facing seeds; the game end may then sweep the rest.
   */
  lemma ApplyCaptures(b: BoardState, mover: Side, h: HoleIdx)
    ensures var r := Sow(b, mover, h);
      Apply(b, mover, h).captured <==> CaptureApplies(r.board, mover, LastPos(r, mover))
    ensures var r := Sow(b, mover, h);
      var i := LastPos(r, mover).idx;
      var b4 := AfterCapture(b, mover, h);
      Apply(b, mover, h).captured ==>
        b4.Cell(mover, i) == 0 && b4.Cell(mover.Opposite(), 8 - i) == 0 &&
        b4.Store(mover) == r.board.Store(mover) + 1 + r.board.Cell(mover.Opposite(), 8 - i)
  {
  }

  // ---------------------------------------------------------------- turn rules

  /** KalahEnv.execute_action: SWAP leaves the board and gives NORTH_TURN; a move always hands over. */
  function EnvStep(b: BoardState, mover: Side, a: Action): (r: (BoardState, EnvState))
    ensures a == Swap ==> r == (b, NorthTurn)
    ensures a.Move? ==> r.0 == Apply(b, mover, a.well).board
    ensures a.Move? ==> (r.1 == GameEnds <==> Apply(b, mover, a.well).ended)
    ensures a.Move? && r.1 != GameEnds ==> r.1 == (if mover == South then NorthTurn else SouthTurn)
  {
    match a
    case Swap => (b, NorthTurn)
    case Move(h) =>
      var o := Apply(b, mover, h);
      if o.ended then (o.board, GameEnds)
      else if mover == South then (o.board, NorthTurn) else (o.board, SouthTurn)
  }

  /**
   * simulate_move: the player keeps the turn after a capture or a last seed in its own
   * store, also when the game ends; SWAP leaves the board and the player as they are,
   * because (SOUTH, NORTH)[player == NORTH] is the player itself (agents.py:316).
   */
  function SimulateStep(b: BoardState, player: Side, a: Action): (r: (BoardState, Side))
    ensures a == Swap ==> r == (b, player)
    ensures a.Move? ==> r.0 == Apply(b, player, a.well).board
    ensures a.Move? ==> (r.1 == player <==>
      Apply(b, player, a.well).ended || Apply(b, player, a.well).captured || Apply(b, player, a.well).lastInStore)
  {
    match a
    case Swap => (b, if player == North then North else South)
    case Move(h) =>
      var o := Apply(b, player, h);
      if o.ended || o.captured || o.lastInStore then (o.board, player) else (o.board, player.Opposite())
  }

  /** Both turn rules move seeds without creating any. */
  lemma StepsConserve(b: BoardState, mover: Side, a: Action)
    ensures Total(EnvStep(b, mover, a).0) == Total(b)
    ensures Total(SimulateStep(b, mover, a).0) == Total(b)
  {
    if a.Move? {
      ApplyConserves(b, mover, a.well);
    }
  }

  /** Both turn rules keep a board Bounded. */
  lemma StepsBounded(b: BoardState, mover: Side, a: Action)
    requires Bounded(b)
    ensures Bounded(EnvStep(b, mover, a).0) && Bounded(SimulateStep(b, mover, a).0)
  {
    if a.Move? {
      ApplyNonNegative(b, mover, a.well);
    }
  }

  /** A side with a seed in some hole has not finished; FinishedSide tests the mover first. */
  lemma FinishedSideNone(b: BoardState, mover: Side, i: int, j: int)
    requires 1 <= i < 8 && 1 <= j < 8 && b.Cell(mover, i) != 0 && b.Cell(mover.Opposite(), j) != 0
    ensures FinishedSide(b, mover) == None
  {
    NonzeroHolesEmpty(b, mover);
    NonzeroHolesEmpty(b, mover.Opposite());
  }

  /** A move that neither captures nor empties a side is just the sowing. */
  lemma ApplyQuiet(b: BoardState, mover: Side, h: HoleIdx, r: Sown)
    requires Sow(b, mover, h) == r && !Captures(r, mover) && FinishedSide(r.board, mover) == None
    ensures Apply(b, mover, h) == Played(r.board, false, r.rem > 0 && r.last == 7, false)
  {
  }

  /** South sows the seven seeds of hole 1 of the reset board into holes 2..7 and its store. */
  lemma SowOpeningHoleOne(b: BoardState, after: BoardState)
    requires b == Initial() && after == BoardState(InitRow, [1, 0, 8, 8, 8, 8, 8, 8])
    ensures Sow(b, South, 1) == Sown(after, 7, 0, 7, 7)
  {
    var e := b.With(South, 1, 0);
    assert e == BoardState(InitRow, [0, 0, 7, 7, 7, 7, 7, 7]);
    ScatterOpeningOne(e, after);
    assert b.Cell(South, 1) == 7;
    SowSteps(b, South, 1, e, e, 1);
  }

  /** The seven seeds of South's hole 1, one by one, into holes 2..7 and the store. */
  lemma ScatterOpeningOne(e: BoardState, after: BoardState)
    requires e == BoardState(InitRow, [0, 0, 7, 7, 7, 7, 7, 7])
    requires after == BoardState(InitRow, [1, 0, 8, 8, 8, 8, 8, 8])
    ensures Scatter(e, South, 0, 7) == after
  {
    var b1 := BoardState(InitRow, [0, 0, 8, 7, 7, 7, 7, 7]);
    var b2 := BoardState(InitRow, [0, 0, 8, 8, 7, 7, 7, 7]);
    var b3 := BoardState(InitRow, [0, 0, 8, 8, 8, 7, 7, 7]);
    var b4 := BoardState(InitRow, [0, 0, 8, 8, 8, 8, 7, 7]);
    var b5 := BoardState(InitRow, [0, 0, 8, 8, 8, 8, 8, 7]);
    var b6 := BoardState(InitRow, [0, 0, 8, 8, 8, 8, 8, 8]);
    ScatterFrom(e, South, 0, 1, e, b1);
    ScatterFrom(e, South, 0, 2, b1, b2);
    ScatterFrom(e, South, 0, 3, b2, b3);
    ScatterFrom(e, South, 0, 4, b3, b4);
    ScatterFrom(e, South, 0, 5, b4, b5);
    ScatterFrom(e, South, 0, 6, b5, b6);
    ScatterFrom(e, South, 0, 7, b6, after);
  }

  /** One more remainder seed, on a board known to be the one of the previous seed. */
  /** The pit after the cursor of Scatter(b, mover, c, j), given a seed, gives the next Scatter. */
  lemma ScatterNext(b: BoardState, mover: Side, c: int, j: int, prev: BoardState, next: BoardState)
    requires 0 <= c < ReceivingPits && 0 <= j < ReceivingPits - 1 && Scatter(b, mover, c, j) == prev
    requires next == prev.Add(RingCell(mover, Advance(Advance(c, j), 1)).side, RingCell(mover, Advance(Advance(c, j), 1)).idx, 1)
    ensures Scatter(b, mover, c, j + 1) == next
  {
    assert Advance(Advance(c, j), 1) == Advance(c, j + 1);
  }

  lemma ScatterFrom(b: BoardState, mover: Side, c: int, k: int, prev: BoardState, next: BoardState)
    requires 0 <= c < ReceivingPits && 0 < k < ReceivingPits && Scatter(b, mover, c, k - 1) == prev
    requires next == prev.Add(RingCell(mover, Advance(c, k)).side, RingCell(mover, Advance(c, k)).idx, 1)
    ensures Scatter(b, mover, c, k) == next
  {
  }

  /**
   * The opening from the reset board: South sows hole 1 and its last seed lands in its
   * store, so simulate_move keeps South on the move, while execute_action hands the turn to
   * North regardless.
   */
  lemma OpeningHoleOne(b: BoardState, after: BoardState)
    requires b == Initial() && after == BoardState(InitRow, [1, 0, 8, 8, 8, 8, 8, 8])
    ensures Apply(b, South, 1) == Played(after, false, true, false)
    ensures SimulateStep(b, South, Move(1)) == (after, South)
    ensures EnvStep(b, South, Move(1)) == (after, NorthTurn)
  {
    var r := Sow(b, South, 1);
    SowOpeningHoleOne(b, after);
    assert r.board == after && r.last == 7 && r.rem == 7;
    FinishedSideNone(after, South, 2, 2);
    ApplyQuiet(b, South, 1, r);
  }

  /** South sows hole 3 of the reset board: holes 4..7, its store and North's holes 1 and 2. */
  lemma SowOpeningHoleThree(b: BoardState, after: BoardState)
    requires b == Initial() && after == BoardState([0, 8, 8, 7, 7, 7, 7, 7], [1, 7, 7, 0, 8, 8, 8, 8])
    ensures Sow(b, South, 3) == Sown(after, 7, 0, 7, 9)
  {
    var e := b.With(South, 3, 0);
    assert e == BoardState(InitRow, [0, 7, 7, 0, 7, 7, 7, 7]);
    var b1 := BoardState(InitRow, [0, 7, 7, 0, 8, 7, 7, 7]);
    var b2 := BoardState(InitRow, [0, 7, 7, 0, 8, 8, 7, 7]);
    var b3 := BoardState(InitRow, [0, 7, 7, 0, 8, 8, 8, 7]);
    var b4 := BoardState(InitRow, [0, 7, 7, 0, 8, 8, 8, 8]);
    var b5 := BoardState(InitRow, [1, 7, 7, 0, 8, 8, 8, 8]);
    var b6 := BoardState([0, 8, 7, 7, 7, 7, 7, 7], [1, 7, 7, 0, 8, 8, 8, 8]);
    var b7 := BoardState([0, 8, 8, 7, 7, 7, 7, 7], [1, 7, 7, 0, 8, 8, 8, 8]);
    ScatterFrom(e, South, 2, 1, e, b1);
    ScatterFrom(e, South, 2, 2, b1, b2);
    ScatterFrom(e, South, 2, 3, b2, b3);
    ScatterFrom(e, South, 2, 4, b3, b4);
    ScatterFrom(e, South, 2, 5, b4, b5);
    ScatterFrom(e, South, 2, 6, b5, b6);
    ScatterFrom(e, South, 2, 7, b6, b7);
    assert b.Cell(South, 3) == 7;
    SowSteps(b, South, 3, e, e, 3);
  }

  /** After South sows hole 3 of the reset board the last seed is on North's side: the turn passes. */
  lemma OpeningHoleThree(b: BoardState, after: BoardState)
    requires b == Initial() && after == BoardState([0, 8, 8, 7, 7, 7, 7, 7], [1, 7, 7, 0, 8, 8, 8, 8])
    ensures Apply(b, South, 3) == Played(after, false, false, false)
    ensures SimulateStep(b, South, Move(3)) == (after, North)
    ensures EnvStep(b, South, Move(3)) == (after, NorthTurn)
  {
    var r := Sow(b, South, 3);
    SowOpeningHoleThree(b, after);
    assert r.board == after && r.last == 9 && r.rem == 7;
    FinishedSideNone(after, South, 1, 1);
    ApplyQuiet(b, South, 3, r);
  }
}
