/** Line corners: a square '+' or a rounded '.', '\'' or ':' joining the
    lines that end at it and start from it, accepted only where at least two
    line ends meet. */
module CornerGrammar {
  import opened Flags
  import opened Grid
  import opened PatternBase
  import opened Shapes
  import CorePattern

  datatype Shape = Square | Round

  /** A line end meeting the corner, as the direction (x, y) from the corner
      towards the line, and whether that line is dashed. */
  datatype End = End(x: int, y: int, dashed: bool)

  /** One direction the corner looks in: the line flag and dash flag that
      mark a line there, and the direction. */
  datatype Probe = Probe(flag: Meta, dash: Meta, x: int, y: int)

  /** Lines ending at the square corner's own cell, read from its metadata. */
  const SQUARE_INCOMING: seq<Probe> := [
    Probe(M_LINE_AFTER_E, M_DASH_AFTER_E, -1, 0),
    Probe(M_LINE_AFTER_S, M_DASH_AFTER_S, 0, -1),
    Probe(M_LINE_AFTER_SE, M_DASH_AFTER_SE, -1, -1),
    Probe(M_LINE_AFTER_SW, M_DASH_AFTER_SW, 1, -1) ]

  /** Lines ending at the rounded corner's own cell (a different order). */
  const ROUND_INCOMING: seq<Probe> := [
    Probe(M_LINE_AFTER_E, M_DASH_AFTER_E, -1, 0),
    Probe(M_LINE_AFTER_SW, M_DASH_AFTER_SW, 1, -1),
    Probe(M_LINE_AFTER_S, M_DASH_AFTER_S, 0, -1),
    Probe(M_LINE_AFTER_SE, M_DASH_AFTER_SE, -1, -1) ]

  /** Lines starting next to the corner, probed one after the other. */
  const OUTGOING: seq<Probe> := [
    Probe(M_LINE_START_E, M_DASH_START_E, 1, 0),
    Probe(M_LINE_START_SW, M_DASH_START_SW, -1, 1),
    Probe(M_LINE_START_S, M_DASH_START_S, 0, 1),
    Probe(M_LINE_START_SE, M_DASH_START_SE, 1, 1) ]

  /** The ends found in one cell's metadata, in probe order; directions
      pointing up are skipped unless `up`. */
  function Incoming(probes: seq<Probe>, meta: Meta, up: bool): (ends: seq<End>)
    ensures |ends| <= |probes|
  {
    if probes == [] then []
    else
      var p := probes[0];
      var here := if (p.y < 0 && !up) || !Has(meta, p.flag) then [] else [End(p.x, p.y, Has(meta, p.dash))];
      here + Incoming(probes[1..], meta, up)
  }

  /** The ends found are exactly the probes whose line flag the metadata
      carries, in an allowed direction, each with the probe's direction and
      the metadata's dash flag. */
  lemma {:induction false} IncomingEndsAreMarked(probes: seq<Probe>, meta: Meta, up: bool)
    ensures forall e :: e in Incoming(probes, meta, up) ==>
      exists p :: p in probes && e == End(p.x, p.y, Has(meta, p.dash)) && Has(meta, p.flag) && (up || p.y >= 0)
    ensures forall p :: p in probes && Has(meta, p.flag) && (up || p.y >= 0) ==>
      End(p.x, p.y, Has(meta, p.dash)) in Incoming(probes, meta, up)
    decreases |probes|
  {
    if probes != [] {
      IncomingEndsAreMarked(probes[1..], meta, up);
      forall p | p in probes && Has(meta, p.flag) && (up || p.y >= 0)
        ensures End(p.x, p.y, Has(meta, p.dash)) in Incoming(probes, meta, up)
      {
        if p != probes[0] {
          assert p in probes[1..];
        }
      }
      forall e | e in Incoming(probes, meta, up)
        ensures exists p :: p in probes && e == End(p.x, p.y, Has(meta, p.dash)) && Has(meta, p.flag) && (up || p.y >= 0)
      {
        if e !in Incoming(probes[1..], meta, up) {
          assert e == End(probes[0].x, probes[0].y, Has(meta, probes[0].dash));
        } else {
          var p :| p in probes[1..] && e == End(p.x, p.y, Has(meta, p.dash)) && Has(meta, p.flag) && (up || p.y >= 0);
          assert p in probes;
        }
      }
    }
  }

  /** A cell whose metadata carries no flag has no line ending at it. */
  lemma {:induction false} NothingEndsAtAnUnmarkedCell(probes: seq<Probe>)
    ensures Incoming(probes, M_NONE, true) == []
    decreases |probes|
  {
    if probes != [] {
      NothingEndsAtAnUnmarkedCell(probes[1..]);
    }
  }

  datatype State =
    | Start
      /** the corner at pos is claimed with `ends` found so far; the k-th
          outgoing probe starts or continues at the current cell; downward
          probes are skipped unless `down` */
    | Probing(pos: Pos, down: bool, k: nat, ends: seq<End>)
    | Done(pos: Pos, ends: seq<End>)

  /** The outgoing probes from k on, at the current cell: a probe whose
      target has passed, or whose target this is, hands the same cell to the
      next probe; after the last probe the corner is accepted with at least
      two ends and rejected otherwise. */
  function ProbeFrom(mode: AwaitMode, pos: Pos, down: bool, k: nat, ends: seq<End>, c: Cell): (r: Outcome<State>)
    ensures r.Yield? ==> r.meta == M_NONE && r.next.Probing? && r.next.pos == pos && r.next.down == down
                         && ends <= r.next.ends && r.next.k < |OUTGOING|
    ensures r.Return? ==> r.final.Done? && r.final.pos == pos && ends <= r.final.ends && |r.final.ends| >= 2
    ensures r.Raise? ==> r.exc == Rejected
    decreases |OUTGOING| - k
  {
    if k >= |OUTGOING| then
      (if |ends| < 2 then Raise(Rejected) else Return(Done(pos, ends)))
    else
      var p := OUTGOING[k];
      if p.y > 0 && !down then ProbeFrom(mode, pos, down, k + 1, ends, c)
      else match Await(mode, c, CorePattern.Offset(p.x, p.y, pos))
        case Waiting => Yield(M_NONE, Probing(pos, down, k, ends))
        case Unreachable => ProbeFrom(mode, pos, down, k + 1, ends, c)
        case Arrived =>
          ProbeFrom(mode, pos, down, k + 1,
            ends + (if Has(c.meta, p.flag) then [End(p.x, p.y, Has(c.meta, p.dash))] else []), c)
  }

  function Step(mode: AwaitMode, shape: Shape, s: State, c: Cell): (r: Outcome<State>)
    ensures ClaimsOnlyFree(c, r)
    ensures r.Return? && !s.Done? ==> r.final.Done? && |r.final.ends| >= 2
  {
    match s
    case Start =>
      if Occupied(c) then Raise(Rejected)
      else (match shape
        case Square =>
          Expect(c, "+", M_OCCUPIED, Probing(c.At(), true, 0, Incoming(SQUARE_INCOMING, c.meta, true)))
        case Round =>
          if c.ch == '.' then Yield(M_OCCUPIED, Probing(c.At(), true, 0, Incoming(ROUND_INCOMING, c.meta, false)))
          else if c.ch == '\'' then Yield(M_OCCUPIED, Probing(c.At(), false, 0, Incoming(ROUND_INCOMING, c.meta, true)))
          else if c.ch == ':' then Yield(M_OCCUPIED, Probing(c.At(), true, 0, Incoming(ROUND_INCOMING, c.meta, true)))
          else Raise(Rejected))
    case Probing(pos, down, k, ends) => ProbeFrom(mode, pos, down, k, ends, c)
    case Done(_, _) => Return(s)
  }

  /** A corner that has found fewer than two ends by its last probe is
      rejected, whatever that last probe finds missing; one that reaches the
      end of its probes with two or more is accepted with exactly those. */
  lemma {:induction false} FewerThanTwoEndsRejects(mode: AwaitMode, pos: Pos, down: bool, ends: seq<End>, c: Cell)
    ensures |ends| < 2 ==> ProbeFrom(mode, pos, down, |OUTGOING|, ends, c) == Raise(Rejected)
    ensures |ends| >= 2 ==> ProbeFrom(mode, pos, down, |OUTGOING|, ends, c) == Return(Done(pos, ends))
  {
  }

  /** Where the scan stands relative to a probe's target, under either
      await. */
  lemma AwaitAt(mode: AwaitMode, c: Cell, target: Pos)
    requires c.At() == target
    ensures Await(mode, c, target) == Arrived
  {
  }

  lemma AwaitAhead(mode: AwaitMode, c: Cell, target: Pos)
    requires Before(c.At(), target) && c.ch != END_OF_INPUT
    ensures Await(mode, c, target) == Waiting
  {
  }

  lemma AwaitPassed(c: Cell, target: Pos)
    requires Before(target, c.At())
    ensures Await(Strict, c, target) == Unreachable
  {
  }

  /** The three ways an outgoing probe that is not skipped can stand at the
      current cell. */
  lemma ProbeWaits(mode: AwaitMode, pos: Pos, down: bool, k: nat, ends: seq<End>, c: Cell)
    requires k < |OUTGOING| && (OUTGOING[k].y <= 0 || down)
    requires Await(mode, c, CorePattern.Offset(OUTGOING[k].x, OUTGOING[k].y, pos)) == Waiting
    ensures ProbeFrom(mode, pos, down, k, ends, c) == Yield(M_NONE, Probing(pos, down, k, ends))
  {
  }

  lemma ProbePassed(mode: AwaitMode, pos: Pos, down: bool, k: nat, ends: seq<End>, c: Cell)
    requires k < |OUTGOING| && (OUTGOING[k].y <= 0 || down)
    requires Await(mode, c, CorePattern.Offset(OUTGOING[k].x, OUTGOING[k].y, pos)) == Unreachable
    ensures ProbeFrom(mode, pos, down, k, ends, c) == ProbeFrom(mode, pos, down, k + 1, ends, c)
  {
  }

  lemma ProbeArrives(mode: AwaitMode, pos: Pos, down: bool, k: nat, ends: seq<End>, c: Cell, found: seq<End>)
    requires k < |OUTGOING| && (OUTGOING[k].y <= 0 || down)
    requires Await(mode, c, CorePattern.Offset(OUTGOING[k].x, OUTGOING[k].y, pos)) == Arrived
    requires found == if Has(c.meta, OUTGOING[k].flag) then [End(OUTGOING[k].x, OUTGOING[k].y, Has(c.meta, OUTGOING[k].dash))] else []
    ensures ProbeFrom(mode, pos, down, k, ends, c) == ProbeFrom(mode, pos, down, k + 1, ends + found, c)
  {
  }

  function StepOf(mode: AwaitMode, shape: Shape): (State, Cell) -> Outcome<State> {
    (s, c) => Step(mode, shape, s, c)
  }

  /** However many cells a corner is fed, it completes only as a corner
      joining at least two line ends. */
  lemma {:induction false} CompletedCornerJoinsTwoEnds(mode: AwaitMode, shape: Shape, s: State, cells: seq<Cell>,
                                                       record: map<Pos, Meta>)
    requires !s.Done?
    ensures var run := Feed(StepOf(mode, shape), s, cells, record);
      run.Completed? ==> run.final.Done? && |run.final.ends| >= 2
    decreases |cells|
  {
    if cells != [] {
      var r := Step(mode, shape, s, cells[0]);
      if r.Yield? {
        assert r.next.Probing?;
        CompletedCornerJoinsTwoEnds(mode, shape, r.next, cells[1..], record[cells[0].At() := r.meta]);
      }
    }
  }

  /** A square corner is drawn as one half-cell stroke from its centre
      towards each line end, dashed where the line is. */
  function RenderSquare(pos: Pos, ends: seq<End>): (r: seq<Primitive>)
    ensures |r| == |ends|
    ensures forall k :: 0 <= k < |r| ==>
      r[k] == Segment(Point(pos.col as real + 0.5, pos.row as real + 0.5),
                      Point(pos.col as real + 0.5 + ends[k].x as real * 0.5,
                            pos.row as real + 0.5 + ends[k].y as real * 0.5),
                      ends[k].dashed)
  {
    if ends == [] then []
    else
      var centre := Point(pos.col as real + 0.5, pos.row as real + 0.5);
      [Segment(centre, Point(centre.x + ends[0].x as real * 0.5, centre.y + ends[0].y as real * 0.5), ends[0].dashed)]
      + RenderSquare(pos, ends[1..])
  }

  /** A scan of a square corner in column 0 of the text "+--\n|\n", that is
        +--
        |
      with a newline after each row, once both lines are complete: the corner, unmarked; the rest of row 0,
      where a solid line starts east of the corner; the row below, where a
      solid vertical line starts south of it and no line starts south-east;
      then the end of input at the start of row 2. */
  predicate ColumnZeroScan(cells: seq<Cell>) {
    && |cells| == 8
    && cells[0].At() == Pos(0, 0) && cells[0].ch == '+' && cells[0].meta == M_NONE
    && cells[1].At() == Pos(1, 0) && cells[1].ch != END_OF_INPUT
    && Has(cells[1].meta, M_LINE_START_E) && !Has(cells[1].meta, M_DASH_START_E)
    && cells[2].At() == Pos(2, 0) && cells[2].ch != END_OF_INPUT
    && cells[3].At() == Pos(3, 0) && cells[3].ch != END_OF_INPUT
    && cells[4].At() == Pos(0, 1) && cells[4].ch != END_OF_INPUT
    && Has(cells[4].meta, M_LINE_START_S) && !Has(cells[4].meta, M_DASH_START_S)
    && cells[5].At() == Pos(1, 1) && cells[5].ch != END_OF_INPUT && !Has(cells[5].meta, M_LINE_START_SE)
    && cells[6].At() == Pos(0, 2) && cells[6].ch == END_OF_INPUT
  }

  /** Such a scan, cell by cell. */
  const COLUMN_ZERO_CORNER: seq<Cell> := [
    Cell(0, 0, '+', M_NONE),
    Cell(0, 1, '-', M_OCCUPIED | M_LINE_START_E),
    Cell(0, 2, '-', M_OCCUPIED),
    Cell(0, 3, '\n', M_LINE_AFTER_E),
    Cell(1, 0, '|', M_OCCUPIED | M_LINE_START_S),
    Cell(1, 1, '\n', M_NONE),
    Cell(2, 0, END_OF_INPUT, M_LINE_AFTER_S),
    Cell(2, 1, '\n', M_NONE) ]

  lemma ColumnZeroCornerIsSuchAScan()
    ensures ColumnZeroScan(COLUMN_ZERO_CORNER)
  {
  }

  /** The corner's states along that scan: claimed with no end yet; with
      the east line found, probing south-west; with both lines found,
      probing south-east. */
  const CORNER_CLAIMED: State := Probing(Pos(0, 0), true, 0, [])
  const CORNER_PROBING_SW: State := Probing(Pos(0, 0), true, 1, [End(1, 0, false)])
  const CORNER_PROBING_SE: State := Probing(Pos(0, 0), true, 3, [End(1, 0, false), End(0, 1, false)])

  lemma ColumnZeroClaim(mode: AwaitMode, c: Cell)
    requires c.At() == Pos(0, 0) && c.ch == '+' && c.meta == M_NONE
    ensures Step(mode, Square, Start, c) == Yield(M_OCCUPIED, CORNER_CLAIMED)
  {
    NothingEndsAtAnUnmarkedCell(SQUARE_INCOMING);
  }

  lemma ColumnZeroEast(mode: AwaitMode, c: Cell)
    requires c.At() == Pos(1, 0) && c.ch != END_OF_INPUT
    requires Has(c.meta, M_LINE_START_E) && !Has(c.meta, M_DASH_START_E)
    ensures Step(mode, Square, CORNER_CLAIMED, c) == Yield(M_NONE, CORNER_PROBING_SW)
  {
    var found := [End(1, 0, false)];
    assert [] + found == found;
    AwaitAt(mode, c, Pos(1, 0));
    ProbeArrives(mode, Pos(0, 0), true, 0, [], c, found);
    AwaitAhead(mode, c, Pos(-1, 1));
    ProbeWaits(mode, Pos(0, 0), true, 1, found, c);
    assert Step(mode, Square, CORNER_CLAIMED, c) == ProbeFrom(mode, Pos(0, 0), true, 0, [], c);
  }

  /** The south-west probe waits on the rest of row 0 under either await. */
  lemma ColumnZeroRowZero(mode: AwaitMode, c: Cell)
    requires c.row == 0 && c.col >= 0 && c.ch != END_OF_INPUT
    ensures Step(mode, Square, CORNER_PROBING_SW, c) == Yield(M_NONE, CORNER_PROBING_SW)
  {
    AwaitAhead(mode, c, Pos(-1, 1));
    ProbeWaits(mode, Pos(0, 0), true, 1, [End(1, 0, false)], c);
  }

  /** On the row below the corner the legacy await keeps the south-west
      probe of a column-0 corner waiting at every cell, column 0 included:
      its target, column -1, is never reached and never given up on. */
  lemma LegacyWaitsBelowColumnZero(c: Cell)
    requires c.row == 1 && c.col >= 0 && c.ch != END_OF_INPUT
    ensures Step(Legacy, Square, CORNER_PROBING_SW, c) == Yield(M_NONE, CORNER_PROBING_SW)
  {
    assert Await(Legacy, c, Pos(-1, 1)) == Waiting;
    ProbeWaits(Legacy, Pos(0, 0), true, 1, [End(1, 0, false)], c);
  }

  /** At the end of input every remaining probe has been passed, and one
      end is not enough. */
  lemma ColumnZeroLegacyEnd(c: Cell)
    requires c.At() == Pos(0, 2) && c.ch == END_OF_INPUT
    ensures Step(Legacy, Square, CORNER_PROBING_SW, c) == Raise(Rejected)
  {
    var ends := [End(1, 0, false)];
    FewerThanTwoEndsRejects(Legacy, Pos(0, 0), true, ends, c);
    assert Await(Legacy, c, Pos(1, 1)) == Unreachable;
    ProbePassed(Legacy, Pos(0, 0), true, 3, ends, c);
    assert Await(Legacy, c, Pos(0, 1)) == Unreachable;
    ProbePassed(Legacy, Pos(0, 0), true, 2, ends, c);
    assert Await(Legacy, c, Pos(-1, 1)) == Unreachable;
    ProbePassed(Legacy, Pos(0, 0), true, 1, ends, c);
  }

  /** On row 1 the strict await drops the south-west probe and the south
      probe finds the vertical line on the same cell. */
  lemma ColumnZeroStrictSouth(c: Cell)
    requires c.At() == Pos(0, 1) && c.ch != END_OF_INPUT
    requires Has(c.meta, M_LINE_START_S) && !Has(c.meta, M_DASH_START_S)
    ensures Step(Strict, Square, CORNER_PROBING_SW, c) == Yield(M_NONE, CORNER_PROBING_SE)
  {
    var ends := [End(1, 0, false), End(0, 1, false)];
    AwaitAhead(Strict, c, Pos(1, 1));
    ProbeWaits(Strict, Pos(0, 0), true, 3, ends, c);
    AwaitAt(Strict, c, Pos(0, 1));
    assert [End(1, 0, false)] + [End(0, 1, false)] == ends;
    ProbeArrives(Strict, Pos(0, 0), true, 2, [End(1, 0, false)], c, [End(0, 1, false)]);
    AwaitPassed(c, Pos(-1, 1));
    ProbePassed(Strict, Pos(0, 0), true, 1, [End(1, 0, false)], c);
  }

  lemma ColumnZeroStrictDone(c: Cell)
    requires c.At() == Pos(1, 1) && !Has(c.meta, M_LINE_START_SE)
    ensures Step(Strict, Square, CORNER_PROBING_SE, c) == Return(Done(Pos(0, 0), [End(1, 0, false), End(0, 1, false)]))
  {
    var ends := [End(1, 0, false), End(0, 1, false)];
    FewerThanTwoEndsRejects(Strict, Pos(0, 0), true, ends, c);
    AwaitAt(Strict, c, Pos(1, 1));
    assert ends + [] == ends;
    ProbeArrives(Strict, Pos(0, 0), true, 3, ends, c, []);
  }

  /** With the engine's own await, the south-west probe of that corner
      targets column -1 and waits until the scan leaves the row below, by
      which time the south and south-east probes can no longer arrive: the
      corner joins only one line and is rejected. */
  lemma LegacyRejectsCornerAtColumnZero(cells: seq<Cell>)
    requires ColumnZeroScan(cells)
    ensures Feed(StepOf(Legacy, Square), Start, cells, map[]) == Failed(Rejected)
  {
    var step := StepOf(Legacy, Square);
    var r1 := map[Pos(0, 0) := M_OCCUPIED];
    var r2 := r1[Pos(1, 0) := M_NONE];
    var r3 := r2[Pos(2, 0) := M_NONE];
    var r4 := r3[Pos(3, 0) := M_NONE];
    var r5 := r4[Pos(0, 1) := M_NONE];
    ColumnZeroClaim(Legacy, cells[0]);
    FeedYields(step, Start, cells, map[], M_OCCUPIED, CORNER_CLAIMED);
    ColumnZeroEast(Legacy, cells[1]);
    FeedYields(step, CORNER_CLAIMED, cells[1..], r1, M_NONE, CORNER_PROBING_SW);
    ColumnZeroRowZero(Legacy, cells[2]);
    FeedYields(step, CORNER_PROBING_SW, cells[2..], r2, M_NONE, CORNER_PROBING_SW);
    ColumnZeroRowZero(Legacy, cells[3]);
    FeedYields(step, CORNER_PROBING_SW, cells[3..], r3, M_NONE, CORNER_PROBING_SW);
    LegacyWaitsBelowColumnZero(cells[4]);
    FeedYields(step, CORNER_PROBING_SW, cells[4..], r4, M_NONE, CORNER_PROBING_SW);
    LegacyWaitsBelowColumnZero(cells[5]);
    FeedYields(step, CORNER_PROBING_SW, cells[5..], r5, M_NONE, CORNER_PROBING_SW);
    ColumnZeroLegacyEnd(cells[6]);
    assert cells[6..][0] == cells[6];
  }

  /** With the strict await the south-west probe gives up at once and the
      same corner joins both lines. */
  lemma StrictJoinsCornerAtColumnZero(cells: seq<Cell>)
    requires ColumnZeroScan(cells)
    ensures Feed(StepOf(Strict, Square), Start, cells, map[])
         == Completed(Done(Pos(0, 0), [End(1, 0, false), End(0, 1, false)]),
                      map[Pos(0, 0) := M_OCCUPIED, Pos(1, 0) := M_NONE, Pos(2, 0) := M_NONE,
                          Pos(3, 0) := M_NONE, Pos(0, 1) := M_NONE])
  {
    var step := StepOf(Strict, Square);
    var r1 := map[Pos(0, 0) := M_OCCUPIED];
    var r2 := r1[Pos(1, 0) := M_NONE];
    var r3 := r2[Pos(2, 0) := M_NONE];
    var r4 := r3[Pos(3, 0) := M_NONE];
    var r5 := r4[Pos(0, 1) := M_NONE];
    ColumnZeroClaim(Strict, cells[0]);
    FeedYields(step, Start, cells, map[], M_OCCUPIED, CORNER_CLAIMED);
    ColumnZeroEast(Strict, cells[1]);
    FeedYields(step, CORNER_CLAIMED, cells[1..], r1, M_NONE, CORNER_PROBING_SW);
    ColumnZeroRowZero(Strict, cells[2]);
    FeedYields(step, CORNER_PROBING_SW, cells[2..], r2, M_NONE, CORNER_PROBING_SW);
    ColumnZeroRowZero(Strict, cells[3]);
    FeedYields(step, CORNER_PROBING_SW, cells[3..], r3, M_NONE, CORNER_PROBING_SW);
    ColumnZeroStrictSouth(cells[4]);
    FeedYields(step, CORNER_PROBING_SW, cells[4..], r4, M_NONE, CORNER_PROBING_SE);
    ColumnZeroStrictDone(cells[5]);
    assert cells[5..][0] == cells[5];
    assert r5 == map[Pos(0, 0) := M_OCCUPIED, Pos(1, 0) := M_NONE, Pos(2, 0) := M_NONE,
                     Pos(3, 0) := M_NONE, Pos(0, 1) := M_NONE];
  }
}
