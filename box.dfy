/** Boxes: a '+' corner, a run of '-' closed by '+', rows of '|' walls w
    columns apart, and a bottom edge of the same width. */
module BoxGrammar {
  import opened Flags
  import opened Grid
  import opened PatternBase

  datatype State =
    | Start
      /** the top-left '+' at tl is claimed; the current cell must be '-' */
    | TopFirst(tl: Pos)
      /** a top '-' is claimed; the current cell is '-' or the closing '+' */
    | TopRun(tl: Pos)
      /** the top-right '+' is claimed, the box is w columns wide; the
          current cell is reported as lying just after a box */
    | TopEnd(tl: Pos, w: int)
      /** waiting for the start of the row below the row that starts at
          rowStart; on the first side row no bottom edge is accepted yet */
    | RowAwait(tl: Pos, w: int, rowStart: Pos, first: bool)
      /** the left wall at rowStart is claimed; the current cell starts the
          wait for the right wall */
    | LeftWall(tl: Pos, w: int, rowStart: Pos)
    | RightWait(tl: Pos, w: int, rowStart: Pos, target: Pos)
      /** the right wall is claimed; the current cell lies just after the box */
    | RightEnd(tl: Pos, w: int, rowStart: Pos)
      /** the bottom-left '+' at rowStart and n bottom '-' are claimed */
    | Bottom(tl: Pos, w: int, rowStart: Pos, n: nat)
      /** the bottom-right '+' at br is claimed; the current cell lies just
          after the box */
    | BottomEnd(tl: Pos, br: Pos, w: int, rowStart: Pos)
      /** waiting for the cell below the bottom-left corner */
    | BelowAwait(tl: Pos, br: Pos, w: int, rowStart: Pos)
      /** n cells under the bottom edge were reported as lying below a box */
    | Below(tl: Pos, br: Pos, w: int, n: nat)
    | Done(tl: Pos, br: Pos)

  /** Start of a side row or of the bottom edge, at the row start. */
  function RowStart(tl: Pos, w: int, first: bool, c: Cell): (r: Outcome<State>)
    ensures ClaimsOnlyFree(c, r)
  {
    if !first && c.ch == '+' then Expect(c, "+", M_OCCUPIED | M_BOX_START_E, Bottom(tl, w, c.At(), 0))
    else Expect(c, "|", M_OCCUPIED | M_BOX_START_E, LeftWall(tl, w, c.At()))
  }

  /** The wait for the right wall, on the current cell. */
  function RightWall(mode: AwaitMode, tl: Pos, w: int, rowStart: Pos, target: Pos, c: Cell): (r: Outcome<State>)
    ensures ClaimsOnlyFree(c, r)
  {
    AwaitThen(mode, c, target, RightWait(tl, w, rowStart, target),
      Expect(c, "|", M_OCCUPIED, RightEnd(tl, w, rowStart)), Raise(NoSuchPosition))
  }

  /** One cell of the row under the box: up to w cells, stopping at the end
      of the line. */
  function BelowAt(tl: Pos, br: Pos, w: int, n: nat, c: Cell): (r: Outcome<State>)
    ensures ClaimsOnlyFree(c, r)
  {
    if n >= w || c.ch == END_OF_LINE then Return(Done(tl, br))
    else Yield(M_BOX_AFTER_S, Below(tl, br, w, n + 1))
  }

  function Step(mode: AwaitMode, s: State, c: Cell): (r: Outcome<State>)
    ensures ClaimsOnlyFree(c, r)
  {
    match s
    case Start => Expect(c, "+", M_OCCUPIED | M_BOX_START_S | M_BOX_START_E, TopFirst(c.At()))
    case TopFirst(tl) => Expect(c, "-", M_OCCUPIED | M_BOX_START_S, TopRun(tl))
    case TopRun(tl) =>
      if c.ch != '+' then Expect(c, "-", M_OCCUPIED | M_BOX_START_S, TopRun(tl))
      else Expect(c, "+", M_OCCUPIED | M_BOX_START_S, TopEnd(tl, c.col - tl.col + 1))
    case TopEnd(tl, w) => Yield(M_BOX_AFTER_E, RowAwait(tl, w, tl, true))
    case RowAwait(tl, w, rowStart, first) =>
      AwaitThen(mode, c, Pos(rowStart.col, rowStart.row + 1), s,
        RowStart(tl, w, first, c), Raise(NoSuchPosition))
    case LeftWall(tl, w, rowStart) => RightWall(mode, tl, w, rowStart, OffsetHere(c, w - 2, 0), c)
    case RightWait(tl, w, rowStart, target) => RightWall(mode, tl, w, rowStart, target, c)
    case RightEnd(tl, w, rowStart) => Yield(M_BOX_AFTER_E, RowAwait(tl, w, rowStart, false))
    case Bottom(tl, w, rowStart, n) =>
      if n < w - 2 then Expect(c, "-", M_OCCUPIED, Bottom(tl, w, rowStart, n + 1))
      else Expect(c, "+", M_OCCUPIED, BottomEnd(tl, c.At(), w, rowStart))
    case BottomEnd(tl, br, w, rowStart) => Yield(M_BOX_AFTER_E, BelowAwait(tl, br, w, rowStart))
    case BelowAwait(tl, br, w, rowStart) =>
      AwaitThen(mode, c, Pos(rowStart.col, rowStart.row + 1), s,
        BelowAt(tl, br, w, 0, c), Return(Done(tl, br)))
    case Below(tl, br, w, n) => BelowAt(tl, br, w, n, c)
    case Done(_, _) => Return(s)
  }

  /** The interior of a box is not claimed: while it waits for the right
      wall, the box reports nothing for the cells it passes, and claims
      only the wall itself. */
  lemma InteriorIsNotClaimed(mode: AwaitMode, tl: Pos, w: int, rowStart: Pos, target: Pos, c: Cell)
    ensures var r := Step(mode, RightWait(tl, w, rowStart, target), c);
      && (c.At() != target && r.Yield? ==> r.meta == M_NONE)
      && (c.At() == target ==> r.Yield? == (c.ch == '|' && !Occupied(c)))
  {
    AwaitModesCompared(c, target);
  }

  /** Only the first side row is exempt from the bottom-edge test: on every
      later row a '+' at the row start begins the bottom edge. */
  lemma BottomEdgeNeedsASideRow(mode: AwaitMode, tl: Pos, w: int, rowStart: Pos, c: Cell)
    requires c.At() == Pos(rowStart.col, rowStart.row + 1) && c.ch == '+' && !Occupied(c)
    ensures Step(mode, RowAwait(tl, w, rowStart, true), c) == Raise(Rejected)
    ensures Step(mode, RowAwait(tl, w, rowStart, false), c)
         == Yield(M_OCCUPIED | M_BOX_START_E, Bottom(tl, w, c.At(), 0))
  {
    AwaitModesCompared(c, Pos(rowStart.col, rowStart.row + 1));
  }

  function StepOf(mode: AwaitMode): (State, Cell) -> Outcome<State> {
    (s, c) => Step(mode, s, c)
  }

  /** A whole box from tl to br, at least three columns wide and three rows
      high: both edges and both walls, every character claimed on a cell no
      completed match occupied. */
  ghost predicate Framed(record: map<Pos, Meta>, seen: map<Pos, Cell>, tl: Pos, br: Pos) {
    && br.col >= tl.col + 2 && br.row >= tl.row + 2
    && Row(record, seen, tl.row, tl.col, br.col, '+', '-')
    && Row(record, seen, br.row, tl.col, br.col, '+', '-')
    && Walls(record, seen, tl.row + 1, br.row - 1, tl.col, br.col, '|')
  }

  /** What the box has claimed when suspended in `s`, with the next cell of
      the scan at q. */
  ghost predicate Inv(s: State, record: map<Pos, Meta>, seen: map<Pos, Cell>, q: Pos) {
    && Past(seen, q)
    && match s
      case Start => true
      case TopFirst(tl) => q == Pos(tl.col + 1, tl.row) && Took(record, seen, tl, '+')
      case TopRun(tl) =>
        && q.row == tl.row && q.col >= tl.col + 2 && Took(record, seen, tl, '+')
        && Span(record, seen, tl.row, tl.col, q.col, '-')
      case TopEnd(tl, w) => w >= 3 && Row(record, seen, tl.row, tl.col, tl.col + w - 1, '+', '-')
      case RowAwait(tl, w, rowStart, first) =>
        && w >= 3 && Row(record, seen, tl.row, tl.col, tl.col + w - 1, '+', '-')
        && rowStart.col == tl.col && rowStart.row >= tl.row && (first <==> rowStart.row == tl.row)
        && Walls(record, seen, tl.row + 1, rowStart.row, tl.col, tl.col + w - 1, '|')
      case LeftWall(tl, w, rowStart) =>
        && w >= 3 && Row(record, seen, tl.row, tl.col, tl.col + w - 1, '+', '-')
        && rowStart.col == tl.col && rowStart.row > tl.row && q == Pos(tl.col + 1, rowStart.row)
        && Walls(record, seen, tl.row + 1, rowStart.row - 1, tl.col, tl.col + w - 1, '|')
        && Took(record, seen, rowStart, '|')
      case RightWait(tl, w, rowStart, target) =>
        && w >= 3 && Row(record, seen, tl.row, tl.col, tl.col + w - 1, '+', '-')
        && rowStart.col == tl.col && rowStart.row > tl.row && target == Pos(tl.col + w - 1, rowStart.row)
        && Walls(record, seen, tl.row + 1, rowStart.row - 1, tl.col, tl.col + w - 1, '|')
        && Took(record, seen, rowStart, '|')
      case RightEnd(tl, w, rowStart) =>
        && w >= 3 && Row(record, seen, tl.row, tl.col, tl.col + w - 1, '+', '-')
        && rowStart.col == tl.col && rowStart.row > tl.row
        && Walls(record, seen, tl.row + 1, rowStart.row, tl.col, tl.col + w - 1, '|')
      case Bottom(tl, w, rowStart, n) =>
        && w >= 3 && Row(record, seen, tl.row, tl.col, tl.col + w - 1, '+', '-')
        && rowStart.col == tl.col && rowStart.row >= tl.row + 2
        && Walls(record, seen, tl.row + 1, rowStart.row - 1, tl.col, tl.col + w - 1, '|')
        && Took(record, seen, rowStart, '+')
        && n <= w - 2 && q == Pos(tl.col + 1 + n, rowStart.row)
        && Span(record, seen, rowStart.row, tl.col, tl.col + n + 1, '-')
      case BottomEnd(tl, br, _, _) => Framed(record, seen, tl, br)
      case BelowAwait(tl, br, _, _) => Framed(record, seen, tl, br)
      case Below(tl, br, _, _) => Framed(record, seen, tl, br)
      case Done(tl, br) => Framed(record, seen, tl, br)
  }

  /** What resuming the box on c must keep: a yield leaves the invariant
      holding at the next cell of the scan, and a return ends framed. */
  ghost predicate Kept(r: Outcome<State>, record: map<Pos, Meta>, seen: map<Pos, Cell>, c: Cell) {
    && (r.Yield? ==> Inv(r.next, record[c.At() := r.meta], seen[c.At() := c], Succ(c)))
    && (r.Return? ==> r.final.Done? && Framed(record, seen, r.final.tl, r.final.br))
  }

  lemma StartKept(mode: AwaitMode, s: State, record: map<Pos, Meta>, seen: map<Pos, Cell>, c: Cell)
    requires s.Start? && Inv(s, record, seen, c.At())
    ensures Kept(Step(mode, s, c), record, seen, c)
  {
    var r := Step(mode, s, c);
    if r.Yield? {
      TookStep(record, seen, c, r.meta);
    }
  }

  lemma TopFirstKept(mode: AwaitMode, s: State, record: map<Pos, Meta>, seen: map<Pos, Cell>, c: Cell)
    requires s.TopFirst? && Inv(s, record, seen, c.At())
    ensures Kept(Step(mode, s, c), record, seen, c)
  {
    var r := Step(mode, s, c);
    if r.Yield? {
      TookStep(record, seen, c, r.meta);
    }
  }

  lemma TopRunKept(mode: AwaitMode, s: State, record: map<Pos, Meta>, seen: map<Pos, Cell>, c: Cell)
    requires s.TopRun? && Inv(s, record, seen, c.At())
    ensures Kept(Step(mode, s, c), record, seen, c)
  {
    var r := Step(mode, s, c);
    if r.Yield? {
      TookStep(record, seen, c, r.meta);
    }
  }

  lemma TopEndKept(mode: AwaitMode, s: State, record: map<Pos, Meta>, seen: map<Pos, Cell>, c: Cell)
    requires s.TopEnd? && Inv(s, record, seen, c.At())
    ensures Kept(Step(mode, s, c), record, seen, c)
  {
    var r := Step(mode, s, c);
    if r.Yield? {
      TookStep(record, seen, c, r.meta);
    }
  }

  lemma RowAwaitKept(mode: AwaitMode, s: State, record: map<Pos, Meta>, seen: map<Pos, Cell>, c: Cell)
    requires s.RowAwait? && Inv(s, record, seen, c.At())
    ensures Kept(Step(mode, s, c), record, seen, c)
  {
    var r := Step(mode, s, c);
    if r.Yield? {
      TookStep(record, seen, c, r.meta);
      AwaitModesCompared(c, c.At());
    }
  }

  lemma LeftWallKept(mode: AwaitMode, s: State, record: map<Pos, Meta>, seen: map<Pos, Cell>, c: Cell)
    requires s.LeftWall? && Inv(s, record, seen, c.At())
    ensures Kept(Step(mode, s, c), record, seen, c)
  {
    var r := Step(mode, s, c);
    if r.Yield? {
      TookStep(record, seen, c, r.meta);
      AwaitModesCompared(c, c.At());
    }
  }

  lemma RightWaitKept(mode: AwaitMode, s: State, record: map<Pos, Meta>, seen: map<Pos, Cell>, c: Cell)
    requires s.RightWait? && Inv(s, record, seen, c.At())
    ensures Kept(Step(mode, s, c), record, seen, c)
  {
    var r := Step(mode, s, c);
    if r.Yield? {
      TookStep(record, seen, c, r.meta);
      AwaitModesCompared(c, c.At());
    }
  }

  lemma RightEndKept(mode: AwaitMode, s: State, record: map<Pos, Meta>, seen: map<Pos, Cell>, c: Cell)
    requires s.RightEnd? && Inv(s, record, seen, c.At())
    ensures Kept(Step(mode, s, c), record, seen, c)
  {
    var r := Step(mode, s, c);
    if r.Yield? {
      TookStep(record, seen, c, r.meta);
    }
  }

  lemma BottomKept(mode: AwaitMode, s: State, record: map<Pos, Meta>, seen: map<Pos, Cell>, c: Cell)
    requires s.Bottom? && Inv(s, record, seen, c.At())
    ensures Kept(Step(mode, s, c), record, seen, c)
  {
    var r := Step(mode, s, c);
    if r.Yield? {
      TookStep(record, seen, c, r.meta);
    }
  }

  lemma ClosingKept(mode: AwaitMode, s: State, record: map<Pos, Meta>, seen: map<Pos, Cell>, c: Cell)
    requires (s.BottomEnd? || s.BelowAwait? || s.Below? || s.Done?) && Inv(s, record, seen, c.At())
    ensures Kept(Step(mode, s, c), record, seen, c)
  {
    var r := Step(mode, s, c);
    if r.Yield? {
      TookStep(record, seen, c, r.meta);
    }
  }

  /** One resumption keeps the invariant, and a box ends only framed. */
  lemma StepKeeps(mode: AwaitMode, s: State, record: map<Pos, Meta>, seen: map<Pos, Cell>, c: Cell)
    requires Inv(s, record, seen, c.At())
    ensures Kept(Step(mode, s, c), record, seen, c)
  {
    if s.Start? {
      StartKept(mode, s, record, seen, c);
    } else if s.TopFirst? {
      TopFirstKept(mode, s, record, seen, c);
    } else if s.TopRun? {
      TopRunKept(mode, s, record, seen, c);
    } else if s.TopEnd? {
      TopEndKept(mode, s, record, seen, c);
    } else if s.RowAwait? {
      RowAwaitKept(mode, s, record, seen, c);
    } else if s.LeftWall? {
      LeftWallKept(mode, s, record, seen, c);
    } else if s.RightWait? {
      RightWaitKept(mode, s, record, seen, c);
    } else if s.RightEnd? {
      RightEndKept(mode, s, record, seen, c);
    } else if s.Bottom? {
      BottomKept(mode, s, record, seen, c);
    } else {
      ClosingKept(mode, s, record, seen, c);
    }
  }

  /** A box recognized from a run of consecutive scan cells is a whole
      frame from its top-left corner tl to its bottom-right corner br, at
      least three columns wide and three rows high: '+' at the four
      corners, '-' along the top and bottom edges, '|' in both walls on
      every row between, each one a cell the box claimed and no completed
      match occupied. */
  lemma Recognized(mode: AwaitMode, cells: seq<Cell>)
    requires Scan(cells)
    ensures var run := Feed(StepOf(mode), Start, cells, map[]);
      run.Completed? ==>
        run.final.Done? && Framed(run.record, Consumed(StepOf(mode), Start, cells, map[]), run.final.tl, run.final.br)
  {
    forall s, record, seen, c: Cell | Inv(s, record, seen, c.At())
      ensures Kept(Step(mode, s, c), record, seen, c)
    {
      StepKeeps(mode, s, record, seen, c);
    }
    FeedKeeps(StepOf(mode), (s, record, seen, q) => Inv(s, record, seen, q),
      (s: State, record, seen) => s.Done? && Framed(record, seen, s.tl, s.br),
      Start, cells, map[], map[]);
  }
}
