/** Database cylinders: a '.---.' top, a '\'---\'' rim, rows of '|' walls and a
    '\'---\'' base, all of the same width. */
module CylinderGrammar {
  import opened Flags
  import opened Grid
  import opened PatternBase

  datatype State =
    | Start
      /** the top-left '.' at tl is claimed; the current cell must be '-' */
    | TopFirst(tl: Pos)
      /** a top '-' is claimed; the current cell is '-' or the closing '.' */
    | TopRun(tl: Pos)
      /** the top is w columns wide; the current cell, just after it,
          starts the wait for the rim on the row below */
    | RimNext(tl: Pos, w: int)
    | RimWait(tl: Pos, w: int, target: Pos)
      /** the rim's left quote and n of its '-' are claimed */
    | RimRun(tl: Pos, w: int, n: nat)
      /** a row was completed; the current cell, just after it, starts the
          wait for the next row's start; the row after the rim must be a
          wall row */
    | WallNext(tl: Pos, w: int, first: bool)
    | WallWait(tl: Pos, w: int, target: Pos, first: bool)
      /** the left wall is claimed; the current cell starts the wait for the
          right wall */
    | LeftWall(tl: Pos, w: int)
    | RightWait(tl: Pos, w: int, target: Pos)
      /** the base's left quote and n of its '-' are claimed */
    | BaseRun(tl: Pos, w: int, n: nat)
      /** the base's right quote at br is claimed; the next cell ends the match */
    | Closing(tl: Pos, br: Pos)
    | Done(tl: Pos, br: Pos)

  function RimWaitAt(mode: AwaitMode, tl: Pos, w: int, target: Pos, c: Cell): (r: Outcome<State>)
    ensures ClaimsOnlyFree(c, r)
  {
    AwaitThen(mode, c, target, RimWait(tl, w, target),
      Expect(c, "'", M_OCCUPIED, RimRun(tl, w, 0)), Raise(NoSuchPosition))
  }

  /** A row start: after the rim always a wall; later a quote begins the base. */
  function RowStart(tl: Pos, w: int, first: bool, c: Cell): (r: Outcome<State>)
    ensures ClaimsOnlyFree(c, r)
    ensures r.Yield? <==> !Occupied(c) && (c.ch == '|' || (!first && c.ch == '\''))
    ensures r.Yield? && c.ch == '|' ==> r == Yield(M_OCCUPIED, LeftWall(tl, w))
    ensures r.Yield? && c.ch == '\'' ==> r == Yield(M_OCCUPIED, BaseRun(tl, w, 0))
  {
    if !first && c.ch == '\'' then Expect(c, "'", M_OCCUPIED, BaseRun(tl, w, 0))
    else Expect(c, "|", M_OCCUPIED, LeftWall(tl, w))
  }

  function WallWaitAt(mode: AwaitMode, tl: Pos, w: int, target: Pos, first: bool, c: Cell): (r: Outcome<State>)
    ensures ClaimsOnlyFree(c, r)
  {
    AwaitThen(mode, c, target, WallWait(tl, w, target, first), RowStart(tl, w, first, c), Raise(NoSuchPosition))
  }

  function RightWaitAt(mode: AwaitMode, tl: Pos, w: int, target: Pos, c: Cell): (r: Outcome<State>)
    ensures ClaimsOnlyFree(c, r)
  {
    AwaitThen(mode, c, target, RightWait(tl, w, target),
      Expect(c, "|", M_OCCUPIED, WallNext(tl, w, false)), Raise(NoSuchPosition))
  }

  function Step(mode: AwaitMode, s: State, c: Cell): (r: Outcome<State>)
    ensures ClaimsOnlyFree(c, r)
    ensures r.Return? && !s.Done? ==> s.Closing? && r.final == Done(s.tl, s.br)
  {
    match s
    case Start => Expect(c, ".", M_OCCUPIED, TopFirst(c.At()))
    case TopFirst(tl) => Expect(c, "-", M_OCCUPIED, TopRun(tl))
    case TopRun(tl) =>
      if c.ch != '.' then Expect(c, "-", M_OCCUPIED, TopRun(tl))
      else Expect(c, ".", M_OCCUPIED, RimNext(tl, c.col - tl.col + 1))
    case RimNext(tl, w) => RimWaitAt(mode, tl, w, OffsetHere(c, -w, 1), c)
    case RimWait(tl, w, target) => RimWaitAt(mode, tl, w, target, c)
    case RimRun(tl, w, n) =>
      if n < w - 2 then Expect(c, "-", M_OCCUPIED, RimRun(tl, w, n + 1))
      else Expect(c, "'", M_OCCUPIED, WallNext(tl, w, true))
    case WallNext(tl, w, first) => WallWaitAt(mode, tl, w, OffsetHere(c, -w, 1), first, c)
    case WallWait(tl, w, target, first) => WallWaitAt(mode, tl, w, target, first, c)
    case LeftWall(tl, w) => RightWaitAt(mode, tl, w, OffsetHere(c, w - 2, 0), c)
    case RightWait(tl, w, target) => RightWaitAt(mode, tl, w, target, c)
    case BaseRun(tl, w, n) =>
      if n < w - 2 then Expect(c, "-", M_OCCUPIED, BaseRun(tl, w, n + 1))
      else Expect(c, "'", M_OCCUPIED, Closing(tl, c.At()))
    case Closing(tl, br) => Return(Done(tl, br))
    case Done(_, _) => Return(s)
  }

  function StepOf(mode: AwaitMode): (State, Cell) -> Outcome<State> {
    (s, c) => Step(mode, s, c)
  }

  /** A whole cylinder from tl to br, at least three columns wide and four
      rows high: a '.---.' top, a '\'---\'' rim on the row below it, '|' in
      both walls on every row between the rim and the base, and a '\'---\''
      base, every character claimed on a cell no completed match occupied. */
  ghost predicate Drum(record: map<Pos, Meta>, seen: map<Pos, Cell>, tl: Pos, br: Pos) {
    && br.col >= tl.col + 2 && br.row >= tl.row + 3
    && Row(record, seen, tl.row, tl.col, br.col, '.', '-')
    && Row(record, seen, tl.row + 1, tl.col, br.col, '\'', '-')
    && Walls(record, seen, tl.row + 2, br.row - 1, tl.col, br.col, '|')
    && Row(record, seen, br.row, tl.col, br.col, '\'', '-')
  }

  /** The top and the rim of a cylinder w columns wide. */
  ghost predicate Lid(record: map<Pos, Meta>, seen: map<Pos, Cell>, tl: Pos, w: int) {
    && w >= 3
    && Row(record, seen, tl.row, tl.col, tl.col + w - 1, '.', '-')
    && Row(record, seen, tl.row + 1, tl.col, tl.col + w - 1, '\'', '-')
  }

  /** What the cylinder has claimed when suspended in `s`, with the next
      cell of the scan at q. */
  ghost predicate Inv(s: State, record: map<Pos, Meta>, seen: map<Pos, Cell>, q: Pos) {
    && Past(seen, q)
    && match s
      case Start => true
      case TopFirst(tl) => q == Pos(tl.col + 1, tl.row) && Took(record, seen, tl, '.')
      case TopRun(tl) =>
        && q.row == tl.row && q.col >= tl.col + 2 && Took(record, seen, tl, '.')
        && Span(record, seen, tl.row, tl.col, q.col, '-')
      case RimNext(tl, w) =>
        w >= 3 && Row(record, seen, tl.row, tl.col, tl.col + w - 1, '.', '-') && q == Pos(tl.col + w, tl.row)
      case RimWait(tl, w, target) =>
        w >= 3 && Row(record, seen, tl.row, tl.col, tl.col + w - 1, '.', '-') && target == Pos(tl.col, tl.row + 1)
      case RimRun(tl, w, n) =>
        && w >= 3 && Row(record, seen, tl.row, tl.col, tl.col + w - 1, '.', '-')
        && Took(record, seen, Pos(tl.col, tl.row + 1), '\'')
        && n <= w - 2 && q == Pos(tl.col + 1 + n, tl.row + 1)
        && Span(record, seen, tl.row + 1, tl.col, tl.col + n + 1, '-')
      case WallNext(tl, w, first) =>
        && Lid(record, seen, tl, w) && q.col == tl.col + w && q.row > tl.row && (first <==> q.row == tl.row + 1)
        && Walls(record, seen, tl.row + 2, q.row, tl.col, tl.col + w - 1, '|')
      case WallWait(tl, w, target, first) =>
        && Lid(record, seen, tl, w) && target.col == tl.col && target.row > tl.row + 1
        && (first <==> target.row == tl.row + 2)
        && Walls(record, seen, tl.row + 2, target.row - 1, tl.col, tl.col + w - 1, '|')
      case LeftWall(tl, w) =>
        && Lid(record, seen, tl, w) && q.col == tl.col + 1 && q.row > tl.row + 1
        && Walls(record, seen, tl.row + 2, q.row - 1, tl.col, tl.col + w - 1, '|')
        && Took(record, seen, Pos(tl.col, q.row), '|')
      case RightWait(tl, w, target) =>
        && Lid(record, seen, tl, w) && target.col == tl.col + w - 1 && target.row > tl.row + 1
        && Walls(record, seen, tl.row + 2, target.row - 1, tl.col, tl.col + w - 1, '|')
        && Took(record, seen, Pos(tl.col, target.row), '|')
      case BaseRun(tl, w, n) =>
        && Lid(record, seen, tl, w) && q.row > tl.row + 2
        && Walls(record, seen, tl.row + 2, q.row - 1, tl.col, tl.col + w - 1, '|')
        && Took(record, seen, Pos(tl.col, q.row), '\'')
        && n <= w - 2 && q.col == tl.col + 1 + n
        && Span(record, seen, q.row, tl.col, tl.col + n + 1, '-')
      case Closing(tl, br) => Drum(record, seen, tl, br)
      case Done(tl, br) => Drum(record, seen, tl, br)
  }

  /** What resuming the cylinder on c must keep: a yield leaves the
      invariant holding at the next cell of the scan, and a return ends
      with a whole cylinder. */
  ghost predicate Kept(r: Outcome<State>, record: map<Pos, Meta>, seen: map<Pos, Cell>, c: Cell) {
    && (r.Yield? ==> Inv(r.next, record[c.At() := r.meta], seen[c.At() := c], Succ(c)))
    && (r.Return? ==> r.final.Done? && Drum(record, seen, r.final.tl, r.final.br))
  }

  lemma StartKept(mode: AwaitMode, s: State, record: map<Pos, Meta>, seen: map<Pos, Cell>, c: Cell)
    requires s.Start? && Inv(s, record, seen, c.At())
    ensures Kept(Step(mode, s, c), record, seen, c)
  {
    var r := Step(mode, s, c);
    if r.Yield? {
      TookStep(record, seen, c, r.meta);
    }
  }

  lemma TopFirstKept(mode: AwaitMode, s: State, record: map<Pos, Meta>, seen: map<Pos, Cell>, c: Cell)
    requires s.TopFirst? && Inv(s, record, seen, c.At())
    ensures Kept(Step(mode, s, c), record, seen, c)
  {
    var r := Step(mode, s, c);
    if r.Yield? {
      TookStep(record, seen, c, r.meta);
    }
  }

  lemma TopRunKept(mode: AwaitMode, s: State, record: map<Pos, Meta>, seen: map<Pos, Cell>, c: Cell)
    requires s.TopRun? && Inv(s, record, seen, c.At())
    ensures Kept(Step(mode, s, c), record, seen, c)
  {
    var r := Step(mode, s, c);
    if r.Yield? {
      TookStep(record, seen, c, r.meta);
    }
  }

  lemma RimNextKept(mode: AwaitMode, s: State, record: map<Pos, Meta>, seen: map<Pos, Cell>, c: Cell)
    requires s.RimNext? && Inv(s, record, seen, c.At())
    ensures Kept(Step(mode, s, c), record, seen, c)
  {
    var r := Step(mode, s, c);
    if r.Yield? {
      TookStep(record, seen, c, r.meta);
      AwaitModesCompared(c, c.At());
    }
  }

  lemma RimWaitKept(mode: AwaitMode, s: State, record: map<Pos, Meta>, seen: map<Pos, Cell>, c: Cell)
    requires s.RimWait? && Inv(s, record, seen, c.At())
    ensures Kept(Step(mode, s, c), record, seen, c)
  {
    var r := Step(mode, s, c);
    if r.Yield? {
      TookStep(record, seen, c, r.meta);
      AwaitModesCompared(c, c.At());
    }
  }

  lemma RimRunKept(mode: AwaitMode, s: State, record: map<Pos, Meta>, seen: map<Pos, Cell>, c: Cell)
    requires s.RimRun? && Inv(s, record, seen, c.At())
    ensures Kept(Step(mode, s, c), record, seen, c)
  {
    var r := Step(mode, s, c);
    if r.Yield? {
      TookStep(record, seen, c, r.meta);
    }
  }

  lemma WallNextKept(mode: AwaitMode, s: State, record: map<Pos, Meta>, seen: map<Pos, Cell>, c: Cell)
    requires s.WallNext? && Inv(s, record, seen, c.At())
    ensures Kept(Step(mode, s, c), record, seen, c)
  {
    var r := Step(mode, s, c);
    if r.Yield? {
      TookStep(record, seen, c, r.meta);
      AwaitModesCompared(c, c.At());
    }
  }

  lemma WallWaitKept(mode: AwaitMode, s: State, record: map<Pos, Meta>, seen: map<Pos, Cell>, c: Cell)
    requires s.WallWait? && Inv(s, record, seen, c.At())
    ensures Kept(Step(mode, s, c), record, seen, c)
  {
    var r := Step(mode, s, c);
    if r.Yield? {
      TookStep(record, seen, c, r.meta);
      AwaitModesCompared(c, c.At());
    }
  }

  lemma LeftWallKept(mode: AwaitMode, s: State, record: map<Pos, Meta>, seen: map<Pos, Cell>, c: Cell)
    requires s.LeftWall? && Inv(s, record, seen, c.At())
    ensures Kept(Step(mode, s, c), record, seen, c)
  {
    var r := Step(mode, s, c);
    if r.Yield? {
      TookStep(record, seen, c, r.meta);
      AwaitModesCompared(c, c.At());
    }
  }

  lemma RightWaitKept(mode: AwaitMode, s: State, record: map<Pos, Meta>, seen: map<Pos, Cell>, c: Cell)
    requires s.RightWait? && Inv(s, record, seen, c.At())
    ensures Kept(Step(mode, s, c), record, seen, c)
  {
    var r := Step(mode, s, c);
    if r.Yield? {
      TookStep(record, seen, c, r.meta);
      AwaitModesCompared(c, c.At());
    }
  }

  lemma BaseRunKept(mode: AwaitMode, s: State, record: map<Pos, Meta>, seen: map<Pos, Cell>, c: Cell)
    requires s.BaseRun? && Inv(s, record, seen, c.At())
    ensures Kept(Step(mode, s, c), record, seen, c)
  {
    var r := Step(mode, s, c);
    if r.Yield? {
      TookStep(record, seen, c, r.meta);
    }
  }

  lemma ClosingKept(mode: AwaitMode, s: State, record: map<Pos, Meta>, seen: map<Pos, Cell>, c: Cell)
    requires (s.Closing? || s.Done?) && Inv(s, record, seen, c.At())
    ensures Kept(Step(mode, s, c), record, seen, c)
  {
  }

  /** One resumption keeps the invariant, and a cylinder ends only whole. */
  lemma StepKeeps(mode: AwaitMode, s: State, record: map<Pos, Meta>, seen: map<Pos, Cell>, c: Cell)
    requires Inv(s, record, seen, c.At())
    ensures Kept(Step(mode, s, c), record, seen, c)
  {
    if s.Start? {
      StartKept(mode, s, record, seen, c);
    } else if s.TopFirst? {
      TopFirstKept(mode, s, record, seen, c);
    } else if s.TopRun? {
      TopRunKept(mode, s, record, seen, c);
    } else if s.RimNext? {
      RimNextKept(mode, s, record, seen, c);
    } else if s.RimWait? {
      RimWaitKept(mode, s, record, seen, c);
    } else if s.RimRun? {
      RimRunKept(mode, s, record, seen, c);
    } else if s.WallNext? {
      WallNextKept(mode, s, record, seen, c);
    } else if s.WallWait? {
      WallWaitKept(mode, s, record, seen, c);
    } else if s.LeftWall? {
      LeftWallKept(mode, s, record, seen, c);
    } else if s.RightWait? {
      RightWaitKept(mode, s, record, seen, c);
    } else if s.BaseRun? {
      BaseRunKept(mode, s, record, seen, c);
    } else {
      ClosingKept(mode, s, record, seen, c);
    }
  }

  /** A cylinder recognized from a run of consecutive scan cells is whole,
      from its top-left '.' at tl to the right quote of its base at br:
      top, rim, at least one row of walls and the base, all of one width
      of at least three columns, each character a cell the cylinder claimed
      and no completed match occupied. */
  lemma Recognized(mode: AwaitMode, cells: seq<Cell>)
    requires Scan(cells)
    ensures var run := Feed(StepOf(mode), Start, cells, map[]);
      run.Completed? ==>
        run.final.Done? && Drum(run.record, Consumed(StepOf(mode), Start, cells, map[]), run.final.tl, run.final.br)
  {
    forall s, record, seen, c: Cell | Inv(s, record, seen, c.At())
      ensures Kept(Step(mode, s, c), record, seen, c)
    {
      StepKeeps(mode, s, record, seen, c);
    }
    FeedKeeps(StepOf(mode), (s, record, seen, q) => Inv(s, record, seen, q),
      (s: State, record, seen) => s.Done? && Drum(record, seen, s.tl, s.br),
      Start, cells, map[], map[]);
  }
}
