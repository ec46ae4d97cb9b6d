/** Diamonds: rows of '/' and '\' widening by one column on each side from
    a '/\' apex, then narrowing again to a '\/' base. */
module DiamondGrammar {
  import opened Flags
  import opened Grid
  import opened PatternBase

  datatype State =
    | Start
      /** the apex '/' at `apex` is claimed; the current cell must be '\' */
    | Apex(apex: Pos)
      /** the upper half has r + 1 rows; the current cell, just after the
          right edge, starts the probe for the next row's '/' */
    | UpperNext(apex: Pos, r: nat)
    | UpperProbe(apex: Pos, r: nat, target: Pos)
      /** the '/' of upper row r was claimed; the current cell starts the
          wait for that row's '\' */
    | UpperRight(apex: Pos, r: nat)
    | UpperRightWait(apex: Pos, r: nat, target: Pos)
      /** the upper half ended with top + 1 rows: waiting for the first '\'
          of the lower half, one column right of the last '/' */
    | Turn(apex: Pos, top: nat)
      /** the '\' of a lower row with r rows below it is claimed; the
          current cell starts the wait for that row's '/' */
    | LowerRight(apex: Pos, top: nat, r: nat)
    | LowerRightWait(apex: Pos, top: nat, r: nat, target: Pos)
      /** the '/' of a lower row is claimed and the next row has r rows
          below it; the current cell starts the wait for its '\' */
    | LowerNext(apex: Pos, top: nat, r: nat)
    | LowerNextWait(apex: Pos, top: nat, r: nat, target: Pos)
      /** the bottom '/' was claimed; the next cell ends the match */
    | Closing(apex: Pos, top: nat)
    | Done(tl: Pos, br: Pos)

  /** The bounding square of a diamond whose upper half has top + 1 rows,
      from its apex '/': 2 * top + 2 columns and rows. */
  function Bounds(apex: Pos, top: nat): (d: State)
    ensures d.Done? && d.tl.row == apex.row
    ensures d.br.col - d.tl.col == d.br.row - d.tl.row == 2 * top + 1
    ensures d.tl.col + d.br.col == 2 * apex.col + 1
  {
    var w := top * 2 + 2;
    var h := (top + 1) * 2;
    Done(Pos(apex.col - (w / 2 - 1), apex.row), Pos(apex.col + w / 2, apex.row + (h - 1)))
  }

  /** The upper half stops growing: wait for the first lower '\'. */
  function TurnAt(mode: AwaitMode, apex: Pos, top: nat, c: Cell): (r: Outcome<State>)
    ensures ClaimsOnlyFree(c, r)
  {
    AwaitThen(mode, c, Pos(apex.col - top, apex.row + top + 1), Turn(apex, top),
      Expect(c, "\\", M_OCCUPIED, LowerRight(apex, top, top)), Raise(NoSuchPosition))
  }

  function UpperProbeAt(mode: AwaitMode, apex: Pos, r: nat, target: Pos, c: Cell): (o: Outcome<State>)
    ensures ClaimsOnlyFree(c, o)
  {
    match Await(mode, c, target)
    case Waiting => Yield(M_NONE, UpperProbe(apex, r, target))
    case Unreachable => TurnAt(mode, apex, r, c)
    case Arrived =>
      if c.ch != '/' then TurnAt(mode, apex, r, c)
      else Expect(c, "/", M_OCCUPIED, UpperRight(apex, r + 1))
  }

  function UpperRightAt(mode: AwaitMode, apex: Pos, r: nat, target: Pos, c: Cell): (o: Outcome<State>)
    ensures ClaimsOnlyFree(c, o)
  {
    AwaitThen(mode, c, target, UpperRightWait(apex, r, target),
      Expect(c, "\\", M_OCCUPIED, UpperNext(apex, r)), Raise(NoSuchPosition))
  }

  function LowerRightAt(mode: AwaitMode, apex: Pos, top: nat, r: nat, target: Pos, c: Cell): (o: Outcome<State>)
    ensures ClaimsOnlyFree(c, o)
  {
    AwaitThen(mode, c, target, LowerRightWait(apex, top, r, target),
      Expect(c, "/", M_OCCUPIED, if r == 0 then Closing(apex, top) else LowerNext(apex, top, r - 1)),
      Raise(NoSuchPosition))
  }

  function LowerNextAt(mode: AwaitMode, apex: Pos, top: nat, r: nat, target: Pos, c: Cell): (o: Outcome<State>)
    ensures ClaimsOnlyFree(c, o)
  {
    AwaitThen(mode, c, target, LowerNextWait(apex, top, r, target),
      Expect(c, "\\", M_OCCUPIED, LowerRight(apex, top, r)),
      Raise(NoSuchPosition))
  }

  function Step(mode: AwaitMode, s: State, c: Cell): (o: Outcome<State>)
    ensures ClaimsOnlyFree(c, o)
    ensures o.Return? && !s.Done? ==> s.Closing? && o.final == Bounds(s.apex, s.top)
  {
    match s
    case Start => Expect(c, "/", M_OCCUPIED, Apex(c.At()))
    case Apex(apex) => Expect(c, "\\", M_OCCUPIED, UpperNext(apex, 0))
    case UpperNext(apex, r) => UpperProbeAt(mode, apex, r, OffsetHere(c, -(r * 2 + 2 + 1), 1), c)
    case UpperProbe(apex, r, target) => UpperProbeAt(mode, apex, r, target, c)
    case UpperRight(apex, r) => UpperRightAt(mode, apex, r, OffsetHere(c, r * 2, 0), c)
    case UpperRightWait(apex, r, target) => UpperRightAt(mode, apex, r, target, c)
    case Turn(apex, top) => TurnAt(mode, apex, top, c)
    case LowerRight(apex, top, r) => LowerRightAt(mode, apex, top, r, OffsetHere(c, r * 2, 0), c)
    case LowerRightWait(apex, top, r, target) => LowerRightAt(mode, apex, top, r, target, c)
    case LowerNext(apex, top, r) => LowerNextAt(mode, apex, top, r, OffsetHere(c, -((r + 1) * 2 + 2 - 1), 1), c)
    case LowerNextWait(apex, top, r, target) => LowerNextAt(mode, apex, top, r, target, c)
    case Closing(apex, top) => Return(Bounds(apex, top))
    case Done(_, _) => Return(s)
  }

  function StepOf(mode: AwaitMode): (State, Cell) -> Outcome<State> {
    (s, c) => Step(mode, s, c)
  }

  /** Where the '/' and the '\' of upper row k stand, k rows below the
      apex '/' at a. */
  function UpSlash(a: Pos, k: int): Pos {
    Pos(a.col - k, a.row + k)
  }

  function UpBack(a: Pos, k: int): Pos {
    Pos(a.col + 1 + k, a.row + k)
  }

  /** Where the '\' and the '/' of lower row j stand, in a diamond whose
      upper half has top + 1 rows. */
  function LowBack(a: Pos, top: int, j: int): Pos {
    Pos(a.col - top + j, a.row + top + 1 + j)
  }

  function LowSlash(a: Pos, top: int, j: int): Pos {
    Pos(a.col + 1 + top - j, a.row + top + 1 + j)
  }

  /** Upper rows 0..r were taken. */
  ghost predicate Upper(record: map<Pos, Meta>, seen: map<Pos, Cell>, a: Pos, r: int) {
    forall k :: 0 <= k <= r ==> Took(record, seen, UpSlash(a, k), '/') && Took(record, seen, UpBack(a, k), '\\')
  }

  /** Lower rows 0..m-1 were taken. */
  ghost predicate Lower(record: map<Pos, Meta>, seen: map<Pos, Cell>, a: Pos, top: int, m: int) {
    forall j :: 0 <= j < m ==> Took(record, seen, LowBack(a, top, j), '\\') && Took(record, seen, LowSlash(a, top, j), '/')
  }

  /** A whole diamond from its bounds: the apex '/' is the top-left
      corner's column plus half the width, and every '/' and '\' of both
      halves was claimed on a cell no completed match occupied. */
  ghost predicate Drawn(record: map<Pos, Meta>, seen: map<Pos, Cell>, tl: Pos, br: Pos) {
    var top := (br.col - tl.col - 1) / 2;
    var apex := Pos(tl.col + top, tl.row);
    && top >= 0 && Bounds(apex, top) == Done(tl, br)
    && Upper(record, seen, apex, top) && Lower(record, seen, apex, top, top + 1)
  }

  /** What the diamond has claimed when suspended in `s`, with the next cell
      of the scan at q. */
  ghost predicate Inv(s: State, record: map<Pos, Meta>, seen: map<Pos, Cell>, q: Pos) {
    && Past(seen, q)
    && match s
      case Start => true
      case Apex(a) => q == Pos(a.col + 1, a.row) && Took(record, seen, a, '/')
      case UpperNext(a, r) => Upper(record, seen, a, r) && q == Pos(a.col + 2 + r, a.row + r)
      case UpperProbe(a, r, target) => Upper(record, seen, a, r) && target == UpSlash(a, r + 1)
      case UpperRight(a, r) =>
        && r >= 1 && Upper(record, seen, a, r - 1) && Took(record, seen, UpSlash(a, r), '/')
        && q == Pos(a.col - r + 1, a.row + r)
      case UpperRightWait(a, r, target) =>
        && r >= 1 && Upper(record, seen, a, r - 1) && Took(record, seen, UpSlash(a, r), '/')
        && target == UpBack(a, r)
      case Turn(a, top) => Upper(record, seen, a, top)
      case LowerRight(a, top, r) =>
        && r <= top && Upper(record, seen, a, top) && Lower(record, seen, a, top, top - r)
        && Took(record, seen, LowBack(a, top, top - r), '\\')
        && q == Pos(a.col - r + 1, a.row + 2 * top + 1 - r)
      case LowerRightWait(a, top, r, target) =>
        && r <= top && Upper(record, seen, a, top) && Lower(record, seen, a, top, top - r)
        && Took(record, seen, LowBack(a, top, top - r), '\\')
        && target == LowSlash(a, top, top - r)
      case LowerNext(a, top, r) =>
        && r < top && Upper(record, seen, a, top) && Lower(record, seen, a, top, top - r)
        && q == Pos(a.col + 3 + r, a.row + 2 * top - r)
      case LowerNextWait(a, top, r, target) =>
        && r < top && Upper(record, seen, a, top) && Lower(record, seen, a, top, top - r)
        && target == LowBack(a, top, top - r)
      case Closing(a, top) => Upper(record, seen, a, top) && Lower(record, seen, a, top, top + 1)
      case Done(tl, br) => Drawn(record, seen, tl, br)
  }

  /** What resuming the diamond on c must keep: a yield leaves the
      invariant holding at the next cell of the scan, and a return ends
      with a whole diamond. */
  ghost predicate Kept(r: Outcome<State>, record: map<Pos, Meta>, seen: map<Pos, Cell>, c: Cell) {
    && (r.Yield? ==> Inv(r.next, record[c.At() := r.meta], seen[c.At() := c], Succ(c)))
    && (r.Return? ==> r.final.Done? && Drawn(record, seen, r.final.tl, r.final.br))
  }

  lemma StartKept(mode: AwaitMode, s: State, record: map<Pos, Meta>, seen: map<Pos, Cell>, c: Cell)
    requires s.Start? && Inv(s, record, seen, c.At())
    ensures Kept(Step(mode, s, c), record, seen, c)
  {
    var r := Step(mode, s, c);
    if r.Yield? {
      TookStep(record, seen, c, r.meta);
    }
  }

  lemma ApexKept(mode: AwaitMode, s: State, record: map<Pos, Meta>, seen: map<Pos, Cell>, c: Cell)
    requires s.Apex? && Inv(s, record, seen, c.At())
    ensures Kept(Step(mode, s, c), record, seen, c)
  {
    var r := Step(mode, s, c);
    if r.Yield? {
      TookStep(record, seen, c, r.meta);
    }
  }

  lemma UpperNextKept(mode: AwaitMode, s: State, record: map<Pos, Meta>, seen: map<Pos, Cell>, c: Cell)
    requires s.UpperNext? && Inv(s, record, seen, c.At())
    ensures Kept(Step(mode, s, c), record, seen, c)
  {
    var r := Step(mode, s, c);
    if r.Yield? {
      TookStep(record, seen, c, r.meta);
    }
  }

  /** The turn to the lower half, from an upper half of top + 1 rows. */
  lemma TurnAtKept(mode: AwaitMode, a: Pos, top: nat, record: map<Pos, Meta>, seen: map<Pos, Cell>, c: Cell)
    requires Past(seen, c.At()) && Upper(record, seen, a, top)
    ensures Kept(TurnAt(mode, a, top, c), record, seen, c)
  {
    var r := TurnAt(mode, a, top, c);
    if r.Yield? {
      TookStep(record, seen, c, r.meta);
    }
  }

  lemma UpperProbeKept(mode: AwaitMode, s: State, record: map<Pos, Meta>, seen: map<Pos, Cell>, c: Cell)
    requires s.UpperProbe? && Inv(s, record, seen, c.At())
    ensures Kept(Step(mode, s, c), record, seen, c)
  {
    var w := Await(mode, c, s.target);
    if w == Arrived && c.ch == '/' {
      TookStep(record, seen, c, M_OCCUPIED);
    } else if w == Waiting {
      TookStep(record, seen, c, M_NONE);
    } else {
      TurnAtKept(mode, s.apex, s.r, record, seen, c);
    }
  }

  lemma UpperRightKept(mode: AwaitMode, s: State, record: map<Pos, Meta>, seen: map<Pos, Cell>, c: Cell)
    requires s.UpperRight? && Inv(s, record, seen, c.At())
    ensures Kept(Step(mode, s, c), record, seen, c)
  {
    var r := Step(mode, s, c);
    if r.Yield? {
      TookStep(record, seen, c, r.meta);
    }
  }

  lemma UpperRightWaitKept(mode: AwaitMode, s: State, record: map<Pos, Meta>, seen: map<Pos, Cell>, c: Cell)
    requires s.UpperRightWait? && Inv(s, record, seen, c.At())
    ensures Kept(Step(mode, s, c), record, seen, c)
  {
    var r := Step(mode, s, c);
    if r.Yield? {
      TookStep(record, seen, c, r.meta);
    }
  }

  lemma TurnKept(mode: AwaitMode, s: State, record: map<Pos, Meta>, seen: map<Pos, Cell>, c: Cell)
    requires s.Turn? && Inv(s, record, seen, c.At())
    ensures Kept(Step(mode, s, c), record, seen, c)
  {
    TurnAtKept(mode, s.apex, s.top, record, seen, c);
  }

  lemma LowerRightKept(mode: AwaitMode, s: State, record: map<Pos, Meta>, seen: map<Pos, Cell>, c: Cell)
    requires s.LowerRight? && Inv(s, record, seen, c.At())
    ensures Kept(Step(mode, s, c), record, seen, c)
  {
    var r := Step(mode, s, c);
    if r.Yield? {
      TookStep(record, seen, c, r.meta);
    }
  }

  lemma LowerRightWaitKept(mode: AwaitMode, s: State, record: map<Pos, Meta>, seen: map<Pos, Cell>, c: Cell)
    requires s.LowerRightWait? && Inv(s, record, seen, c.At())
    ensures Kept(Step(mode, s, c), record, seen, c)
  {
    var r := Step(mode, s, c);
    if r.Yield? {
      TookStep(record, seen, c, r.meta);
    }
  }

  lemma LowerNextKept(mode: AwaitMode, s: State, record: map<Pos, Meta>, seen: map<Pos, Cell>, c: Cell)
    requires s.LowerNext? && Inv(s, record, seen, c.At())
    ensures Kept(Step(mode, s, c), record, seen, c)
  {
    var r := Step(mode, s, c);
    if r.Yield? {
      TookStep(record, seen, c, r.meta);
    }
  }

  lemma LowerNextWaitKept(mode: AwaitMode, s: State, record: map<Pos, Meta>, seen: map<Pos, Cell>, c: Cell)
    requires s.LowerNextWait? && Inv(s, record, seen, c.At())
    ensures Kept(Step(mode, s, c), record, seen, c)
  {
    var r := Step(mode, s, c);
    if r.Yield? {
      TookStep(record, seen, c, r.meta);
    }
  }

  lemma ClosingKept(mode: AwaitMode, s: State, record: map<Pos, Meta>, seen: map<Pos, Cell>, c: Cell)
    requires (s.Closing? || s.Done?) && Inv(s, record, seen, c.At())
    ensures Kept(Step(mode, s, c), record, seen, c)
  {
  }

  /** One resumption keeps the invariant, and a diamond ends only whole. */
  lemma StepKeeps(mode: AwaitMode, s: State, record: map<Pos, Meta>, seen: map<Pos, Cell>, c: Cell)
    requires Inv(s, record, seen, c.At())
    ensures Kept(Step(mode, s, c), record, seen, c)
  {
    if s.Start? {
      StartKept(mode, s, record, seen, c);
    } else if s.Apex? {
      ApexKept(mode, s, record, seen, c);
    } else if s.UpperNext? {
      UpperNextKept(mode, s, record, seen, c);
    } else if s.UpperProbe? {
      UpperProbeKept(mode, s, record, seen, c);
    } else if s.UpperRight? {
      UpperRightKept(mode, s, record, seen, c);
    } else if s.UpperRightWait? {
      UpperRightWaitKept(mode, s, record, seen, c);
    } else if s.Turn? {
      TurnKept(mode, s, record, seen, c);
    } else if s.LowerRight? {
      LowerRightKept(mode, s, record, seen, c);
    } else if s.LowerRightWait? {
      LowerRightWaitKept(mode, s, record, seen, c);
    } else if s.LowerNext? {
      LowerNextKept(mode, s, record, seen, c);
    } else if s.LowerNextWait? {
      LowerNextWaitKept(mode, s, record, seen, c);
    } else {
      ClosingKept(mode, s, record, seen, c);
    }
  }

  /** A diamond recognized from a run of consecutive scan cells is whole:
      its bounds are those of an apex '/' and a height, and every '/' and
      '\' of its upper and lower halves is a cell the diamond claimed and
      no completed match occupied. */
  lemma Recognized(mode: AwaitMode, cells: seq<Cell>)
    requires Scan(cells)
    ensures var run := Feed(StepOf(mode), Start, cells, map[]);
      run.Completed? ==>
        run.final.Done? && Drawn(run.record, Consumed(StepOf(mode), Start, cells, map[]), run.final.tl, run.final.br)
  {
    forall s, record, seen, c: Cell | Inv(s, record, seen, c.At())
      ensures Kept(Step(mode, s, c), record, seen, c)
    {
      StepKeeps(mode, s, record, seen, c);
    }
    FeedKeeps(StepOf(mode), (s, record, seen, q) => Inv(s, record, seen, q),
      (s: State, record, seen) => s.Done? && Drawn(record, seen, s.tl, s.br),
      Start, cells, map[], map[]);
  }
}
