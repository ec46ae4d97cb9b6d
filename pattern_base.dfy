/** The pattern base class as the recognition engine uses it: a recognizer is
    a resumable state machine fed one scanned cell at a time, and these are
    the helpers every grammar is written with. */
module PatternBase {
  import opened Flags
  import opened Grid
  import CorePattern

  /** Which await_pos a recognizer uses: the engine's own, which gives up only
      once the scan has left the target's row (Legacy), or the later one,
      which gives up as soon as the scan has passed the target (Strict). */
  datatype AwaitMode = Legacy | Strict

  /** The two ways a recognizer can fail: an explicit rejection, or an
      awaited position that can no longer be reached. */
  datatype Exc = Rejected | NoSuchPosition

  /** What one resumption of a recognizer produces: the metadata to record at
      the cell just consumed and the suspended state to resume next; the end
      of the matcher with its final fields; or a failure. */
  datatype Outcome<S> = Yield(meta: Meta, next: S) | Return(final: S) | Raise(exc: Exc)

  /** A recognizer claims a cell (reports M_OCCUPIED for it) only when the
      cell was not already occupied by a completed match. */
  predicate ClaimsOnlyFree<S>(c: Cell, r: Outcome<S>) {
    r.Yield? && Has(r.meta, M_OCCUPIED) ==> !Occupied(c)
  }

  /** `curr = yield expect(chars, meta)`: report `meta` for the current cell
      and suspend in `next` when the cell is not occupied and holds one of
      `chars`; reject otherwise. */
  function Expect<S>(c: Cell, chars: string, meta: Meta, next: S): (r: Outcome<S>)
    ensures r.Yield? <==> !Occupied(c) && c.ch in chars
    ensures r.Yield? ==> r.meta == meta && r.next == next
    ensures !r.Yield? ==> r == Raise(Rejected)
    ensures ClaimsOnlyFree(c, r)
  {
    if Occupied(c) || c.ch !in chars then Raise(Rejected) else Yield(meta, next)
  }

  /** The cell as the later form of the base class sees it: the end-of-input
      character becomes the end-of-input sentinel. */
  function Lift(c: Cell): CorePattern.SymCell {
    CorePattern.SymCell(c.row, c.col,
      if c.ch == END_OF_INPUT then CorePattern.EndOfInput else CorePattern.Char(c.ch), c.meta)
  }

  /** The end-of-input character behaves like the sentinel object under
      expect, for every character set that does not itself contain it. */
  lemma ExpectAgreesWithSentinelForm<S>(c: Cell, chars: string, meta: Meta, next: S)
    requires END_OF_INPUT !in chars
    ensures Expect(c, chars, meta, next) ==
      match CorePattern.Expect(Lift(c), chars, meta)
      case Some(m) => Yield(m, next)
      case None => Raise(Rejected)
  {
  }

  /** The position (x, y) away from the current cell. */
  function OffsetHere(c: Cell, x: int, y: int): (p: Pos)
    ensures p == CorePattern.Offset(x, y, c.At())
  {
    CorePattern.Offset(x, y, c.At())
  }

  /** await_pos as the engine writes it, checked at one cell: arrived at the
      target; given up only once the scan is on a later row than the target,
      or at the end-of-input character; waiting otherwise. */
  function AwaitLegacy(c: Cell, target: Pos): (w: Wait)
    ensures w == Arrived <==> c.At() == target
    ensures w == Unreachable ==> Before(target, c.At()) || c.ch == END_OF_INPUT
    ensures c.At() != target && (target.row < c.row || c.ch == END_OF_INPUT) ==> w == Unreachable
  {
    if c.At() == target then Arrived
    else if c.row > target.row || c.ch == END_OF_INPUT then Unreachable
    else Waiting
  }

  function Await(mode: AwaitMode, c: Cell, target: Pos): (w: Wait)
    ensures w == Arrived <==> c.At() == target
  {
    match mode
    case Legacy => AwaitLegacy(c, target)
    case Strict => CorePattern.Await(Lift(c), target)
  }

  /** The two forms agree on arrival; the strict one gives up whenever the
      legacy one does, and the legacy one waits whenever the strict one does.
      They differ exactly on a target behind the cell on the cell's own row,
      which the legacy form keeps waiting for although no later cell of a
      row-major scan can be it. */
  lemma AwaitModesCompared(c: Cell, target: Pos)
    ensures Await(Legacy, c, target) == Arrived <==> Await(Strict, c, target) == Arrived
    ensures Await(Legacy, c, target) == Unreachable ==> Await(Strict, c, target) == Unreachable
    ensures Await(Legacy, c, target) != Await(Strict, c, target) <==>
      c.ch != END_OF_INPUT && c.row == target.row && target.col < c.col
  {
  }

  /** `for meta in self.await_pos(target): curr = yield meta`, followed by
      whatever the recognizer does on arrival: at the target go on with
      `arrived` on this same cell; before it report M_NONE and suspend in
      `waiting`; once the target cannot be reached any more end with
      `gaveUp` (NoSuchPosition, unless the recognizer catches it). */
  function AwaitThen<S>(mode: AwaitMode, c: Cell, target: Pos, waiting: S, arrived: Outcome<S>, gaveUp: Outcome<S>)
    : (r: Outcome<S>)
    ensures Await(mode, c, target) == Arrived ==> r == arrived
    ensures Await(mode, c, target) == Waiting ==> r == Yield(M_NONE, waiting)
    ensures Await(mode, c, target) == Unreachable ==> r == gaveUp
    ensures ClaimsOnlyFree(c, arrived) && ClaimsOnlyFree(c, gaveUp) ==> ClaimsOnlyFree(c, r)
  {
    match Await(mode, c, target)
    case Arrived => arrived
    case Waiting => Yield(M_NONE, waiting)
    case Unreachable => gaveUp
  }

  /** At every cell past the target on the target's own row (other than the
      end-of-input character) the legacy await keeps waiting for a target
      the scan has already passed, while the strict await gives up. */
  lemma LegacyWaitsForPassedTarget(c: Cell, target: Pos)
    requires c.row == target.row && target.col < c.col && c.ch != END_OF_INPUT
    ensures Before(target, c.At())
    ensures Await(Legacy, c, target) == Waiting
    ensures Await(Strict, c, target) == Unreachable
  {
  }

  /** What a recognizer has done after being fed a run of consecutive cells:
      still suspended, with the metadata it reported for each cell; ended,
      with its final fields and that record; or failed. */
  datatype Run<S> =
    | Running(state: S, record: map<Pos, Meta>)
    | Completed(final: S, record: map<Pos, Meta>)
    | Failed(exc: Exc)

  /** Feed `cells` one by one to a recognizer suspended in `s`, recording the
      metadata it reports at each cell, until it ends or fails. */
  function Feed<S>(step: (S, Cell) -> Outcome<S>, s: S, cells: seq<Cell>, record: map<Pos, Meta>): Run<S>
    decreases |cells|
  {
    if cells == [] then Running(s, record)
    else
      match step(s, cells[0])
      case Yield(m, next) => Feed(step, next, cells[1..], record[cells[0].At() := m])
      case Return(final) => Completed(final, record)
      case Raise(e) => Failed(e)
  }

  /** Feeding a run whose first cell makes the recognizer yield is feeding
      the rest of the run to the state it suspends in. */
  lemma FeedYields<S>(step: (S, Cell) -> Outcome<S>, s: S, cells: seq<Cell>, record: map<Pos, Meta>, m: Meta, next: S)
    requires cells != [] && step(s, cells[0]) == Yield(m, next)
    ensures Feed(step, s, cells, record) == Feed(step, next, cells[1..], record[cells[0].At() := m])
  {
  }

  /** The position the row-major scan visits after cell c: the next column,
      or the start of the next row after an end-of-line character. */
  function Succ(c: Cell): (p: Pos)
    ensures Before(c.At(), p)
  {
    if c.ch == END_OF_LINE then Pos(0, c.row + 1) else Pos(c.col + 1, c.row)
  }

  /** `cells` are consecutive cells of the scan. */
  predicate Scan(cells: seq<Cell>) {
    forall i :: 0 <= i < |cells| - 1 ==> cells[i + 1].At() == Succ(cells[i])
  }

  lemma ScanRest(cells: seq<Cell>)
    requires Scan(cells) && cells != []
    ensures Scan(cells[1..])
    ensures |cells| > 1 ==> cells[1..][0].At() == Succ(cells[0])
  {
    assert forall i :: 0 <= i < |cells| - 1 ==> cells[1..][i] == cells[i + 1];
  }

  /** The cells a recognizer has consumed with a yield, by position, when
      fed `cells` from state `s` after consuming `seen`: the cells whose
      metadata Feed records. */
  function Consumed<S>(step: (S, Cell) -> Outcome<S>, s: S, cells: seq<Cell>, seen: map<Pos, Cell>): map<Pos, Cell>
    decreases |cells|
  {
    if cells == [] then seen
    else
      match step(s, cells[0])
      case Yield(_, next) => Consumed(step, next, cells[1..], seen[cells[0].At() := cells[0]])
      case _ => seen
  }

  /** The record claims p. */
  predicate Claimed(record: map<Pos, Meta>, p: Pos) {
    p in record && Has(record[p], M_OCCUPIED)
  }

  /** The recognizer claimed p, where it consumed a cell holding `ch` that
      no completed match occupied. */
  predicate Took(record: map<Pos, Meta>, seen: map<Pos, Cell>, p: Pos, ch: char) {
    Claimed(record, p) && p in seen && seen[p].ch == ch && !Occupied(seen[p])
  }

  /** Every consumed cell lies before q in the scan. */
  predicate Past(seen: map<Pos, Cell>, q: Pos) {
    forall p :: p in seen ==> Before(p, q)
  }

  /** Consuming cell c with metadata m keeps every earlier claim, adds a
      claim at c when m claims it, and leaves the scan past c. */
  lemma TookStep(record: map<Pos, Meta>, seen: map<Pos, Cell>, c: Cell, m: Meta)
    requires Past(seen, c.At())
    ensures Past(seen[c.At() := c], Succ(c))
    ensures forall p, ch :: Took(record, seen, p, ch) ==> Took(record[c.At() := m], seen[c.At() := c], p, ch)
    ensures Has(m, M_OCCUPIED) && !Occupied(c) ==> Took(record[c.At() := m], seen[c.At() := c], c.At(), c.ch)
  {
    forall p | p in seen[c.At() := c] ensures Before(p, Succ(c)) {
      BeforeIsStrictTotal(p, c.At(), Succ(c));
    }
    forall p, ch | Took(record, seen, p, ch) ensures Took(record[c.At() := m], seen[c.At() := c], p, ch) {
      BeforeIsStrictTotal(p, c.At(), c.At());
    }
  }

  /** Row y from column x0 to column x1 was taken: `end` at both ends and
      `mid` in every column between them. */
  ghost predicate Row(record: map<Pos, Meta>, seen: map<Pos, Cell>, y: int, x0: int, x1: int, end: char, mid: char) {
    && Took(record, seen, Pos(x0, y), end)
    && Took(record, seen, Pos(x1, y), end)
    && Span(record, seen, y, x0, x1, mid)
  }

  /** Row y was taken strictly between columns x0 and x1, with `ch` in
      every column. */
  ghost predicate Span(record: map<Pos, Meta>, seen: map<Pos, Cell>, y: int, x0: int, x1: int, ch: char) {
    forall x :: x0 < x < x1 ==> Took(record, seen, Pos(x, y), ch)
  }

  /** Rows y0..y1 were taken in columns x0 and x1, with `ch` in both. */
  ghost predicate Walls(record: map<Pos, Meta>, seen: map<Pos, Cell>, y0: int, y1: int, x0: int, x1: int, ch: char) {
    forall y :: y0 <= y <= y1 ==> Took(record, seen, Pos(x0, y), ch) && Took(record, seen, Pos(x1, y), ch)
  }

  /** Whatever a recognizer keeps from cell to cell carries it through a
      run of consecutive scan cells: if every resumption at a cell where
      `inv` holds either yields into a state where `inv` holds at the next
      cell or returns with `good`, then a completed run ends with `good`
      of its record and of the cells it consumed. */
  lemma {:induction false} FeedKeeps<S>(step: (S, Cell) -> Outcome<S>,
                                        inv: (S, map<Pos, Meta>, map<Pos, Cell>, Pos) -> bool,
                                        good: (S, map<Pos, Meta>, map<Pos, Cell>) -> bool,
                                        s: S, cells: seq<Cell>, record: map<Pos, Meta>, seen: map<Pos, Cell>)
    requires forall s': S, rec: map<Pos, Meta>, sn: map<Pos, Cell>, c: Cell | inv(s', rec, sn, c.At()) ::
      && (step(s', c).Yield? ==> inv(step(s', c).next, rec[c.At() := step(s', c).meta], sn[c.At() := c], Succ(c)))
      && (step(s', c).Return? ==> good(step(s', c).final, rec, sn))
    requires Scan(cells) && (cells != [] ==> inv(s, record, seen, cells[0].At()))
    ensures var run := Feed(step, s, cells, record);
      run.Completed? ==> good(run.final, run.record, Consumed(step, s, cells, seen))
    decreases |cells|
  {
    if cells != [] {
      var c := cells[0];
      ScanRest(cells);
      match step(s, c)
      case Yield(m, next) =>
        FeedKeeps(step, inv, good, next, cells[1..], record[c.At() := m], seen[c.At() := c]);
      case Return(_) =>
      case Raise(_) =>
    }
  }
}
