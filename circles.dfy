/** Circles: a tiny 'O' standing apart from any word, and a small circle
    written as '(' and ')' at most three columns apart. */
module TinyCircleGrammar {
  import opened Flags
  import opened Grid
  import opened PatternBase

  datatype State =
    | Start
      /** the cell before the ring is not a letter; the current cell must be 'O' */
    | Ring
      /** the ring at pos is claimed; the current cell must not be a letter */
    | After(pos: Pos)
    | Done(pos: Pos)

  function Step(s: State, c: Cell): (r: Outcome<State>)
    ensures ClaimsOnlyFree(c, r)
    ensures s.Start? ==> (r.Yield? <==> !IsAlpha(c.ch))
    ensures s.Ring? ==> (r.Yield? <==> c.ch == 'O' && !Occupied(c)) && (r.Yield? ==> r.next == After(c.At()))
    ensures s.After? ==> (r.Return? <==> !IsAlpha(c.ch)) && (r.Return? ==> r.final == Done(s.pos))
  {
    match s
    case Start => if IsAlpha(c.ch) then Raise(Rejected) else Yield(M_NONE, Ring)
    case Ring => Expect(c, "O", M_OCCUPIED, After(c.At()))
    case After(pos) => if IsAlpha(c.ch) then Raise(Rejected) else Return(Done(pos))
    case Done(_) => Return(s)
  }

  /** Fed three cells, a tiny circle completes exactly when the middle one
      is a free 'O' and neither neighbour is a letter; it then claims the
      'O' alone. */
  lemma {:induction false} RingStandsApart(a: Cell, b: Cell, d: Cell)
    ensures var run := Feed(Step, Start, [a, b, d], map[]);
      && (run.Completed? <==> !IsAlpha(a.ch) && b.ch == 'O' && !Occupied(b) && !IsAlpha(d.ch))
      && (run.Completed? ==> run.final == Done(b.At()) && run.record == map[a.At() := M_NONE][b.At() := M_OCCUPIED])
  {
    var cells := [a, b, d];
    assert cells[1..] == [b, d] && [b, d][1..] == [d] && [d][1..] == [];
    if !IsAlpha(a.ch) {
      FeedYields(Step, Start, cells, map[], M_NONE, Ring);
      var r1 := map[a.At() := M_NONE];
      if b.ch == 'O' && !Occupied(b) {
        assert Step(Ring, b) == Yield(M_OCCUPIED, After(b.At()));
        FeedYields(Step, Ring, [b, d], r1, M_OCCUPIED, After(b.At()));
      } else {
        assert Step(Ring, b) == Raise(Rejected);
      }
    }
  }
}

module SmallCircleGrammar {
  import opened Flags
  import opened Grid
  import opened PatternBase

  /** How many cells after '(' the ')' may be looked for. */
  const MAX_GAP: nat := 3

  datatype State =
    | Start
      /** '(' at column `left` of row y is claimed and n cells after it were
          passed over */
    | Inside(left: int, y: int, n: nat)
      /** ')' at column `right` is claimed; the next cell ends the match */
    | Closing(left: int, right: int, y: int)
    | Done(left: int, right: int, y: int)

  function Step(s: State, c: Cell): (r: Outcome<State>)
    ensures ClaimsOnlyFree(c, r)
  {
    match s
    case Start => Expect(c, "(", M_OCCUPIED, Inside(c.col, c.row, 0))
    case Inside(left, y, n) =>
      if n >= MAX_GAP then Raise(Rejected)
      else if c.ch == ')' then Expect(c, ")", M_OCCUPIED, Closing(left, c.col, y))
      else Yield(M_NONE, Inside(left, y, n + 1))
    case Closing(left, right, y) => Return(Done(left, right, y))
    case Done(_, _, _) => Return(s)
  }

  /** The first ')' among the cells after '(': its index in `cells`, or
      |cells| when there is none. */
  function FirstClose(cells: seq<Cell>): (k: nat)
    ensures k <= |cells|
    ensures k < |cells| ==> cells[k].ch == ')'
    ensures forall j :: 0 <= j < k ==> cells[j].ch != ')'
  {
    if cells == [] || cells[0].ch == ')' then 0 else 1 + FirstClose(cells[1..])
  }

  /** Inside the circle, with n cells already passed over: the match
      completes exactly when a free ')' is the first ')' and comes within
      MAX_GAP - n cells, and then it spans from '(' to that ')'. The cells
      need only reach the one after that ')', or the one that rejects. */
  lemma {:induction false} CloseWithinGap(left: int, y: int, n: nat, cells: seq<Cell>, record: map<Pos, Meta>)
    requires n <= MAX_GAP
    requires |cells| >= if FirstClose(cells) < MAX_GAP - n then FirstClose(cells) + 2 else MAX_GAP - n + 1
    ensures var run := Feed(Step, Inside(left, y, n), cells, record);
      var k := FirstClose(cells);
      && (run.Completed? <==> k < MAX_GAP - n && !Occupied(cells[k]))
      && (run.Completed? ==> run.final == Done(left, cells[k].col, y))
    decreases MAX_GAP - n
  {
    var c := cells[0];
    if n < MAX_GAP && c.ch != ')' {
      assert FirstClose(cells) == 1 + FirstClose(cells[1..]);
      CloseWithinGap(left, y, n + 1, cells[1..], record[c.At() := M_NONE]);
    } else if n < MAX_GAP && !Occupied(c) {
      assert cells[1..][0] == cells[1];
    }
  }

  /** A small circle completes only if a free ')' follows its '(' within
      MAX_GAP cells; it then spans the row from the '(' to the first ')'.
      The cells need only reach the one after that ')', so a circle at the
      very end of the text is covered. */
  lemma SmallCircleSpan(cells: seq<Cell>)
    requires cells != []
    requires |cells| >= if 1 + FirstClose(cells[1..]) <= MAX_GAP then 1 + FirstClose(cells[1..]) + 2 else MAX_GAP + 2
    ensures var run := Feed(Step, Start, cells, map[]);
      var k := 1 + FirstClose(cells[1..]);
      && (run.Completed? <==> cells[0].ch == '(' && !Occupied(cells[0]) && k <= MAX_GAP && !Occupied(cells[k]))
      && (run.Completed? ==> run.final == Done(cells[0].col, cells[k].col, cells[0].row))
  {
    var c := cells[0];
    if c.ch == '(' && !Occupied(c) {
      CloseWithinGap(c.col, c.row, 0, cells[1..], map[c.At() := M_OCCUPIED]);
    }
  }
}

/** Jumps: '(', ')' or '^' where a horizontal and a vertical line cross
    without joining. */
module JumpGrammar {
  import opened Flags
  import opened Grid
  import opened PatternBase

  datatype Kind = Left | Right | Up

  function CharOf(k: Kind): char {
    match k
    case Left => '('
    case Right => ')'
    case Up => '^'
  }

  datatype State =
    | Start
      /** the jump at pos is claimed; waiting for the cell east of it */
    | East(pos: Pos, westDashed: bool, northDashed: bool)
      /** the line east of it was found; waiting for the cell south of it */
    | South(pos: Pos, westDashed: bool, northDashed: bool, eastDashed: bool)
    | Done(pos: Pos, hDashed: bool, vDashed: bool)

  function SouthAt(mode: AwaitMode, pos: Pos, wd: bool, nd: bool, ed: bool, c: Cell): (r: Outcome<State>)
    ensures !r.Yield? || r.meta == M_NONE
  {
    AwaitThen(mode, c, Pos(pos.col, pos.row + 1), South(pos, wd, nd, ed),
      if !Has(c.meta, M_LINE_START_S) then Raise(Rejected)
      else Return(Done(pos, ed && wd, nd && Has(c.meta, M_DASH_START_S))),
      Raise(NoSuchPosition))
  }

  function EastAt(mode: AwaitMode, pos: Pos, wd: bool, nd: bool, c: Cell): (r: Outcome<State>)
    ensures !r.Yield? || r.meta == M_NONE
  {
    AwaitThen(mode, c, Pos(pos.col + 1, pos.row), East(pos, wd, nd),
      if !Has(c.meta, M_LINE_START_E) then Raise(Rejected)
      else SouthAt(mode, pos, wd, nd, Has(c.meta, M_DASH_START_E), c),
      Raise(NoSuchPosition))
  }

  function Step(mode: AwaitMode, kind: Kind, s: State, c: Cell): (r: Outcome<State>)
    ensures ClaimsOnlyFree(c, r)
  {
    match s
    case Start =>
      if c.ch != CharOf(kind) || Occupied(c) || !Has(c.meta, M_LINE_AFTER_E) || !Has(c.meta, M_LINE_AFTER_S)
      then Raise(Rejected)
      else Yield(M_OCCUPIED, East(c.At(), Has(c.meta, M_DASH_AFTER_E), Has(c.meta, M_DASH_AFTER_S)))
    case East(pos, wd, nd) => EastAt(mode, pos, wd, nd, c)
    case South(pos, wd, nd, ed) => SouthAt(mode, pos, wd, nd, ed, c)
    case Done(_, _, _) => Return(s)
  }

  /** A jump is two crossing lines: it is claimed only where a horizontal
      and a vertical line both end, and completes only at the cell below it
      when a vertical line starts there, a horizontal line having started
      east of it; each crossing line is dashed only if both of its halves
      are. */
  lemma JumpCrossesTwoLines(mode: AwaitMode, kind: Kind, s: State, c: Cell)
    ensures var r := Step(mode, kind, s, c);
      && (s.Start? && r.Yield? ==> Has(c.meta, M_LINE_AFTER_E) && Has(c.meta, M_LINE_AFTER_S))
      && (s.East? && r.Yield? && r.next.South? ==>
            && c.At() == Pos(s.pos.col + 1, s.pos.row) && Has(c.meta, M_LINE_START_E)
            && r.next == South(s.pos, s.westDashed, s.northDashed, Has(c.meta, M_DASH_START_E)))
      && (s.South? && r.Return? ==> c.At() == Pos(s.pos.col, s.pos.row + 1) && Has(c.meta, M_LINE_START_S)
                                    && r.final.hDashed == (s.westDashed && s.eastDashed)
                                    && r.final.vDashed == (s.northDashed && Has(c.meta, M_DASH_START_S)))
  {
    if s.South? {
      AwaitModesCompared(c, Pos(s.pos.col, s.pos.row + 1));
    } else if s.East? {
      AwaitModesCompared(c, Pos(s.pos.col + 1, s.pos.row));
    }
  }
}
