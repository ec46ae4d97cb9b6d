/** Straight lines in the eight stroke styles: a run of line characters,
    each one step (xdir, ydir) from the previous, claimed as one match. */
module LineGrammar {
  import opened Flags
  import opened Grid
  import opened PatternBase
  import opened Shapes

  datatype Kind =
    | UpDiag | UpDiagDashed | DownDiag | DownDiagDashed
    | Vert | VertDashed | Horiz | HorizDashed

  /** The per-style class attributes of a line recognizer. */
  datatype Config = Config(
    xdir: int, ydir: int,
    startChars: seq<char>, midChars: seq<char>,
    startMeta: Meta, endMeta: Meta, dashed: bool)

  function ConfigOf(k: Kind): (cfg: Config)
    ensures |cfg.startChars| > 0 && 0 < |cfg.midChars| <= 2
    ensures !Has(cfg.endMeta, M_OCCUPIED)
    ensures END_OF_LINE !in cfg.startChars && END_OF_LINE !in cfg.midChars
    ensures cfg.ydir == 1 || (cfg.ydir == 0 && cfg.xdir == 1)
    ensures -1 <= cfg.xdir <= 1
    ensures |cfg.startChars| > 1 ==> cfg.ydir == 0
    ensures cfg.dashed <==> k in {UpDiagDashed, DownDiagDashed, VertDashed, HorizDashed}
  {
    match k
    case UpDiag =>
      Config(-1, 1, "/", "/", M_LINE_START_SW, M_LINE_AFTER_SW, false)
    case UpDiagDashed =>
      Config(-1, 1, ",", ",", M_LINE_START_SW | M_DASH_START_SW,
        M_LINE_AFTER_SW | M_DASH_AFTER_SW, true)
    case DownDiag =>
      Config(1, 1, "\\", "\\", M_LINE_START_SE, M_LINE_AFTER_SE, false)
    case DownDiagDashed =>
      Config(1, 1, "`", "`", M_LINE_START_SE | M_DASH_START_SE,
        M_LINE_AFTER_SE | M_DASH_AFTER_SE, true)
    case Vert =>
      Config(0, 1, "|", "|", M_LINE_START_S, M_LINE_AFTER_S, false)
    case VertDashed =>
      Config(0, 1, ";", ";", M_LINE_START_S | M_DASH_START_S,
        M_LINE_AFTER_S | M_DASH_AFTER_S, true)
    case Horiz =>
      Config(1, 0, "-", "-", M_LINE_START_E, M_LINE_AFTER_E, false)
    case HorizDashed =>
      Config(1, 0, "- - ", "- ", M_LINE_START_E | M_DASH_START_E,
        M_LINE_AFTER_E | M_DASH_AFTER_E, true)
  }

  datatype State =
    | Start
      /** startChars[..k] are claimed; the current cell must be startChars[k]. */
    | Leading(k: nat, startPos: Pos)
      /** the line character at `pos` was claimed; the current cell starts
          the wait for the next one, which must be midChars[i]. */
    | Next(i: nat, pos: Pos, startPos: Pos)
      /** waiting for `target`, which must hold midChars[i]. */
    | Probing(i: nat, target: Pos, pos: Pos, startPos: Pos)
      /** the end metadata was reported; the next cell ends the match. */
    | Ending(startPos: Pos, endPos: Pos)
    | Done(startPos: Pos, endPos: Pos)

  /** Claim the k-th start character at the current cell. */
  function Lead(cfg: Config, k: nat, c: Cell, startPos: Pos): (r: Outcome<State>)
    requires k < |cfg.startChars|
    ensures ClaimsOnlyFree(c, r)
  {
    var meta := M_OCCUPIED | (if k == 0 then cfg.startMeta else M_NONE);
    var next := if k + 1 < |cfg.startChars| then Leading(k + 1, startPos)
                else Next(0, c.At(), startPos);
    Expect(c, [cfg.startChars[k]], meta, next)
  }

  /** The character at the probed target does not continue the line. */
  predicate Breaks(c: Cell, mid: char) {
    c.ch != mid || Occupied(c) || c.ch == END_OF_INPUT
  }

  /** One cell of the wait for the next line character at `target`. */
  function Probe(mode: AwaitMode, cfg: Config, i: nat, target: Pos, c: Cell, pos: Pos, startPos: Pos)
    : (r: Outcome<State>)
    requires |cfg.midChars| > 0
    requires !Has(cfg.endMeta, M_OCCUPIED)
    ensures ClaimsOnlyFree(c, r)
  {
    var j := i % |cfg.midChars|;
    var mid := cfg.midChars[j];
    match Await(mode, c, target)
    case Waiting => Yield(M_NONE, Probing(i, target, pos, startPos))
    case Unreachable => Return(Done(startPos, pos))
    case Arrived =>
      if Breaks(c, mid) then
        (if j == 0 then Yield(cfg.endMeta, Ending(startPos, pos)) else Raise(Rejected))
      else Expect(c, [mid], M_OCCUPIED, Next((j + 1) % |cfg.midChars|, c.At(), startPos))
  }

  function Step(mode: AwaitMode, kind: Kind, s: State, c: Cell): (r: Outcome<State>)
    ensures ClaimsOnlyFree(c, r)
  {
    var cfg := ConfigOf(kind);
    match s
    case Start => Lead(cfg, 0, c, c.At())
    case Leading(k, startPos) => Lead(cfg, k % |cfg.startChars|, c, startPos)
    case Next(i, pos, startPos) =>
      Probe(mode, cfg, i, OffsetHere(c, cfg.xdir - 1, cfg.ydir), c, pos, startPos)
    case Probing(i, target, pos, startPos) => Probe(mode, cfg, i, target, c, pos, startPos)
    case Ending(startPos, endPos) => Return(Done(startPos, endPos))
    case Done(_, _) => Return(s)
  }

  /** The three ways a line ends at the probed target: a non-continuing
      character where a new repetition of the middle characters would start
      ends the line at the last claimed character, reporting the end
      metadata there; one in the middle of a repetition rejects the line;
      and a target the scan can no longer reach ends the line at once. */
  lemma {:induction false} ProbeOutcomes(mode: AwaitMode, kind: Kind, i: nat, target: Pos, pos: Pos, startPos: Pos, c: Cell, d: Cell)
    requires i < |ConfigOf(kind).midChars|
    ensures var cfg := ConfigOf(kind);
      var r := Step(mode, kind, Probing(i, target, pos, startPos), c);
      && (Await(mode, c, target) == Arrived && Breaks(c, cfg.midChars[i]) && i == 0 ==>
            r == Yield(cfg.endMeta, Ending(startPos, pos))
            && Step(mode, kind, r.next, d) == Return(Done(startPos, pos)))
      && (Await(mode, c, target) == Arrived && Breaks(c, cfg.midChars[i]) && i != 0 ==>
            r == Raise(Rejected))
      && (Await(mode, c, target) == Arrived && !Breaks(c, cfg.midChars[i]) ==>
            r.Yield? && r.meta == M_OCCUPIED && r.next.Next? && r.next.pos == c.At())
      && (Await(mode, c, target) == Unreachable ==> r == Return(Done(startPos, pos)))
  {
    assert i % |ConfigOf(kind).midChars| == i;
  }

  /** The cells of `cells` sit side by side on one row, from column `col`.
      Only the dashes and the cell after them need to: the appended line
      break ends a row, and the line returns on whatever cell comes next. */
  predicate InRow(cells: seq<Cell>, row: int, col: int) {
    forall j :: 0 <= j < |cells| ==> cells[j].row == row && cells[j].col == col + j
  }

  /** A solid dash at cell j that no completed match occupies. */
  predicate FreeDash(cells: seq<Cell>, j: int)
    requires 0 <= j < |cells|
  {
    cells[j].ch == '-' && !Occupied(cells[j])
  }

  /** `record` with columns lo..hi-1 of `row` recorded as M_OCCUPIED, one
      after the other. */
  function ClaimRun(record: map<Pos, Meta>, row: int, lo: int, hi: int): map<Pos, Meta>
    decreases hi - lo
  {
    if lo >= hi then record else ClaimRun(record[Pos(lo, row) := M_OCCUPIED], row, lo + 1, hi)
  }

  /** What ClaimRun records: M_OCCUPIED in columns lo..hi-1 of the row, and
      `record` everywhere else. */
  lemma {:induction false} ClaimRunAt(record: map<Pos, Meta>, row: int, lo: int, hi: int, p: Pos)
    ensures var r := ClaimRun(record, row, lo, hi);
      && (p in r <==> p in record || (p.row == row && lo <= p.col < hi))
      && (p.row == row && lo <= p.col < hi ==> r[p] == M_OCCUPIED)
      && (!(p.row == row && lo <= p.col < hi) && p in record ==> r[p] == record[p])
    decreases hi - lo
  {
    if lo < hi {
      ClaimRunAt(record[Pos(lo, row) := M_OCCUPIED], row, lo + 1, hi, p);
    }
  }

  function HorizStep(mode: AwaitMode): (State, Cell) -> Outcome<State> {
    (s, c) => Step(mode, Horiz, s, c)
  }

  /** One cell of a solid horizontal line after a claimed dash: a free dash
      is claimed and continues the line; anything else ends it at the dash
      before. */
  lemma HorizontalNext(mode: AwaitMode, c: Cell, pos: Pos, startPos: Pos)
    ensures Step(mode, Horiz, Next(0, pos, startPos), c)
         == if c.ch == '-' && !Occupied(c) then Yield(M_OCCUPIED, Next(0, c.At(), startPos))
            else Yield(M_LINE_AFTER_E, Ending(startPos, pos))
  {
    var cfg := ConfigOf(Horiz);
    assert cfg.midChars == "-" && cfg.midChars[0] == '-';
    assert OffsetHere(c, cfg.xdir - 1, cfg.ydir) == c.At();
  }

  /** The cell after the last dash ends a solid horizontal line there. */
  lemma HorizontalRunEnds(mode: AwaitMode, cells: seq<Cell>, row: int, col: int, n: nat, record: map<Pos, Meta>)
    requires 1 <= n && n + 2 <= |cells| && InRow(cells[..n + 1], row, col)
    requires !FreeDash(cells, n)
    ensures Feed(HorizStep(mode), Next(0, Pos(col + n - 1, row), Pos(col, row)), cells[n..], record)
         == Completed(Done(Pos(col, row), Pos(col + n - 1, row)), record[Pos(col + n, row) := M_LINE_AFTER_E])
  {
    var step := HorizStep(mode);
    var c := cells[n];
    var ending := Ending(Pos(col, row), Pos(col + n - 1, row));
    assert cells[n..][0] == c && cells[n..][1..] == cells[n + 1..];
    assert cells[..n + 1][n] == c;
    assert c.At() == Pos(col + n, row);
    HorizontalNext(mode, c, Pos(col + n - 1, row), Pos(col, row));
    FeedYields(step, Next(0, Pos(col + n - 1, row), Pos(col, row)), cells[n..], record, M_LINE_AFTER_E, ending);
    assert cells[n + 1..][0] == cells[n + 1];
    assert step(ending, cells[n + 1]) == Return(Done(Pos(col, row), Pos(col + n - 1, row)));
  }

  /** The middle of a solid horizontal line: resumed after the dash at
      column col + k - 1, it claims dashes k..n-1 and ends at the first cell
      n that does not continue it. */
  lemma {:induction false} HorizontalRunFrom(mode: AwaitMode, cells: seq<Cell>, row: int, col: int,
                                             k: nat, n: nat, record: map<Pos, Meta>)
    requires 1 <= k <= n && n + 2 <= |cells| && InRow(cells[..n + 1], row, col)
    requires forall j :: k <= j < n ==> FreeDash(cells, j)
    requires !FreeDash(cells, n)
    ensures Feed(HorizStep(mode), Next(0, Pos(col + k - 1, row), Pos(col, row)), cells[k..], record)
         == Completed(Done(Pos(col, row), Pos(col + n - 1, row)),
                      ClaimRun(record, row, col + k, col + n)[Pos(col + n, row) := M_LINE_AFTER_E])
    decreases n - k
  {
    if k == n {
      HorizontalRunEnds(mode, cells, row, col, n, record);
    } else {
      var step := HorizStep(mode);
      var c := cells[k];
      assert cells[k..][0] == c && cells[k..][1..] == cells[k + 1..];
      assert cells[..n + 1][k] == c;
      assert c.At() == Pos(col + k, row) && FreeDash(cells, k);
      HorizontalNext(mode, c, Pos(col + k - 1, row), Pos(col, row));
      var s' := Next(0, Pos(col + k, row), Pos(col, row));
      FeedYields(step, Next(0, Pos(col + k - 1, row), Pos(col, row)), cells[k..], record, M_OCCUPIED, s');
      HorizontalRunFrom(mode, cells, row, col, k + 1, n, record[c.At() := M_OCCUPIED]);
    }
  }

  /** A free dash starts a solid horizontal line: it is claimed and
      recorded as the start of a line. */
  lemma HorizontalStart(mode: AwaitMode, c: Cell)
    requires c.ch == '-' && !Occupied(c)
    ensures Step(mode, Horiz, Start, c) == Yield(M_OCCUPIED | M_LINE_START_E, Next(0, c.At(), c.At()))
  {
    var cfg := ConfigOf(Horiz);
    assert cfg.startChars == "-" && cfg.startChars[0] == '-';
  }

  /** The record of a run of n dashes from column `col`: the first dash
      claimed as a line start, the others claimed, the cell after them
      marked as a line end. */
  lemma RunRecordAt(row: int, col: int, n: nat, p: Pos)
    requires 1 <= n
    ensures var record := ClaimRun(map[Pos(col, row) := M_OCCUPIED | M_LINE_START_E], row, col + 1, col + n)
                          [Pos(col + n, row) := M_LINE_AFTER_E];
      && (p in record <==> p.row == row && col <= p.col <= col + n)
      && (p == Pos(col, row) ==> record[p] == M_OCCUPIED | M_LINE_START_E)
      && (p.row == row && col < p.col < col + n ==> record[p] == M_OCCUPIED)
      && (p == Pos(col + n, row) ==> record[p] == M_LINE_AFTER_E)
  {
    ClaimRunAt(map[Pos(col, row) := M_OCCUPIED | M_LINE_START_E], row, col + 1, col + n, p);
  }

  /** A solid horizontal line over a run of n free dashes starting at column
      `col` is matched as exactly that run: it starts at the first dash and
      ends at the last; it records the first dash as claimed and as the
      start of a line, every other dash as claimed, the cell after the last
      dash as the place a line ends, and nothing anywhere else. */
  lemma HorizontalRun(mode: AwaitMode, cells: seq<Cell>, row: int, col: int, n: nat, p: Pos)
    requires 1 <= n && n + 2 <= |cells| && InRow(cells[..n + 1], row, col)
    requires forall j :: 0 <= j < n ==> FreeDash(cells, j)
    requires !FreeDash(cells, n)
    ensures var run := Feed(HorizStep(mode), Start, cells, map[]);
      && run.Completed?
      && run.final == Done(Pos(col, row), Pos(col + n - 1, row))
      && (p in run.record <==> p.row == row && col <= p.col <= col + n)
      && (p == Pos(col, row) ==> run.record[p] == M_OCCUPIED | M_LINE_START_E)
      && (p.row == row && col < p.col < col + n ==> run.record[p] == M_OCCUPIED)
      && (p == Pos(col + n, row) ==> run.record[p] == M_LINE_AFTER_E)
  {
    var step := HorizStep(mode);
    var first := map[Pos(col, row) := M_OCCUPIED | M_LINE_START_E];
    var s' := Next(0, Pos(col, row), Pos(col, row));
    assert cells[..n + 1][0] == cells[0];
    assert cells[0].At() == Pos(col, row) && FreeDash(cells, 0);
    HorizontalStart(mode, cells[0]);
    FeedYields(step, Start, cells, map[], M_OCCUPIED | M_LINE_START_E, s');
    HorizontalRunFrom(mode, cells, row, col, 1, n, first);
    RunRecordAt(row, col, n, p);
  }

  /** Consecutive scan cells stay on the row of the first one, column by
      column, up to and including the first line break. */
  lemma {:induction false} ScanInRow(cells: seq<Cell>, row: int, col: int, m: nat)
    requires Scan(cells) && m < |cells| && cells[0].At() == Pos(col, row)
    requires forall j :: 0 <= j < m ==> cells[j].ch != END_OF_LINE
    ensures InRow(cells[..m + 1], row, col)
  {
    if m > 0 {
      ScanInRow(cells, row, col, m - 1);
      assert cells[..m][m - 1] == cells[m - 1];
      assert cells[m].At() == Succ(cells[m - 1]);
      var prefix, shorter := cells[..m + 1], cells[..m];
      forall j | 0 <= j < |prefix|
        ensures prefix[j].row == row && prefix[j].col == col + j
      {
        if j < m {
          assert prefix[j] == shorter[j];
        }
      }
    }
  }

  /** On any run of consecutive scan cells that starts with n free dashes,
      a solid horizontal line is matched as exactly those dashes, whatever
      follows them; in particular a line whose last dash ends its row
      completes on the first cell of the next row. */
  lemma HorizontalRunOnScan(mode: AwaitMode, cells: seq<Cell>, n: nat)
    requires Scan(cells) && 1 <= n && n + 2 <= |cells|
    requires forall j :: 0 <= j < n ==> FreeDash(cells, j)
    requires !FreeDash(cells, n)
    ensures var run := Feed(HorizStep(mode), Start, cells, map[]);
      && run.Completed?
      && run.final == Done(cells[0].At(), Pos(cells[0].col + n - 1, cells[0].row))
      && Pos(cells[0].col + n, cells[0].row) in run.record
      && run.record[Pos(cells[0].col + n, cells[0].row)] == M_LINE_AFTER_E
  {
    var row, col := cells[0].row, cells[0].col;
    forall j | 0 <= j < n
      ensures cells[j].ch != END_OF_LINE
    {
      assert FreeDash(cells, j);
    }
    ScanInRow(cells, row, col, n);
    HorizontalRun(mode, cells, row, col, n, Pos(col + n, row));
  }

  /** The rendered segment runs from the outer edge of the first character
      to the outer edge of the last along the line's direction, through the
      cell centres across it. */
  function Render(kind: Kind, s: State): (r: seq<Primitive>)
    ensures s.Done? ==> |r| == 1 && r[0].Segment? && r[0].dashed == ConfigOf(kind).dashed
    ensures s.Done? ==> var cfg := ConfigOf(kind);
      && r[0].a.x == s.startPos.col as real + 0.5 - 0.5 * cfg.xdir as real
      && r[0].b.x == s.endPos.col as real + 0.5 + 0.5 * cfg.xdir as real
      && r[0].a.y == s.startPos.row as real + 0.5 - 0.5 * cfg.ydir as real
      && r[0].b.y == s.endPos.row as real + 0.5 + 0.5 * cfg.ydir as real
    ensures !s.Done? ==> r == []
  {
    var cfg := ConfigOf(kind);
    if s.Done? then
      [Segment(
        Point(s.startPos.col as real + 0.5 - 0.5 * cfg.xdir as real,
              s.startPos.row as real + 0.5 - 0.5 * cfg.ydir as real),
        Point(s.endPos.col as real + 0.5 + 0.5 * cfg.xdir as real,
              s.endPos.row as real + 0.5 + 0.5 * cfg.ydir as real),
        cfg.dashed)]
    else []
  }

  /** A horizontal line rendered over the dashes in columns a..b spans
      exactly from the left edge of column a to the right edge of column b,
      along the middle of its row. */
  lemma HorizontalSpan(a: Pos, b: Pos)
    requires a.row == b.row
    ensures var r := Render(Horiz, Done(a, b));
      r[0].a == Point(a.col as real, a.row as real + 0.5)
      && r[0].b == Point(b.col as real + 1.0, a.row as real + 0.5)
  {
  }

  function StepOf(mode: AwaitMode, kind: Kind): (State, Cell) -> Outcome<State> {
    (s, c) => Step(mode, kind, s, c)
  }

  /** The position k steps along the line from its first character. */
  function Along(kind: Kind, startPos: Pos, k: int): Pos {
    var cfg := ConfigOf(kind);
    Pos(startPos.col + k * cfg.xdir, startPos.row + k * cfg.ydir)
  }

  /** How many steps along the line p lies from startPos, read off the
      row for a line that descends and off the column for one that does
      not. */
  function Steps(kind: Kind, startPos: Pos, p: Pos): int {
    if ConfigOf(kind).ydir != 0 then p.row - startPos.row else p.col - startPos.col
  }

  lemma AlongNext(kind: Kind, startPos: Pos, k: int)
    ensures var cfg := ConfigOf(kind); var p := Along(kind, startPos, k);
      Along(kind, startPos, k + 1) == Pos(p.col + cfg.xdir, p.row + cfg.ydir)
    ensures Steps(kind, startPos, Along(kind, startPos, k)) == k
  {
    var cfg := ConfigOf(kind);
    assert (k + 1) * cfg.xdir == k * cfg.xdir + cfg.xdir;
    assert (k + 1) * cfg.ydir == k * cfg.ydir + cfg.ydir;
  }

  /** The k-th character of a line: the start characters, then the middle
      characters over and over. */
  function CharAt(kind: Kind, k: nat): char {
    var cfg := ConfigOf(kind);
    if k < |cfg.startChars| then cfg.startChars[k]
    else cfg.midChars[(k - |cfg.startChars|) % |cfg.midChars|]
  }

  /** Which middle character comes after the n-th character. */
  function NextIndex(kind: Kind, n: int): int
    requires n + 1 >= |ConfigOf(kind).startChars|
  {
    var cfg := ConfigOf(kind);
    (n + 1 - |cfg.startChars|) % |cfg.midChars|
  }

  lemma NextIndexStep(kind: Kind, n: int)
    requires n + 1 >= |ConfigOf(kind).startChars|
    ensures var cfg := ConfigOf(kind);
      && 0 <= NextIndex(kind, n) < |cfg.midChars|
      && CharAt(kind, n + 1) == cfg.midChars[NextIndex(kind, n)]
      && NextIndex(kind, n + 1) == (NextIndex(kind, n) + 1) % |cfg.midChars|
  {
    var m := |ConfigOf(kind).midChars|;
    var a := n + 1 - |ConfigOf(kind).startChars|;
    if m == 1 {
      assert a % 1 == 0 && (a + 1) % 1 == 0;
    } else {
      assert m == 2;
      assert (a + 1) % 2 == (a % 2 + 1) % 2;
    }
  }

  /** The line from startPos to pos: at least as long as its start
      characters, every character on it claimed as the one the style puts
      there, each on a cell no completed match occupied. */
  ghost predicate OnLine(kind: Kind, record: map<Pos, Meta>, seen: map<Pos, Cell>, startPos: Pos, pos: Pos) {
    var n := Steps(kind, startPos, pos);
    && n + 1 >= |ConfigOf(kind).startChars|
    && pos == Along(kind, startPos, n)
    && forall k :: 0 <= k <= n ==> Took(record, seen, Along(kind, startPos, k), CharAt(kind, k))
  }

  /** What the line has claimed when suspended in `s`, with the next cell
      of the scan at q. */
  ghost predicate Inv(kind: Kind, s: State, record: map<Pos, Meta>, seen: map<Pos, Cell>, q: Pos) {
    && Past(seen, q)
    && match s
      case Start => true
      case Leading(k, startPos) =>
        && 1 <= k < |ConfigOf(kind).startChars| && q == Along(kind, startPos, k)
        && forall j :: 0 <= j < k ==> Took(record, seen, Along(kind, startPos, j), CharAt(kind, j))
      case Next(i, pos, startPos) =>
        && OnLine(kind, record, seen, startPos, pos) && i == NextIndex(kind, Steps(kind, startPos, pos))
        && q == Pos(pos.col + 1, pos.row)
      case Probing(i, target, pos, startPos) =>
        && OnLine(kind, record, seen, startPos, pos) && i == NextIndex(kind, Steps(kind, startPos, pos))
        && target == Along(kind, startPos, Steps(kind, startPos, pos) + 1)
      case Ending(startPos, endPos) => OnLine(kind, record, seen, startPos, endPos)
      case Done(startPos, endPos) => OnLine(kind, record, seen, startPos, endPos)
  }

  /** What resuming the line on c must keep: a yield leaves the invariant
      holding at the next cell of the scan, and a return ends with the
      whole line claimed. */
  ghost predicate Kept(kind: Kind, r: Outcome<State>, record: map<Pos, Meta>, seen: map<Pos, Cell>, c: Cell) {
    && (r.Yield? ==> Inv(kind, r.next, record[c.At() := r.meta], seen[c.At() := c], Succ(c)))
    && (r.Return? ==> r.final.Done? && OnLine(kind, record, seen, r.final.startPos, r.final.endPos))
  }

  lemma LeadKept(mode: AwaitMode, kind: Kind, s: State, record: map<Pos, Meta>, seen: map<Pos, Cell>, c: Cell)
    requires (s.Start? || s.Leading?) && Inv(kind, s, record, seen, c.At())
    ensures Kept(kind, Step(mode, kind, s, c), record, seen, c)
  {
    var r := Step(mode, kind, s, c);
    if r.Yield? {
      var startPos := if s.Start? then c.At() else s.startPos;
      var k := if s.Start? then 0 else s.k;
      var cfg := ConfigOf(kind);
      assert k % |cfg.startChars| == k && c.At() == Along(kind, startPos, k);
      assert c.ch == cfg.startChars[k] != END_OF_LINE;
      AlongNext(kind, startPos, k);
      TookStep(record, seen, c, r.meta);
      if k + 1 < |cfg.startChars| {
        assert r.next == Leading(k + 1, startPos);
      } else {
        assert r.next == Next(0, c.At(), startPos);
      }
    }
  }

  /** Consuming a later cell keeps the line claimed so far. */
  lemma OnLineKept(kind: Kind, record: map<Pos, Meta>, seen: map<Pos, Cell>, startPos: Pos, pos: Pos, c: Cell, m: Meta)
    requires Past(seen, c.At()) && OnLine(kind, record, seen, startPos, pos)
    ensures OnLine(kind, record[c.At() := m], seen[c.At() := c], startPos, pos)
  {
    TookStep(record, seen, c, m);
  }

  /** Claiming the next character of the line, one step on, extends it. */
  lemma OnLineExtends(kind: Kind, record: map<Pos, Meta>, seen: map<Pos, Cell>, startPos: Pos, pos: Pos, c: Cell)
    requires Past(seen, c.At()) && OnLine(kind, record, seen, startPos, pos)
    requires c.At() == Along(kind, startPos, Steps(kind, startPos, pos) + 1)
    requires c.ch == CharAt(kind, Steps(kind, startPos, pos) + 1) && !Occupied(c)
    ensures OnLine(kind, record[c.At() := M_OCCUPIED], seen[c.At() := c], startPos, c.At())
  {
    AlongNext(kind, startPos, Steps(kind, startPos, pos) + 1);
    TookStep(record, seen, c, M_OCCUPIED);
  }

  /** The target holds the next character on a free cell: it is claimed
      and the line goes on from it. */
  lemma ProbeClaimsKept(mode: AwaitMode, kind: Kind, i: nat, target: Pos, pos: Pos, startPos: Pos,
                  record: map<Pos, Meta>, seen: map<Pos, Cell>, c: Cell)
    requires Past(seen, c.At()) && OnLine(kind, record, seen, startPos, pos)
    requires i == NextIndex(kind, Steps(kind, startPos, pos))
    requires target == Along(kind, startPos, Steps(kind, startPos, pos) + 1)
    requires Await(mode, c, target) == Arrived && !Breaks(c, ConfigOf(kind).midChars[i % |ConfigOf(kind).midChars|])
    ensures Kept(kind, Probe(mode, ConfigOf(kind), i, target, c, pos, startPos), record, seen, c)
  {
    var cfg := ConfigOf(kind);
    var n := Steps(kind, startPos, pos);
    NextIndexStep(kind, n);
    assert i % |cfg.midChars| == i;
    var next := Next((i + 1) % |cfg.midChars|, c.At(), startPos);
    assert Probe(mode, cfg, i, target, c, pos, startPos) == Yield(M_OCCUPIED, next);
    ExtendedInv(kind, record, seen, startPos, pos, c);
  }

  /** The line claimed one character further, on a free cell holding the
      character its style puts there, suspends with the invariant of the
      wait for the next character. */
  lemma ExtendedInv(kind: Kind, record: map<Pos, Meta>, seen: map<Pos, Cell>, startPos: Pos, pos: Pos, c: Cell)
    requires Past(seen, c.At()) && OnLine(kind, record, seen, startPos, pos)
    requires c.At() == Along(kind, startPos, Steps(kind, startPos, pos) + 1)
    requires c.ch == CharAt(kind, Steps(kind, startPos, pos) + 1) && !Occupied(c) && c.ch != END_OF_LINE
    ensures var n := Steps(kind, startPos, pos);
      Inv(kind, Next(NextIndex(kind, n + 1), c.At(), startPos), record[c.At() := M_OCCUPIED], seen[c.At() := c], Succ(c))
  {
    var n := Steps(kind, startPos, pos);
    OnLineExtends(kind, record, seen, startPos, pos, c);
    AlongNext(kind, startPos, n + 1);
    assert Steps(kind, startPos, c.At()) == n + 1;
    TookStep(record, seen, c, M_OCCUPIED);
  }

  /** Anything else at the target ends the line where it stands, or
      rejects it. */
  lemma ProbeEndsKept(mode: AwaitMode, kind: Kind, i: nat, target: Pos, pos: Pos, startPos: Pos,
                  record: map<Pos, Meta>, seen: map<Pos, Cell>, c: Cell)
    requires Past(seen, c.At()) && OnLine(kind, record, seen, startPos, pos)
    requires i == NextIndex(kind, Steps(kind, startPos, pos))
    requires target == Along(kind, startPos, Steps(kind, startPos, pos) + 1)
    requires Await(mode, c, target) == Arrived && Breaks(c, ConfigOf(kind).midChars[i % |ConfigOf(kind).midChars|])
    ensures Kept(kind, Probe(mode, ConfigOf(kind), i, target, c, pos, startPos), record, seen, c)
  {
    OnLineKept(kind, record, seen, startPos, pos, c, ConfigOf(kind).endMeta);
    TookStep(record, seen, c, ConfigOf(kind).endMeta);
  }

  /** Before the target the line waits; past it, it ends. */
  lemma ProbeWaitsKept(mode: AwaitMode, kind: Kind, i: nat, target: Pos, pos: Pos, startPos: Pos,
                  record: map<Pos, Meta>, seen: map<Pos, Cell>, c: Cell)
    requires Past(seen, c.At()) && OnLine(kind, record, seen, startPos, pos)
    requires i == NextIndex(kind, Steps(kind, startPos, pos))
    requires target == Along(kind, startPos, Steps(kind, startPos, pos) + 1)
    requires Await(mode, c, target) != Arrived
    ensures Kept(kind, Probe(mode, ConfigOf(kind), i, target, c, pos, startPos), record, seen, c)
  {
    OnLineKept(kind, record, seen, startPos, pos, c, M_NONE);
    TookStep(record, seen, c, M_NONE);
  }

  /** The wait for the next character at the target one step on. */
  lemma ProbeKept(mode: AwaitMode, kind: Kind, i: nat, target: Pos, pos: Pos, startPos: Pos,
                  record: map<Pos, Meta>, seen: map<Pos, Cell>, c: Cell)
    requires Past(seen, c.At()) && OnLine(kind, record, seen, startPos, pos)
    requires i == NextIndex(kind, Steps(kind, startPos, pos))
    requires target == Along(kind, startPos, Steps(kind, startPos, pos) + 1)
    ensures Kept(kind, Probe(mode, ConfigOf(kind), i, target, c, pos, startPos), record, seen, c)
  {
    NextIndexStep(kind, Steps(kind, startPos, pos));
    if Await(mode, c, target) != Arrived {
      ProbeWaitsKept(mode, kind, i, target, pos, startPos, record, seen, c);
    } else if Breaks(c, ConfigOf(kind).midChars[i % |ConfigOf(kind).midChars|]) {
      ProbeEndsKept(mode, kind, i, target, pos, startPos, record, seen, c);
    } else {
      ProbeClaimsKept(mode, kind, i, target, pos, startPos, record, seen, c);
    }
  }

  lemma NextKept(mode: AwaitMode, kind: Kind, s: State, record: map<Pos, Meta>, seen: map<Pos, Cell>, c: Cell)
    requires (s.Next? || s.Probing?) && Inv(kind, s, record, seen, c.At())
    ensures Kept(kind, Step(mode, kind, s, c), record, seen, c)
  {
    var cfg := ConfigOf(kind);
    var target := if s.Next? then OffsetHere(c, cfg.xdir - 1, cfg.ydir) else s.target;
    AlongNext(kind, s.startPos, Steps(kind, s.startPos, s.pos));
    ProbeKept(mode, kind, s.i, target, s.pos, s.startPos, record, seen, c);
  }

  /** One resumption keeps the invariant, and a line ends only with every
      character of it claimed. */
  lemma StepKeeps(mode: AwaitMode, kind: Kind, s: State, record: map<Pos, Meta>, seen: map<Pos, Cell>, c: Cell)
    requires Inv(kind, s, record, seen, c.At())
    ensures Kept(kind, Step(mode, kind, s, c), record, seen, c)
  {
    if s.Start? || s.Leading? {
      LeadKept(mode, kind, s, record, seen, c);
    } else if s.Next? || s.Probing? {
      NextKept(mode, kind, s, record, seen, c);
    }
  }

  /** A line of any style recognized from a run of consecutive scan cells
      runs from its first character at startPos, one step (xdir, ydir) at
      a time, to its last at endPos; it is at least as long as its start
      characters, and every character on it is the one the style puts
      there (the start characters, then the middle characters over and
      over), claimed on a cell no completed match occupied. */
  lemma Recognized(mode: AwaitMode, kind: Kind, cells: seq<Cell>)
    requires Scan(cells)
    ensures var run := Feed(StepOf(mode, kind), Start, cells, map[]);
      run.Completed? ==>
        && run.final.Done?
        && OnLine(kind, run.record, Consumed(StepOf(mode, kind), Start, cells, map[]), run.final.startPos, run.final.endPos)
  {
    forall s, record, seen, c: Cell | Inv(kind, s, record, seen, c.At())
      ensures Kept(kind, Step(mode, kind, s, c), record, seen, c)
    {
      StepKeeps(mode, kind, s, record, seen, c);
    }
    FeedKeeps(StepOf(mode, kind), (s, record, seen, q) => Inv(kind, s, record, seen, q),
      (s: State, record, seen) => s.Done? && OnLine(kind, record, seen, s.startPos, s.endPos),
      Start, cells, map[], map[]);
  }
}
