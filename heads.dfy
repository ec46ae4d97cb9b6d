/** Arrowheads: '<', '>', 'V'/'v' and '^' at the end of a line, pointing
    along it, optionally into a box. */
module ArrowheadGrammar {
  import opened Flags
  import opened Grid
  import opened PatternBase

  datatype Kind = Left | Right | Down | Up

  /** `flipped` heads point against the line's direction: the line starts
      after them rather than ending at them. */
  datatype Config = Config(chars: seq<char>, lineMeta: Meta, boxMeta: Meta, dashMeta: Meta,
                           xdir: int, ydir: int, flipped: bool)

  function ConfigOf(k: Kind): Config {
    match k
    case Left => Config("<", M_LINE_START_E, M_BOX_AFTER_E, M_DASH_START_E, 1, 0, true)
    case Right => Config(">", M_LINE_AFTER_E, M_BOX_START_E, M_DASH_AFTER_E, 1, 0, false)
    case Down => Config("Vv", M_LINE_AFTER_S, M_BOX_START_S, M_DASH_AFTER_S, 0, 1, false)
    case Up => Config("^", M_LINE_START_S, M_BOX_AFTER_S, M_DASH_START_S, 0, 1, true)
  }

  datatype State =
    | Start
      /** the head at pos is claimed; the current cell starts the wait for
          the next cell along the direction */
    | Anchored(pos: Pos, toBox: bool)
    | Probing(pos: Pos, toBox: bool, target: Pos)
    | Done(pos: Pos, toBox: bool)

  function ProbeAt(mode: AwaitMode, cfg: Config, pos: Pos, toBox: bool, target: Pos, c: Cell): (r: Outcome<State>)
    ensures ClaimsOnlyFree(c, r)
  {
    AwaitThen(mode, c, target, Probing(pos, toBox, target),
      if cfg.flipped then
        (if !Has(c.meta, cfg.lineMeta) then Raise(Rejected) else Return(Done(pos, toBox)))
      else Return(Done(pos, toBox || Has(c.meta, cfg.boxMeta))),
      if cfg.flipped then Raise(NoSuchPosition) else Return(Done(pos, toBox)))
  }

  function Step(mode: AwaitMode, kind: Kind, s: State, c: Cell): (r: Outcome<State>)
    ensures ClaimsOnlyFree(c, r)
  {
    var cfg := ConfigOf(kind);
    match s
    case Start =>
      if Occupied(c) || c.ch !in cfg.chars then Raise(Rejected)
      else if cfg.flipped then Yield(M_OCCUPIED, Anchored(c.At(), Has(c.meta, cfg.boxMeta)))
      else if !Has(c.meta, cfg.lineMeta) then Raise(Rejected)
      else Yield(M_OCCUPIED, Anchored(c.At(), false))
    case Anchored(pos, toBox) => ProbeAt(mode, cfg, pos, toBox, OffsetHere(c, cfg.xdir - 1, cfg.ydir), c)
    case Probing(pos, toBox, target) => ProbeAt(mode, cfg, pos, toBox, target, c)
    case Done(_, _) => Return(s)
  }

  /** The cell a head waits for after it is claimed: the next cell along
      the direction, which for a horizontal head is the very cell that
      resumes it. */
  function Target(kind: Kind, s: State, c: Cell): Pos
    requires s.Anchored? || s.Probing?
  {
    var cfg := ConfigOf(kind);
    if s.Anchored? then OffsetHere(c, cfg.xdir - 1, cfg.ydir) else s.target
  }

  /** An arrowhead needs its line: a head pointing along the line is
      claimed only where a line ends at it, and a head pointing back
      against the line completes only where a line starts in the next
      cell along the direction. */
  lemma HeadNeedsItsLine(mode: AwaitMode, kind: Kind, s: State, c: Cell)
    ensures var cfg := ConfigOf(kind); var r := Step(mode, kind, s, c);
      && (s.Start? && r.Yield? ==> c.ch in cfg.chars && !Occupied(c) && (cfg.flipped || Has(c.meta, cfg.lineMeta)))
      && ((s.Anchored? || s.Probing?) && cfg.flipped && r.Return? ==>
            c.At() == Target(kind, s, c) && Has(c.meta, cfg.lineMeta) && r.final == Done(s.pos, s.toBox))
  {
    AwaitModesCompared(c, if s.Anchored? || s.Probing? then Target(kind, s, c) else Pos(0, 0));
  }

  /** A head pointing along its line points into a box exactly when the
      next cell along the direction starts a box; a head pointing back
      keeps what it found at its own cell, whether it lies just after a
      box. */
  lemma HeadPointsIntoBox(mode: AwaitMode, kind: Kind, s: State, c: Cell)
    requires s.Anchored? || s.Probing?
    requires c.At() == Target(kind, s, c)
    ensures var cfg := ConfigOf(kind); var r := Step(mode, kind, s, c);
      && (!cfg.flipped ==> r == Return(Done(s.pos, s.toBox || Has(c.meta, cfg.boxMeta))))
      && (cfg.flipped ==> r == if Has(c.meta, cfg.lineMeta) then Return(Done(s.pos, s.toBox)) else Raise(Rejected))
  {
    AwaitModesCompared(c, Target(kind, s, c));
  }
}

/** Crow's feet: '<', '>', 'V'/'v' and '^' where a line meets a box,
    marking a many-end of a relationship. */
module CrowsFeetGrammar {
  import opened Flags
  import opened Grid
  import opened PatternBase

  datatype Kind = Left | Right | Up | Down

  /** `startMeta` must be present at the foot, `endMeta` on the next cell
      along the direction. */
  datatype Config = Config(chars: seq<char>, startMeta: Meta, endMeta: Meta, dashMeta: Meta,
                           xdir: int, ydir: int, flipped: bool)

  function ConfigOf(k: Kind): Config {
    match k
    case Left => Config(">", M_BOX_AFTER_E, M_LINE_START_E, M_DASH_START_E, 1, 0, true)
    case Right => Config("<", M_LINE_AFTER_E, M_BOX_START_E, M_DASH_AFTER_E, 1, 0, false)
    case Up => Config("Vv", M_BOX_AFTER_S, M_LINE_START_S, M_DASH_START_S, 0, 1, true)
    case Down => Config("^", M_LINE_AFTER_S, M_BOX_START_S, M_DASH_AFTER_S, 0, 1, false)
  }

  datatype State =
    | Start
    | Anchored(pos: Pos, dashed: bool)
    | Probing(pos: Pos, dashed: bool, target: Pos)
    | Done(pos: Pos, dashed: bool)

  function ProbeAt(mode: AwaitMode, cfg: Config, pos: Pos, dashed: bool, target: Pos, c: Cell): (r: Outcome<State>)
    ensures ClaimsOnlyFree(c, r)
  {
    AwaitThen(mode, c, target, Probing(pos, dashed, target),
      if !Has(c.meta, cfg.endMeta) then Raise(Rejected)
      else Return(Done(pos, dashed || (cfg.flipped && Has(c.meta, cfg.dashMeta)))),
      Raise(NoSuchPosition))
  }

  function Step(mode: AwaitMode, kind: Kind, s: State, c: Cell): (r: Outcome<State>)
    ensures ClaimsOnlyFree(c, r)
  {
    var cfg := ConfigOf(kind);
    match s
    case Start =>
      if Occupied(c) || c.ch !in cfg.chars || !Has(c.meta, cfg.startMeta) then Raise(Rejected)
      else Yield(M_OCCUPIED, Anchored(c.At(), !cfg.flipped && Has(c.meta, cfg.dashMeta)))
    case Anchored(pos, dashed) => ProbeAt(mode, cfg, pos, dashed, OffsetHere(c, cfg.xdir - 1, cfg.ydir), c)
    case Probing(pos, dashed, target) => ProbeAt(mode, cfg, pos, dashed, target, c)
    case Done(_, _) => Return(s)
  }

  /** The cell a foot waits for after it is claimed: the next cell along
      the direction, which for a horizontal foot is the very cell that
      resumes it. */
  function Target(kind: Kind, s: State, c: Cell): Pos
    requires s.Anchored? || s.Probing?
  {
    var cfg := ConfigOf(kind);
    if s.Anchored? then OffsetHere(c, cfg.xdir - 1, cfg.ydir) else s.target
  }

  /** A crow's foot sits between a line and a box: it is claimed only on a
      cell carrying its start flag, and completes only at the next cell
      along the direction when that cell carries its end flag; its line is
      dashed exactly when the line's own end says so. */
  lemma FootJoinsLineAndBox(mode: AwaitMode, kind: Kind, s: State, c: Cell)
    ensures var cfg := ConfigOf(kind); var r := Step(mode, kind, s, c);
      && (s.Start? && r.Yield? ==> c.ch in cfg.chars && Has(c.meta, cfg.startMeta)
                                   && r.next.dashed == (!cfg.flipped && Has(c.meta, cfg.dashMeta)))
      && ((s.Anchored? || s.Probing?) && r.Return? ==>
            && c.At() == Target(kind, s, c) && Has(c.meta, cfg.endMeta) && r.final.pos == s.pos
            && r.final.dashed == (s.dashed || (cfg.flipped && Has(c.meta, cfg.dashMeta))))
  {
    AwaitModesCompared(c, if s.Anchored? || s.Probing? then Target(kind, s, c) else Pos(0, 0));
  }
}
