/** The recognizer helpers of the pattern base class in its later form, where
    the input is framed by two sentinel objects that are not characters. */
module CorePattern {
  import opened Flags
  import opened Grid

  /** A scanned symbol: a character, or one of the sentinels that mark the
      start and the end of the input. A sentinel answers every
      character-class question with false. */
  datatype Symbol = Char(c: char) | StartOfInput | EndOfInput

  predicate IsSentinel(s: Symbol) {
    !s.Char?
  }

  /** A scanned cell whose content is a symbol. */
  datatype SymCell = SymCell(row: int, col: int, sym: Symbol, meta: Meta) {
    function At(): Pos {
      Pos(col, row)
    }
  }

  /** The sentinels' character-class answers: always false. */
  predicate SymIsSpace(s: Symbol) {
    s.Char? && IsSpace(s.c)
  }

  predicate SymIsAlpha(s: Symbol) {
    s.Char? && IsAlpha(s.c)
  }

  /** Membership of a symbol in a character set; a sentinel, for which
      membership cannot be tested, is in no set. */
  function IsIn(s: Symbol, chars: string): (b: bool)
    ensures b <==> exists k :: 0 <= k < |chars| && s == Char(chars[k])
    ensures IsSentinel(s) ==> !b
  {
    s.Char? && s.c in chars
  }

  /** expect: report `meta` for the current cell when it is not occupied and
      holds one of `chars`; reject it otherwise. */
  function Expect(c: SymCell, chars: string, meta: Meta): (r: Option<Meta>)
    ensures r.Some? <==> !Has(c.meta, M_OCCUPIED) && IsIn(c.sym, chars)
    ensures r.Some? ==> r.value == meta
  {
    if Has(c.meta, M_OCCUPIED) || !IsIn(c.sym, chars) then None else Some(meta)
  }

  /** No character set, however it is written, lets expect accept a sentinel. */
  lemma SentinelsAreNeverExpected(c: SymCell, chars: string, meta: Meta)
    requires IsSentinel(c.sym)
    ensures Expect(c, chars, meta) == None
  {
  }

  /** offset: the position (x, y) away from `from` (the current cell's
      position when no position is given). */
  function Offset(x: int, y: int, from: Pos): (p: Pos)
    ensures p.col - from.col == x && p.row - from.row == y
  {
    Pos(from.col + x, from.row + y)
  }

  /** await_pos, checked at one cell of the scan: arrived when the cell is
      the target; given up when the target lies behind the cell in
      row-major order (earlier row, or same row and smaller column) or the
      cell is the end-of-input sentinel; waiting otherwise. */
  function Await(c: SymCell, target: Pos): (w: Wait)
    ensures w == Arrived <==> c.At() == target
    ensures w == Waiting ==> Before(c.At(), target)
    ensures w == Unreachable ==> Before(target, c.At()) || c.sym == EndOfInput
    ensures c.At() != target && (Before(target, c.At()) || c.sym == EndOfInput) ==> w == Unreachable
  {
    if c.At() == target then Arrived
    else if c.row > target.row || (c.row == target.row && c.col > target.col) || c.sym == EndOfInput
    then Unreachable
    else Waiting
  }
}
