/** The character grid as the recognizers see it: positions, scanned cells
    carrying the metadata visible at scan time, and the row-major scan order. */
module Grid {
  import opened Flags

  datatype Option<T> = None | Some(value: T)

  /** A grid position, column first as the recognizers write it. */
  datatype Pos = Pos(col: int, row: int)

  /** One scanned cell: its row, column, character and the metadata that
      completed matches had written there when the scan reached it. */
  datatype Cell = Cell(row: int, col: int, ch: char, meta: Meta) {
    function At(): Pos {
      Pos(col, row)
    }
  }

  /** Where a wait for a target position stands at the current cell. */
  datatype Wait = Arrived | Waiting | Unreachable

  /** The end-of-input marker appended to the text before it is scanned. */
  const END_OF_INPUT: char := '\0'

  /** The end-of-line marker scanned after every row. */
  const END_OF_LINE: char := '\n'

  predicate Occupied(c: Cell) {
    Has(c.meta, M_OCCUPIED)
  }

  /** Whitespace as a one-character byte string classifies it. */
  predicate IsSpace(ch: char) {
    ch == ' ' || ch == '\t' || ch == '\n' || ch == '\r' || ch == 11 as char || ch == 12 as char
  }

  /** Letters as a one-character byte string classifies them. */
  predicate IsAlpha(ch: char) {
    ('a' <= ch <= 'z') || ('A' <= ch <= 'Z')
  }

  /** `p` comes strictly before `q` in the row-major scan. */
  predicate Before(p: Pos, q: Pos) {
    p.row < q.row || (p.row == q.row && p.col < q.col)
  }

  /** The scan order is a strict total order on positions. */
  lemma BeforeIsStrictTotal(p: Pos, q: Pos, r: Pos)
    ensures !Before(p, p)
    ensures Before(p, q) && Before(q, r) ==> Before(p, r)
    ensures p == q || Before(p, q) || Before(q, p)
  {
  }
}
