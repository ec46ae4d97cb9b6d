/** The pattern catalogue: every recognizer the engine runs, in the order it
    runs them, behind one state type and one step function. */
module Catalog {
  import opened Flags
  import opened Grid
  import opened PatternBase
  import opened Shapes
  import LiteralGrammar
  import LineGrammar
  import BoxGrammar
  import DiamondGrammar
  import CylinderGrammar
  import CornerGrammar
  import ArrowheadGrammar
  import CrowsFeetGrammar
  import TinyCircleGrammar
  import SmallCircleGrammar
  import JumpGrammar

  /** One pattern class. */
  datatype Grammar =
    | DbCylinder | Diamond | Box | SmallCircle | TinyCircle
    | Line(lineKind: LineGrammar.Kind)
    | Corner(shape: CornerGrammar.Shape)
    | Jump(jumpKind: JumpGrammar.Kind)
    | Arrowhead(headKind: ArrowheadGrammar.Kind)
    | CrowsFeet(footKind: CrowsFeetGrammar.Kind)
    | Literal

  /** The pattern classes in the order the engine tries them: larger
      shapes first, lines before their decorations, literal text last. */
  const PATTERNS: seq<Grammar> := [
    DbCylinder, Diamond, Box, SmallCircle, TinyCircle,
    Line(LineGrammar.HorizDashed), Line(LineGrammar.Horiz),
    Line(LineGrammar.Vert), Line(LineGrammar.VertDashed),
    Line(LineGrammar.UpDiag), Line(LineGrammar.UpDiagDashed),
    Line(LineGrammar.DownDiag), Line(LineGrammar.DownDiagDashed),
    Corner(CornerGrammar.Square), Corner(CornerGrammar.Round),
    Jump(JumpGrammar.Left), Jump(JumpGrammar.Right), Jump(JumpGrammar.Up),
    Arrowhead(ArrowheadGrammar.Left), Arrowhead(ArrowheadGrammar.Right),
    Arrowhead(ArrowheadGrammar.Down), Arrowhead(ArrowheadGrammar.Up),
    CrowsFeet(CrowsFeetGrammar.Left), CrowsFeet(CrowsFeetGrammar.Right),
    CrowsFeet(CrowsFeetGrammar.Up), CrowsFeet(CrowsFeetGrammar.Down),
    Literal ]

  /** A suspended recognizer of any class. */
  datatype Machine =
    | CylinderM(cylinder: CylinderGrammar.State)
    | DiamondM(diamond: DiamondGrammar.State)
    | BoxM(box: BoxGrammar.State)
    | SmallCircleM(small: SmallCircleGrammar.State)
    | TinyCircleM(tiny: TinyCircleGrammar.State)
    | LineM(lk: LineGrammar.Kind, line: LineGrammar.State)
    | CornerM(shp: CornerGrammar.Shape, corner: CornerGrammar.State)
    | JumpM(jk: JumpGrammar.Kind, jump: JumpGrammar.State)
    | ArrowheadM(hk: ArrowheadGrammar.Kind, head: ArrowheadGrammar.State)
    | CrowsFeetM(fk: CrowsFeetGrammar.Kind, foot: CrowsFeetGrammar.State)
    | LiteralM(literal: LiteralGrammar.State)

  /** The class a suspended recognizer belongs to. */
  function GrammarOf(m: Machine): Grammar {
    match m
    case CylinderM(_) => DbCylinder
    case DiamondM(_) => Diamond
    case BoxM(_) => Box
    case SmallCircleM(_) => SmallCircle
    case TinyCircleM(_) => TinyCircle
    case LineM(k, _) => Line(k)
    case CornerM(k, _) => Corner(k)
    case JumpM(k, _) => Jump(k)
    case ArrowheadM(k, _) => Arrowhead(k)
    case CrowsFeetM(k, _) => CrowsFeet(k)
    case LiteralM(_) => Literal
  }

  /** A fresh recognizer of class g, before it has seen its anchor cell. */
  function Initial(g: Grammar): (m: Machine)
    ensures GrammarOf(m) == g
  {
    match g
    case DbCylinder => CylinderM(CylinderGrammar.Start)
    case Diamond => DiamondM(DiamondGrammar.Start)
    case Box => BoxM(BoxGrammar.Start)
    case SmallCircle => SmallCircleM(SmallCircleGrammar.Start)
    case TinyCircle => TinyCircleM(TinyCircleGrammar.Start)
    case Line(k) => LineM(k, LineGrammar.Start)
    case Corner(k) => CornerM(k, CornerGrammar.Start)
    case Jump(k) => JumpM(k, JumpGrammar.Start)
    case Arrowhead(k) => ArrowheadM(k, ArrowheadGrammar.Start)
    case CrowsFeet(k) => CrowsFeetM(k, CrowsFeetGrammar.Start)
    case Literal => LiteralM(LiteralGrammar.Start)
  }

  /** A grammar's outcome, with its states wrapped as machines. */
  function Wrap<S>(o: Outcome<S>, f: S -> Machine): (r: Outcome<Machine>)
    ensures r.Yield? <==> o.Yield?
    ensures r.Yield? ==> r.meta == o.meta && r.next == f(o.next)
    ensures r.Return? <==> o.Return?
    ensures r.Return? ==> r.final == f(o.final)
    ensures r.Raise? ==> r.exc == o.exc
  {
    match o
    case Yield(m, next) => Yield(m, f(next))
    case Return(final) => Return(f(final))
    case Raise(e) => Raise(e)
  }

  /** Resume a recognizer of any class on the current cell. It stays in its
      class, and it claims only cells no completed match occupies. */
  function Step(mode: AwaitMode, m: Machine, c: Cell): (r: Outcome<Machine>)
    ensures ClaimsOnlyFree(c, r)
  {
    match m
    case CylinderM(s) => Wrap(CylinderGrammar.Step(mode, s, c), s' => CylinderM(s'))
    case DiamondM(s) => Wrap(DiamondGrammar.Step(mode, s, c), s' => DiamondM(s'))
    case BoxM(s) => Wrap(BoxGrammar.Step(mode, s, c), s' => BoxM(s'))
    case SmallCircleM(s) => Wrap(SmallCircleGrammar.Step(s, c), s' => SmallCircleM(s'))
    case TinyCircleM(s) => Wrap(TinyCircleGrammar.Step(s, c), s' => TinyCircleM(s'))
    case LineM(k, s) => Wrap(LineGrammar.Step(mode, k, s, c), s' => LineM(k, s'))
    case CornerM(k, s) => Wrap(CornerGrammar.Step(mode, k, s, c), s' => CornerM(k, s'))
    case JumpM(k, s) => Wrap(JumpGrammar.Step(mode, k, s, c), s' => JumpM(k, s'))
    case ArrowheadM(k, s) => Wrap(ArrowheadGrammar.Step(mode, k, s, c), s' => ArrowheadM(k, s'))
    case CrowsFeetM(k, s) => Wrap(CrowsFeetGrammar.Step(mode, k, s, c), s' => CrowsFeetM(k, s'))
    case LiteralM(s) => Wrap(LiteralGrammar.Step(s, c), s' => LiteralM(s'))
  }

  /** A recognizer stays in its class from one cell to the next. */
  lemma StepKeepsClass(mode: AwaitMode, m: Machine, c: Cell)
    ensures var r := Step(mode, m, c);
      && (r.Yield? ==> GrammarOf(r.next) == GrammarOf(m))
      && (r.Return? ==> GrammarOf(r.final) == GrammarOf(m))
  {
  }

  /** The drawing of a completed match, for the classes whose geometry is
      part of this model: literal text, straight lines and square corners. */
  function Drawing(m: Machine): (r: seq<Primitive>)
    ensures m.LiteralM? && m.literal.Done? ==> r == [Text(m.literal.pos, m.literal.ch)]
    ensures m.LineM? ==> r == LineGrammar.Render(m.lk, m.line)
    ensures m.CornerM? && m.shp.Square? && m.corner.Done? ==> |r| == |m.corner.ends|
  {
    match m
    case LiteralM(s) => LiteralGrammar.Render(s)
    case LineM(k, s) => LineGrammar.Render(k, s)
    case CornerM(k, s) =>
      if k.Square? && s.Done? then CornerGrammar.RenderSquare(s.pos, s.ends) else []
    case _ => []
  }

  /** Where class g stands in PATTERNS. */
  function Rank(g: Grammar): nat {
    match g
    case DbCylinder => 0
    case Diamond => 1
    case Box => 2
    case SmallCircle => 3
    case TinyCircle => 4
    case Line(k) =>
      (match k
       case HorizDashed => 5 case Horiz => 6 case Vert => 7 case VertDashed => 8
       case UpDiag => 9 case UpDiagDashed => 10 case DownDiag => 11 case DownDiagDashed => 12)
    case Corner(k) => if k.Square? then 13 else 14
    case Jump(k) => (match k case Left => 15 case Right => 16 case Up => 17)
    case Arrowhead(k) => (match k case Left => 18 case Right => 19 case Down => 20 case Up => 21)
    case CrowsFeet(k) => (match k case Left => 22 case Right => 23 case Up => 24 case Down => 25)
    case Literal => 26
  }

  /** PATTERNS lists every class, at its rank, with literal text last so
      that it only takes characters no shape claimed. */
  lemma PatternsListEveryClass(g: Grammar)
    ensures Rank(g) < |PATTERNS| == 27 && PATTERNS[Rank(g)] == g
    ensures PATTERNS[|PATTERNS| - 1] == Literal
  {
  }

  /** Each entry of PATTERNS sits at its own rank. */
  lemma RankOfEachEntry(i: nat)
    requires i < |PATTERNS|
    ensures Rank(PATTERNS[i]) == i
  {
  }

  /** Hence no class is tried twice. */
  lemma PatternsAreDistinct(i: nat, j: nat)
    requires i < j < |PATTERNS|
    ensures PATTERNS[i] != PATTERNS[j]
  {
    RankOfEachEntry(i);
    RankOfEachEntry(j);
  }
}
