/**
 * The shape kinds a wall or an obstacle can take, their area formulas, and
 * the raw form values the measurement checks read.
 *
 * toolbox/wall.py and toolbox/obstacle.py each declare an identical `Shape`
 * enum whose members are the area lambdas; both are modelled by the one
 * datatype below, dispatched through `Area`.
 */
module Shapes {

  type PosReal = r: real | r > 0.0 witness 1.0

  /** π. The source uses the float `math.pi`; here it is only known to be positive. */
  const Pi: PosReal

  datatype Shape = Square | Rectangle | Parallelogram | Trapezoid | Triangle | Ellipse | Circle | Semicircle

  /**
   * How many dimensions the area formula of a shape takes: the three groups
   * the details views dispatch on.
   */
  function Arity(s: Shape): (n: nat)
    ensures 1 <= n <= 3
  {
    match s
    case Square | Circle | Semicircle => 1
    case Rectangle | Parallelogram | Triangle | Ellipse => 2
    case Trapezoid => 3
  }

  /** A product of two dimensions; `pow(b, 2)` is `Product(b, b)`. */
  function Product(x: real, y: real): (r: real)
    ensures x > 0.0 && y > 0.0 ==> r > 0.0
  {
    x * y
  }

  /** The area formula of each shape, applied to its dimensions in form order. */
  function Area(s: Shape, d: seq<real>): (a: real)
    requires |d| == Arity(s)
    ensures (forall i :: 0 <= i < |d| ==> d[i] > 0.0) ==> a > 0.0
  {
    match s
    case Square => Product(d[0], d[0])
    case Rectangle => d[0] * d[1]
    case Parallelogram => d[0] * d[1]
    case Trapezoid => ((d[0] + d[1]) / 2.0) * d[2]
    case Triangle => 0.5 * (d[0] * d[1])
    case Ellipse => Pi * (d[0] * d[1])
    case Circle => Pi * Product(d[0], d[0])
    case Semicircle => (Pi * Product(d[0], d[0])) / 2.0
  }

  /** How the formulas relate to one another. */
  lemma FormulaRelations(a: real, b: real, h: real)
    ensures Area(Square, [b]) == Area(Rectangle, [b, b])
    ensures Area(Parallelogram, [b, h]) == Area(Rectangle, [b, h])
    ensures Area(Triangle, [b, h]) == Area(Rectangle, [b, h]) / 2.0
    ensures Area(Trapezoid, [a, b, h]) == Area(Rectangle, [a, h]) / 2.0 + Area(Rectangle, [b, h]) / 2.0
    ensures Area(Trapezoid, [b, b, h]) == Area(Rectangle, [b, h])
    ensures Area(Circle, [b]) == Area(Ellipse, [b, b])
    ensures Area(Semicircle, [b]) == Area(Circle, [b]) / 2.0
  {
  }

  /** The lower-case name each shape is selected by. */
  function ShapeName(s: Shape): string
  {
    match s
    case Square => "square"
    case Rectangle => "rectangle"
    case Parallelogram => "parallelogram"
    case Trapezoid => "trapezoid"
    case Triangle => "triangle"
    case Ellipse => "ellipse"
    case Circle => "circle"
    case Semicircle => "semicircle"
  }

  /** The names the create and update-shape forms offer in their drop-down menus. */
  const DropdownNames: seq<string> :=
    ["Square", "Rectangle", "Parallelogram", "Trapezoid", "Triangle", "Ellipse", "Circle", "Semicircle"]

  /** ASCII lower-casing of one character. */
  function LowerChar(c: char): char
  {
    if 'A' <= c <= 'Z' then (c as int + 32) as char else c
  }

  /** Lower-casing of a shape name, as `str.lower()` does for ASCII text. */
  function Lower(s: string): (r: string)
    ensures |r| == |s|
    ensures forall i :: 0 <= i < |s| ==> r[i] == LowerChar(s[i])
  {
    seq(|s|, i requires 0 <= i < |s| => LowerChar(s[i]))
  }

  /** A raw form value: absent, not parseable as a float, or a number. */
  datatype RawInput = Missing | NotNumber | Num(value: real)

  /** What a measurement check returns: the number, or the message to show. */
  datatype Checked = Measurement(value: real) | Rejected(message: string)

  const EmptyMessage: string := "Measurement cannot be left empty"
  const NotNumberMessage: string := "Measurement must be a number"
  const NotPositiveMessage: string := "Measurement must be a positive number greater than 0"
}
