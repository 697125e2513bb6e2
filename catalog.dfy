/**
 * The figure catalogue: the five shapes in their fixed order, each with its
 * natural colour (FIGURE_DEFS, FIGURE_ORDER and NATURAL_COLORS, identical in
 * all three revisions of the program).
 */
module Catalog {

  /** One 8-bit colour channel. */
  newtype Byte = x: int | 0 <= x < 256

  /** An RGB colour; two colours are equal exactly when all three channels are. */
  datatype Color = RGB(r: Byte, g: Byte, b: Byte)

  datatype Shape = Circle | Hexagon | Triangle | Cross | Square

  /** A shape drawn in some colour: one `(shape, color)` pair. */
  datatype Figure = Figure(shape: Shape, color: Color)

  /** FIGURE_ORDER: the keys of FIGURE_DEFS in insertion order. */
  const FigureOrder: seq<Shape> := [Circle, Hexagon, Triangle, Cross, Square]

  /** NATURAL_COLORS[shape]. */
  function NaturalColor(s: Shape): Color {
    match s
    case Circle => RGB(255, 165, 0)
    case Hexagon => RGB(200, 0, 200)
    case Triangle => RGB(0, 200, 0)
    case Cross => RGB(0, 128, 255)
    case Square => RGB(255, 0, 0)
  }

  /** NATURAL_COLORS.values(), in the same order as FIGURE_ORDER. */
  const NaturalColors: seq<Color> :=
    [NaturalColor(Circle), NaturalColor(Hexagon), NaturalColor(Triangle),
     NaturalColor(Cross), NaturalColor(Square)]

  /** The position of a shape in FIGURE_ORDER. */
  function Rank(s: Shape): (i: nat)
    ensures i < |FigureOrder| && FigureOrder[i] == s
  {
    match s
    case Circle => 0
    case Hexagon => 1
    case Triangle => 2
    case Cross => 3
    case Square => 4
  }

  predicate Distinct<T(==)>(s: seq<T>) {
    forall i, j :: 0 <= i < j < |s| ==> s[i] != s[j]
  }

  /**
   * The catalogue lists every shape exactly once, in the order circle,
   * hexagon, triangle, cross, square, and no two shapes share a natural colour.
   */
  lemma CatalogueWellFormed()
    ensures |FigureOrder| == 5 && Distinct(FigureOrder)
    ensures forall s: Shape :: s in FigureOrder
    ensures FigureOrder[0] == Circle && FigureOrder[4] == Square
    ensures |NaturalColors| == 5 && Distinct(NaturalColors)
    ensures forall i :: 0 <= i < |NaturalColors| ==> NaturalColors[i] == NaturalColor(FigureOrder[i])
    ensures forall s: Shape :: NaturalColor(s) in NaturalColors
    ensures forall s, t :: NaturalColor(s) == NaturalColor(t) ==> s == t
  {
    forall s: Shape ensures s in FigureOrder {
      assert FigureOrder[Rank(s)] == s;
    }
  }
}
