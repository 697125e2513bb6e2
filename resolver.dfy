/**
 * Answer resolution: compute_correct, the same three-tier search in all three
 * revisions. It walks FIGURE_ORDER and returns, with its natural colour,
 * the first shape neither shown nor naturally coloured like a shown figure;
 * failing that the first shape not shown; failing that the first shape.
 */
module Resolver {
  import opened Wrappers
  import opened Catalog
  import opened Generator

  /** `{shape for shape, _ in figs}` */
  function UsedShapes(figs: seq<Figure>): set<Shape> {
    set f | f in figs :: f.shape
  }

  /** `{tuple(color) for _, color in figs}` */
  function UsedColors(figs: seq<Figure>): set<Color> {
    set f | f in figs :: f.color
  }

  /** The test of the first loop: the shape is not shown and its natural colour is not in use. */
  predicate Unclashed(figs: seq<Figure>, s: Shape) {
    s !in UsedShapes(figs) && NaturalColor(s) !in UsedColors(figs)
  }

  /** The test of the second loop: the shape is not shown. */
  predicate Unshown(figs: seq<Figure>, s: Shape) {
    s !in UsedShapes(figs)
  }

  /** The test of the first loop when `strict`, of the second otherwise. */
  predicate Eligible(figs: seq<Figure>, s: Shape, strict: bool) {
    if strict then Unclashed(figs, s) else Unshown(figs, s)
  }

  /** `for sh in FIGURE_ORDER[k:]: if <test>: return sh`, as a search from position k. */
  function Search(figs: seq<Figure>, strict: bool, k: nat): (r: Option<Shape>)
    requires k <= |FigureOrder|
    ensures r.Some? ==>
      && k <= Rank(r.value)
      && Eligible(figs, r.value, strict)
      && forall j :: k <= j < Rank(r.value) ==> !Eligible(figs, FigureOrder[j], strict)
    ensures r.None? ==> forall j :: k <= j < |FigureOrder| ==> !Eligible(figs, FigureOrder[j], strict)
    decreases |FigureOrder| - k
  {
    if k == |FigureOrder| then None
    else if Eligible(figs, FigureOrder[k], strict) then Some(FigureOrder[k])
    else Search(figs, strict, k + 1)
  }

  /** The search from the start finds the first eligible shape in FIGURE_ORDER, or reports there is none. */
  lemma SearchFindsFirst(figs: seq<Figure>, strict: bool)
    ensures var r := Search(figs, strict, 0);
      && (r.None? <==> forall s :: !Eligible(figs, s, strict))
      && (r.Some? ==> Eligible(figs, r.value, strict) && forall s :: Eligible(figs, s, strict) ==> Rank(r.value) <= Rank(s))
    ensures strict ==> (Search(figs, strict, 0).None? <==> forall s :: !Unclashed(figs, s))
    ensures !strict ==> (Search(figs, strict, 0).None? <==> forall s :: !Unshown(figs, s))
  {
    var r := Search(figs, strict, 0);
    forall s | Eligible(figs, s, strict)
      ensures r.Some? && Rank(r.value) <= Rank(s)
    {
      assert FigureOrder[Rank(s)] == s;
    }
    forall s
      ensures Eligible(figs, s, strict) == if strict then Unclashed(figs, s) else Unshown(figs, s)
    {
    }
  }

  /** compute_correct. Its answer always carries its shape's natural colour. */
  function ComputeCorrect(figs: seq<Figure>): (r: Figure)
    ensures r.color == NaturalColor(r.shape)
  {
    match Search(figs, true, 0)
    case Some(s) => Figure(s, NaturalColor(s))
    case None =>
      match Search(figs, false, 0)
      case Some(s) => Figure(s, NaturalColor(s))
      case None => Figure(FigureOrder[0], NaturalColor(FigureOrder[0]))
  }

  /**
   * The answer's shape is the first in FIGURE_ORDER that is neither shown
   * nor naturally coloured like a shown figure; failing that, the first not
   * shown; failing that, the first of all.
   */
  lemma ComputeCorrectTiers(figs: seq<Figure>)
    ensures var r := ComputeCorrect(figs);
      && ((exists s :: Unclashed(figs, s)) ==>
            Unclashed(figs, r.shape) && forall s :: Unclashed(figs, s) ==> Rank(r.shape) <= Rank(s))
      && ((forall s :: !Unclashed(figs, s)) && (exists s :: Unshown(figs, s)) ==>
            Unshown(figs, r.shape) && forall s :: Unshown(figs, s) ==> Rank(r.shape) <= Rank(s))
      && ((forall s :: !Unshown(figs, s)) ==> r.shape == FigureOrder[0])
  {
    SearchFindsFirst(figs, true);
    SearchFindsFirst(figs, false);
  }

  /**
   * The fallback tiers are never reached for a list of at most two figures:
   * each figure rules out at most two shapes (its own, and the one whose
   * natural colour it wears), which leaves one of the five.
   */
  lemma FirstTierSucceeds(figs: seq<Figure>)
    requires |figs| <= 2
    ensures exists s :: Unclashed(figs, s)
    ensures Unclashed(figs, ComputeCorrect(figs).shape)
  {
    var shapes, colors := UsedShapes(figs), UsedColors(figs);
    if |figs| == 2 {
      assert forall f :: f in figs ==> f == figs[0] || f == figs[1];
      assert shapes <= {figs[0].shape, figs[1].shape};
      assert colors <= {figs[0].color, figs[1].color};
    } else if |figs| == 1 {
      assert forall f :: f in figs ==> f == figs[0];
      assert shapes <= {figs[0].shape};
      assert colors <= {figs[0].color};
    } else {
      assert shapes == {} && colors == {};
    }
    assert Unclashed(figs, Circle) || Unclashed(figs, Hexagon) || Unclashed(figs, Triangle)
        || Unclashed(figs, Cross) || Unclashed(figs, Square);
    ComputeCorrectTiers(figs);
  }

  /**
   * For at most two shown figures the answer is a natural figure whose shape
   * is none of theirs and whose colour is none of theirs.
   */
  lemma AnswerAvoidsShown(figs: seq<Figure>)
    requires |figs| <= 2
    ensures var answer := ComputeCorrect(figs);
      && answer.color == NaturalColor(answer.shape)
      && forall i :: 0 <= i < |figs| ==> answer.shape != figs[i].shape && answer.color != figs[i].color
  {
    FirstTierSucceeds(figs);
    forall i | 0 <= i < |figs|
      ensures ComputeCorrect(figs).shape != figs[i].shape && ComputeCorrect(figs).color != figs[i].color
    {
      assert figs[i] in figs;
    }
  }

  /**
   * For every outcome of generate_two_wrong the answer is a natural figure
   * whose shape is neither decoy's shape and whose colour is neither decoy's
   * colour.
   */
  lemma AnswerAvoidsDecoys(d: Draws)
    ensures TwoWrong(d).Some? && ValidDecoys(TwoWrong(d).value)
    ensures var decoys := TwoWrong(d).value;
            var answer := ComputeCorrect(decoys);
      && answer.color == NaturalColor(answer.shape)
      && answer.shape != decoys[0].shape && answer.shape != decoys[1].shape
      && answer.color != decoys[0].color && answer.color != decoys[1].color
  {
    TwoWrongValid(d);
    AnswerAvoidsShown(TwoWrong(d).value);
  }

  /**
   * circle in red and square in orange: circle is shown, and hexagon, next
   * in FIGURE_ORDER, is neither shown nor in a shown colour, so the answer
   * is the purple hexagon.
   */
  lemma RedCircleOrangeSquare()
    ensures ComputeCorrect([Figure(Circle, NaturalColor(Square)), Figure(Square, NaturalColor(Circle))])
         == Figure(Hexagon, NaturalColor(Hexagon))
  {
    var figs := [Figure(Circle, NaturalColor(Square)), Figure(Square, NaturalColor(Circle))];
    assert Circle in UsedShapes(figs) by { assert figs[0] in figs; }
    assert forall f :: f in figs ==> f == figs[0] || f == figs[1];
    assert Unclashed(figs, Hexagon);
  }
}
