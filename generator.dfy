/**
 * Decoy generation: generate_two_wrong, the same function in all three
 * revisions of the program. Two distinct shapes are sampled; each in turn
 * gets a colour drawn from the catalogue colours other than its own natural
 * colour and other than the colours already handed out.
 *
 * The random module is replaced by the raw values it would draw (`Draws`):
 * the model describes which outcomes are possible, not how likely they are.
 */
module Generator {
  import opened Wrappers
  import opened Catalog

  /** Raw random values for one call: two for the shape sample, one per colour choice. */
  datatype Draws = Draws(first: nat, second: nat, pick0: nat, pick1: nat)

  /**
   * random.sample(FIGURE_ORDER, 2): the first shape is any of the five, the
   * second any of the four others (an offset of 1 to 4 along FIGURE_ORDER).
   */
  function SampleTwo(first: nat, second: nat): (r: seq<Shape>)
    ensures |r| == 2 && r[0] != r[1]
  {
    var i := first % 5;
    [FigureOrder[i], FigureOrder[(i + 1 + second % 4) % 5]]
  }

  /** `[c for c in cs if c != natural]` (the list `wrong_colors`). */
  function WrongColors(cs: seq<Color>, natural: Color): seq<Color> {
    if cs == [] then []
    else (if cs[0] != natural then [cs[0]] else []) + WrongColors(cs[1..], natural)
  }

  /** `[c for c in cs if c not in used]` (the list `available`). */
  function Untaken(cs: seq<Color>, used: set<Color>): seq<Color> {
    if cs == [] then []
    else (if cs[0] !in used then [cs[0]] else []) + Untaken(cs[1..], used)
  }

  /** The candidate colours for shape `sh` once the colours in `used` are taken. */
  function Available(sh: Shape, used: set<Color>): seq<Color> {
    Untaken(WrongColors(NaturalColors, NaturalColor(sh)), used)
  }

  /** `wrong_colors` holds exactly the colours of `cs` other than `natural`. */
  lemma {:induction false} WrongColorsMembers(cs: seq<Color>, natural: Color)
    ensures forall c :: c in WrongColors(cs, natural) <==> c in cs && c != natural
  {
    if cs != [] {
      WrongColorsMembers(cs[1..], natural);
      assert cs == [cs[0]] + cs[1..];
    }
  }

  /** `available` holds exactly the colours of `cs` not in `used`. */
  lemma {:induction false} UntakenMembers(cs: seq<Color>, used: set<Color>)
    ensures forall c :: c in Untaken(cs, used) <==> c in cs && c !in used
  {
    if cs != [] {
      UntakenMembers(cs[1..], used);
      assert cs == [cs[0]] + cs[1..];
    }
  }

  /** The candidates are exactly the catalogue colours that are neither natural for `sh` nor taken. */
  lemma AvailableMembers(sh: Shape, used: set<Color>)
    ensures forall c :: c in Available(sh, used) <==> c in NaturalColors && c != NaturalColor(sh) && c !in used
  {
    WrongColorsMembers(NaturalColors, NaturalColor(sh));
    UntakenMembers(WrongColors(NaturalColors, NaturalColor(sh)), used);
  }

  /**
   * The `for sh in shapes` loop from a state where `used` is taken: each
   * shape gets `available[draw % len(available)]`. None stands for the
   * IndexError random.choice raises on an empty candidate list.
   */
  function Assign(shapes: seq<Shape>, draws: seq<nat>, used: set<Color>): Option<seq<Figure>>
    requires |draws| == |shapes|
    decreases |shapes|
  {
    if shapes == [] then Some([])
    else
      var available := Available(shapes[0], used);
      if available == [] then None
      else
        var c := available[draws[0] % |available|];
        match Assign(shapes[1..], draws[1..], used + {c})
        case None => None
        case Some(rest) => Some([Figure(shapes[0], c)] + rest)
  }

  /**
   * What the loop hands out: one figure per shape, in order, each coloured
   * with a catalogue colour that is not its natural one and was not taken
   * before, no two figures sharing a colour.
   */
  lemma {:induction false} AssignSound(shapes: seq<Shape>, draws: seq<nat>, used: set<Color>)
    requires |draws| == |shapes|
    requires Assign(shapes, draws, used).Some?
    ensures var r := Assign(shapes, draws, used).value;
      && |r| == |shapes|
      && (forall i :: 0 <= i < |shapes| ==>
            && r[i].shape == shapes[i]
            && r[i].color in NaturalColors
            && r[i].color != NaturalColor(shapes[i])
            && r[i].color !in used)
      && (forall i, j :: 0 <= i < j < |shapes| ==> r[i].color != r[j].color)
    decreases |shapes|
  {
    if shapes != [] {
      var available := Available(shapes[0], used);
      var c := available[draws[0] % |available|];
      AvailableMembers(shapes[0], used);
      AssignSound(shapes[1..], draws[1..], used + {c});
    }
  }

  /** The outcome of generate_two_wrong for the given draws. */
  function TwoWrong(d: Draws): Option<seq<Figure>> {
    Assign(SampleTwo(d.first, d.second), [d.pick0, d.pick1], {})
  }

  /**
   * A decoy pair: two figures of distinct shapes, each in a catalogue colour
   * other than its natural one, the two colours distinct.
   */
  predicate ValidDecoys(figs: seq<Figure>) {
    && |figs| == 2
    && figs[0].shape != figs[1].shape
    && figs[0].color != figs[1].color
    && figs[0].color in NaturalColors && figs[0].color != NaturalColor(figs[0].shape)
    && figs[1].color in NaturalColors && figs[1].color != NaturalColor(figs[1].shape)
  }

  /** `pre + s` inside an Option. */
  function Prefixed(pre: seq<Figure>, o: Option<seq<Figure>>): Option<seq<Figure>> {
    match o
    case None => None
    case Some(s) => Some(pre + s)
  }

  /** generate_two_wrong. */
  method GenerateTwoWrong(d: Draws) returns (result: seq<Figure>)
    ensures TwoWrong(d) == Some(result)
    ensures ValidDecoys(result)
  {
    var shapes := SampleTwo(d.first, d.second);
    var draws := [d.pick0, d.pick1];
    AssignSucceeds(shapes, draws, {});
    result := [];
    var used: set<Color> := {};
    var i := 0;
    assert shapes[i..] == shapes && draws[i..] == draws;
    assert Prefixed(result, Assign(shapes, draws, used)) == Assign(shapes, draws, used) by {
      if Assign(shapes, draws, used).Some? {
        assert result + Assign(shapes, draws, used).value == Assign(shapes, draws, used).value;
      }
    }
    while i < |shapes|
      invariant 0 <= i <= |shapes|
      invariant Assign(shapes[i..], draws[i..], used).Some?
      invariant Assign(shapes, draws, {}) == Prefixed(result, Assign(shapes[i..], draws[i..], used))
    {
      var sh := shapes[i];
      var natural := NaturalColor(sh);
      var wrongColors := WrongColors(NaturalColors, natural);
      var available := Untaken(wrongColors, used);
      AssignStep(shapes[i..], draws[i..], used);
      var color := available[draws[i] % |available|];
      assert shapes[i..][1..] == shapes[i + 1..] && draws[i..][1..] == draws[i + 1..];
      PrefixedAssoc(result, [Figure(sh, color)], Assign(shapes[i + 1..], draws[i + 1..], used + {color}));
      used := used + {color};
      result := result + [Figure(sh, color)];
      i := i + 1;
    }
    assert shapes[i..] == [] && draws[i..] == [];
    assert result + [] == result;
    assert TwoWrong(d) == Assign(shapes, draws, {});
    TwoWrongValid(d);
  }

  /** One turn of the loop: a successful assignment picks a candidate and assigns the rest. */
  lemma AssignStep(shapes: seq<Shape>, draws: seq<nat>, used: set<Color>)
    requires |draws| == |shapes| && shapes != []
    requires Assign(shapes, draws, used).Some?
    ensures |Available(shapes[0], used)| > 0
    ensures var available := Available(shapes[0], used);
            var c := available[draws[0] % |available|];
            && Assign(shapes[1..], draws[1..], used + {c}).Some?
            && Assign(shapes, draws, used) == Prefixed([Figure(shapes[0], c)], Assign(shapes[1..], draws[1..], used + {c}))
  {
  }

  /** Assign unfolded once, when the first shape has a candidate and the draw selects `c`. */
  lemma AssignCons(shapes: seq<Shape>, draws: seq<nat>, used: set<Color>, c: Color)
    requires |draws| == |shapes| && shapes != []
    requires |Available(shapes[0], used)| > 0
    requires c == Available(shapes[0], used)[draws[0] % |Available(shapes[0], used)|]
    ensures Assign(shapes, draws, used) == Prefixed([Figure(shapes[0], c)], Assign(shapes[1..], draws[1..], used + {c}))
  {
  }

  lemma PrefixedAssoc(a: seq<Figure>, b: seq<Figure>, o: Option<seq<Figure>>)
    ensures Prefixed(a, Prefixed(b, o)) == Prefixed(a + b, o)
  {
    if o.Some? {
      assert a + (b + o.value) == (a + b) + o.value;
    }
  }

  // ----- how many candidates there are -----

  /** Dropping the one occurrence of a value from a duplicate-free list shortens it by one. */
  lemma {:induction false} WrongColorsCount(cs: seq<Color>, natural: Color)
    requires Distinct(cs) && natural in cs
    ensures |WrongColors(cs, natural)| == |cs| - 1
    ensures Distinct(WrongColors(cs, natural))
  {
    var rest := cs[1..];
    assert Distinct(rest);
    if cs[0] == natural {
      assert natural !in rest;
      WrongColorsAll(rest, natural);
    } else {
      WrongColorsCount(rest, natural);
      WrongColorsMembers(rest, natural);
      assert cs[0] !in WrongColors(rest, natural);
    }
  }

  /** Filtering out a value that does not occur changes nothing. */
  lemma {:induction false} WrongColorsAll(cs: seq<Color>, natural: Color)
    requires natural !in cs
    ensures WrongColors(cs, natural) == cs
  {
    if cs != [] {
      WrongColorsAll(cs[1..], natural);
    }
  }

  /** Removing a value absent from the list from the taken set does not change the filter. */
  lemma {:induction false} UntakenIgnores(cs: seq<Color>, used: set<Color>, x: Color)
    requires x !in cs
    ensures Untaken(cs, used - {x}) == Untaken(cs, used)
  {
    if cs != [] {
      UntakenIgnores(cs[1..], used, x);
    }
  }

  /** Each taken colour removes at most one entry of a duplicate-free list. */
  lemma {:induction false} UntakenCount(cs: seq<Color>, used: set<Color>)
    requires Distinct(cs)
    ensures |Untaken(cs, used)| >= |cs| - |used|
    decreases |cs|
  {
    if cs != [] {
      var rest := cs[1..];
      assert Distinct(rest);
      if cs[0] in used {
        assert cs[0] !in rest;
        UntakenIgnores(rest, used, cs[0]);
        UntakenCount(rest, used - {cs[0]});
      } else {
        UntakenCount(rest, used);
      }
    }
  }

  /**
   * With the five-colour catalogue a shape has four wrong colours, so the
   * candidate list holds at least four colours for the first figure and at
   * least three for the second.
   */
  lemma AvailableCount(sh: Shape, used: set<Color>)
    ensures |Available(sh, used)| >= 4 - |used|
  {
    Catalog.CatalogueWellFormed();
    WrongColorsCount(NaturalColors, NaturalColor(sh));
    UntakenCount(WrongColors(NaturalColors, NaturalColor(sh)), used);
  }

  /**
   * random.choice never meets an empty list: as long as the figures still to
   * colour plus the colours already used number at most four, every step has
   * a candidate. Two figures from nothing used is the case in the program.
   */
  lemma {:induction false} AssignSucceeds(shapes: seq<Shape>, draws: seq<nat>, used: set<Color>)
    requires |draws| == |shapes|
    requires |used| + |shapes| <= 4
    ensures Assign(shapes, draws, used).Some?
    decreases |shapes|
  {
    if shapes != [] {
      AvailableCount(shapes[0], used);
      var available := Available(shapes[0], used);
      var c := available[draws[0] % |available|];
      AvailableMembers(shapes[0], used);
      assert c !in used;
      AssignSucceeds(shapes[1..], draws[1..], used + {c});
    }
  }

  // ----- what generate_two_wrong can return -----

  /** Every outcome of generate_two_wrong is a valid decoy pair. */
  lemma TwoWrongValid(d: Draws)
    ensures TwoWrong(d).Some? && ValidDecoys(TwoWrong(d).value)
  {
    AssignSucceeds(SampleTwo(d.first, d.second), [d.pick0, d.pick1], {});
    AssignSound(SampleTwo(d.first, d.second), [d.pick0, d.pick1], {});
  }

  /** A position in a list where `x` occurs. */
  function IndexOf(s: seq<Color>, x: Color): (i: nat)
    requires x in s
    ensures i < |s| && s[i] == x
  {
    if s[0] == x then 0 else 1 + IndexOf(s[1..], x)
  }

  /** random.choice can produce every candidate. */
  lemma ChoiceReaches(sh: Shape, used: set<Color>, c: Color) returns (k: nat)
    requires c in Available(sh, used)
    ensures var available := Available(sh, used); available[k % |available|] == c
  {
    var available := Available(sh, used);
    k := IndexOf(available, c);
    ModSmall(k, |available|);
  }

  lemma ModSmall(a: nat, n: nat)
    requires a < n
    ensures a % n == a
  {
  }

  /** random.sample can produce every ordered pair of distinct shapes. */
  lemma SampleReaches(s0: Shape, s1: Shape) returns (first: nat, second: nat)
    requires s0 != s1
    ensures SampleTwo(first, second) == [s0, s1]
  {
    first := Rank(s0);
    second := if Rank(s0) < Rank(s1) then Rank(s1) - Rank(s0) - 1 else Rank(s1) + 4 - Rank(s0);
    assert first % 5 == first && second % 4 == second;
    assert (first + 1 + second) % 5 == Rank(s1);
  }

  /**
   * The converse of AssignSound: every colouring that follows the rules
   * (non-natural catalogue colours, none taken before, no two alike) is what
   * the loop produces for some draws.
   */
  lemma {:induction false} AssignReaches(shapes: seq<Shape>, figs: seq<Figure>, used: set<Color>) returns (draws: seq<nat>)
    requires |figs| == |shapes|
    requires forall i :: 0 <= i < |figs| ==>
      && figs[i].shape == shapes[i]
      && figs[i].color in NaturalColors
      && figs[i].color != NaturalColor(shapes[i])
      && figs[i].color !in used
    requires forall i, j :: 0 <= i < j < |figs| ==> figs[i].color != figs[j].color
    ensures |draws| == |shapes| && Assign(shapes, draws, used) == Some(figs)
    decreases |shapes|
  {
    if shapes == [] {
      draws := [];
    } else {
      var c := figs[0].color;
      AvailableMembers(shapes[0], used);
      var k := ChoiceReaches(shapes[0], used, c);
      var rest := AssignReaches(shapes[1..], figs[1..], used + {c});
      draws := [k] + rest;
      assert draws[1..] == rest;
      AssignCons(shapes, draws, used, c);
      assert figs == [Figure(shapes[0], c)] + figs[1..];
    }
  }

  /** Every valid decoy pair is an outcome of generate_two_wrong for some draws. */
  lemma TwoWrongComplete(figs: seq<Figure>)
    requires ValidDecoys(figs)
    ensures exists d :: TwoWrong(d) == Some(figs)
  {
    var first, second := SampleReaches(figs[0].shape, figs[1].shape);
    var shapes := SampleTwo(first, second);
    var draws := AssignReaches(shapes, figs, {});
    var d := Draws(first, second, draws[0], draws[1]);
    assert [draws[0], draws[1]] == draws;
    assert TwoWrong(d) == Some(figs);
  }
}
