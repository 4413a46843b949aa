/** The in-memory presentation the fixer edits. Saving and reopening it is the identity. */
module Slides {
  import opened Wrappers

  type Component = c: int | 0 <= c < 256

  datatype Rgb = Rgb(r: Component, g: Component, b: Component)

  const BLACK := Rgb(0, 0, 0)
  const WHITE := Rgb(255, 255, 255)

  /** A font run: an explicit size in EMU and an explicit colour, when it has them. */
  datatype Run = Run(size: Option<int>, color: Option<Rgb>)

  type Paragraph = seq<Run>

  datatype Axis = Left | Top

  /** A shape: its id, its frame in EMU where set, its paragraphs if it has a text frame, its fill colour. */
  datatype Shape = Shape(
    id: int,
    left: Option<int>, top: Option<int>, width: Option<int>, height: Option<int>,
    text: Option<seq<Paragraph>>, fill: Option<Rgb>
  ) {
    function Edge(axis: Axis): Option<int> {
      if axis.Left? then left else top
    }

    function WithEdge(axis: Axis, value: int): Shape {
      if axis.Left? then this.(left := Some(value)) else this.(top := Some(value))
    }
  }

  type Slide = seq<Shape>

  type Extent = n: int | n > 0 witness 1

  datatype Deck = Deck(width: Extent, height: Extent, slides: seq<Slide>)

  predicate HasRun(shape: Shape, pi: nat, ri: nat) {
    shape.text.Some? && pi < |shape.text.value| && ri < |shape.text.value[pi]|
  }

  function RunAt(shape: Shape, pi: nat, ri: nat): Run
    requires HasRun(shape, pi, ri)
  {
    shape.text.value[pi][ri]
  }

  /** The slides with one shape replaced. */
  function WithShape(slides: seq<Slide>, si: nat, k: nat, shape: Shape): (r: seq<Slide>)
    requires si < |slides| && k < |slides[si]|
    ensures |r| == |slides| && (forall i :: 0 <= i < |slides| ==> |r[i]| == |slides[i]|)
    ensures forall i, j :: 0 <= i < |slides| && 0 <= j < |slides[i]| ==>
      r[i][j] == if i == si && j == k then shape else slides[i][j]
  {
    slides[si := slides[si][k := shape]]
  }

  lemma {:induction false} WithSameShape(slides: seq<Slide>, si: nat, k: nat)
    requires si < |slides| && k < |slides[si]|
    ensures WithShape(slides, si, k, slides[si][k]) == slides
  {
    assert slides[si][k := slides[si][k]] == slides[si];
  }

  lemma {:induction false} WithShapeTwice(slides: seq<Slide>, si: nat, k: nat, first: Shape, second: Shape)
    requires si < |slides| && k < |slides[si]|
    ensures WithShape(WithShape(slides, si, k, first), si, k, second) == WithShape(slides, si, k, second)
  {
    assert slides[si][k := first][k := second] == slides[si][k := second];
  }

  /** The open file. Shapes, paragraphs and runs are views onto it, so every edit goes through here. */
  class Presentation {
    const width: Extent
    const height: Extent
    var slides: seq<Slide>

    constructor (deck: Deck)
      ensures Contents() == deck
    {
      width, height, slides := deck.width, deck.height, deck.slides;
    }

    function Contents(): Deck
      reads this
    {
      Deck(width, height, slides)
    }

    predicate HasShape(si: nat, k: nat)
      reads this
    {
      si < |slides| && k < |slides[si]|
    }

    method SetShape(si: nat, k: nat, shape: Shape)
      requires HasShape(si, k)
      modifies this
      ensures slides == WithShape(old(slides), si, k, shape)
    {
      slides := slides[si := slides[si][k := shape]];
    }

    method SetEdge(si: nat, k: nat, axis: Axis, value: int)
      requires HasShape(si, k)
      modifies this
      ensures slides == WithShape(old(slides), si, k, old(slides)[si][k].WithEdge(axis, value))
    {
      SetShape(si, k, slides[si][k].WithEdge(axis, value));
    }

    method SetRun(si: nat, k: nat, pi: nat, ri: nat, run: Run)
      requires HasShape(si, k) && HasRun(slides[si][k], pi, ri)
      modifies this
      ensures var shape := old(slides)[si][k];
        var text := shape.text.value[pi := shape.text.value[pi][ri := run]];
        slides == WithShape(old(slides), si, k, shape.(text := Some(text)))
    {
      var shape := slides[si][k];
      var text := shape.text.value[pi := shape.text.value[pi][ri := run]];
      SetShape(si, k, shape.(text := Some(text)));
    }
  }
}
