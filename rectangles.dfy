/** The rectangle particle: the circle's rule with width and height moving together.
    Two quirks of its constructor are kept as written: the height argument is replaced
    by a fresh random size (it only feeds the height ceiling), and the height floor is
    never assigned, so the comparison against it is always false and rectangles never
    shrink. */
module Rectangles {
  import opened Common

  /** (x, y) is read as the centre, as the edge test of the update rule reads it;
      the drawing call (left out) uses it as the top-left corner. */
  datatype RectangleState = RectangleState(
    x: real, y: real,
    dx: real, dy: real,
    width: int, height: int,
    color: int,
    minWidth: int,
    minHeight: Option<int>,   // None: the property is never assigned
    maxWidth: int, maxHeight: int)

  /** What every rectangle of the page satisfies from creation on. */
  predicate RectangleValid(s: RectangleState)
  {
    && 1 <= s.width <= s.maxWidth
    && 1 <= s.height <= s.maxHeight
    && 1 <= s.minWidth <= 10
    && s.minHeight == None
    && 0 <= s.color < PaletteSize
  }

  /** The nine draws that creating one rectangle consumes, in the order they are drawn:
      six in the initialisation loop, then colour, width floor and the replacement
      height in the constructor. */
  datatype RectangleDraws = RectangleDraws(
    width: real, height: real, x: real, y: real, dx: real, dy: real,
    color: real, minWidth: real, newHeight: real)
  {
    predicate Valid()
    {
      && Unit(width) && Unit(height) && Unit(x) && Unit(y) && Unit(dx) && Unit(dy)
      && Unit(color) && Unit(minWidth) && Unit(newHeight)
    }
  }

  /** A coordinate drawn as u * (extent - half) + half: the centre (as the update rule
      reads the coordinate) lies in [half, extent) when the extent exceeds half, so the
      far edge may start off the canvas. */
  function Place(u: real, half: real, extent: real): (c: real)
    requires Unit(u)
    ensures half <= extent ==> half <= c <= extent
    ensures half < extent ==> c < extent
    ensures extent < half ==> extent < c <= half
  {
    Scaled(u, extent - half) + half
  }

  /** The rectangle that one pass of the initialisation loop creates. */
  function NewRectangle(d: RectangleDraws, width: real, height: real): (s: RectangleState)
    requires d.Valid()
    ensures RectangleValid(s)
    ensures s.width == RandomMin(d.width) && s.maxWidth == 6 * s.width
    ensures s.height == RandomMin(d.newHeight)
    ensures s.maxHeight == s.height + 5 * RandomMin(d.height)
    ensures s.minWidth == RandomMin(d.minWidth) && s.minHeight == None
    ensures -1.0 <= s.dx < 1.0 && -1.0 <= s.dy < 1.0
    ensures s.width as real / 2.0 < width ==> s.width as real / 2.0 <= s.x < width
    ensures RandomMin(d.height) as real / 2.0 < height ==> RandomMin(d.height) as real / 2.0 <= s.y < height
  {
    var w := RandomMin(d.width);
    var h := RandomMin(d.height);
    var h' := RandomMin(d.newHeight);
    RectangleState(Place(d.x, w as real / 2.0, width), Place(d.y, h as real / 2.0, height),
                   Heading(d.dx), Heading(d.dy), w, h', ColorIndex(d.color),
                   RandomMin(d.minWidth), None, w + w * 5, h' + h * 5)
  }

  /** One frame of a rectangle, reading (x, y) as its centre: reflect on the pre-move
      position with half the width (height) as the half-size, move, then grow both sides
      by one when near and both are below their ceilings, or shrink both by one when far
      and both are above their floors. */
  function RectangleStep(s: RectangleState, p: Pointer, width: real, height: real): (r: RectangleState)
    ensures Abs(r.dx) == Abs(s.dx) && Abs(r.dy) == Abs(s.dy)
    ensures Outside(s.x, s.width as real / 2.0, width) ==> r.dx == -s.dx
    ensures !Outside(s.x, s.width as real / 2.0, width) ==> r.dx == s.dx
    ensures Outside(s.y, s.height as real / 2.0, height) ==> r.dy == -s.dy
    ensures !Outside(s.y, s.height as real / 2.0, height) ==> r.dy == s.dy
    ensures r.x == s.x + r.dx && r.y == s.y + r.dy
    ensures r.width - r.height == s.width - s.height
    ensures s.width - 1 <= r.width <= s.width + 1
    ensures r.width == s.width + 1 <==>
            Near(p, r.x, r.y) && s.width < s.maxWidth && s.height < s.maxHeight
    ensures r.width == s.width - 1 <==>
            !Near(p, r.x, r.y) && s.width > s.minWidth && GreaterThan(s.height, s.minHeight)
    ensures s.minHeight == None ==> r.width >= s.width
    ensures (r.color, r.minWidth, r.minHeight, r.maxWidth, r.maxHeight) ==
            (s.color, s.minWidth, s.minHeight, s.maxWidth, s.maxHeight)
    ensures RectangleValid(s) ==> RectangleValid(r)
  {
    var dx := Bounce(s.x, s.dx, s.width as real / 2.0, width);
    var dy := Bounce(s.y, s.dy, s.height as real / 2.0, height);
    var x, y := s.x + dx, s.y + dy;
    var grow := s.width < s.maxWidth && s.height < s.maxHeight;
    var shrink := s.width > s.minWidth && GreaterThan(s.height, s.minHeight);
    var delta := if Near(p, x, y) then (if grow then 1 else 0) else if shrink then -1 else 0;
    s.(x := x, y := y, dx := dx, dy := dy, width := s.width + delta, height := s.height + delta)
  }

  /** The rectangle after one frame per pointer position of ps, in order. */
  function Run(s: RectangleState, ps: seq<Pointer>, width: real, height: real): RectangleState
    decreases |ps|
  {
    if ps == [] then s else Run(RectangleStep(s, ps[0], width, height), ps[1..], width, height)
  }

  /** Whether the pointer was near the moved centre, frame by frame, along the same run. */
  function NearTrace(s: RectangleState, ps: seq<Pointer>, width: real, height: real): (ns: seq<bool>)
    ensures |ns| == |ps|
    decreases |ps|
  {
    if ps == [] then []
    else
      var t := RectangleStep(s, ps[0], width, height);
      [Near(ps[0], t.x, t.y)] + NearTrace(t, ps[1..], width, height)
  }

  /** However the pointer moves, a rectangle of the page stays valid, never gets
      smaller, and keeps the difference between its width and its height. */
  lemma {:induction false} NeverShrinks(s: RectangleState, ps: seq<Pointer>, width: real, height: real)
    requires RectangleValid(s)
    ensures RectangleValid(Run(s, ps, width, height))
    ensures Run(s, ps, width, height).width >= s.width
    ensures Run(s, ps, width, height).width - Run(s, ps, width, height).height == s.width - s.height
    decreases |ps|
  {
    if ps != [] {
      NeverShrinks(RectangleStep(s, ps[0], width, height), ps[1..], width, height);
    }
  }

  /** After k frames near the pointer both sides have grown by k, or by as much as the
      first of the two ceilings allows. */
  lemma {:induction false} GrowWhileNear(s: RectangleState, ps: seq<Pointer>, width: real, height: real)
    requires s.width <= s.maxWidth && s.height <= s.maxHeight
    requires forall i :: 0 <= i < |ps| ==> NearTrace(s, ps, width, height)[i]
    ensures Run(s, ps, width, height).width ==
            s.width + Min(|ps|, Min(s.maxWidth - s.width, s.maxHeight - s.height))
    decreases |ps|
  {
    if ps != [] {
      var t := RectangleStep(s, ps[0], width, height);
      assert NearTrace(s, ps, width, height)[0];
      assert NearTrace(s, ps, width, height)[1..] == NearTrace(t, ps[1..], width, height);
      GrowWhileNear(t, ps[1..], width, height);
    }
  }

  /** One animation frame over all rectangles, in index order. */
  function RectangleFrame(ss: seq<RectangleState>, p: Pointer, width: real, height: real): (r: seq<RectangleState>)
    ensures |r| == |ss|
    ensures forall i :: 0 <= i < |ss| ==> r[i] == RectangleStep(ss[i], p, width, height)
    decreases |ss|
  {
    if ss == [] then [] else [RectangleStep(ss[0], p, width, height)] + RectangleFrame(ss[1..], p, width, height)
  }

  /** A rectangle object of the page; its fields are updated in place once per frame. */
  class Rectangle {
    var x: real
    var y: real
    var dx: real
    var dy: real
    var width: int
    var height: int
    var color: int
    var minWidth: int
    var minHeight: Option<int>
    var maxWidth: int
    var maxHeight: int

    function State(): RectangleState
      reads this
    {
      RectangleState(x, y, dx, dy, width, height, color, minWidth, minHeight, maxWidth, maxHeight)
    }

    /** Takes the geometry from the caller; draws colour, width floor and a new height
        itself. The height argument survives only in the height ceiling. */
    constructor (x: real, y: real, dx: real, dy: real, width: int, height: int,
                 colorDraw: real, minWidthDraw: real, heightDraw: real)
      requires Unit(colorDraw) && Unit(minWidthDraw) && Unit(heightDraw)
      ensures State() == RectangleState(x, y, dx, dy, width, RandomMin(heightDraw),
                                        ColorIndex(colorDraw), RandomMin(minWidthDraw), None,
                                        width + width * 5, RandomMin(heightDraw) + height * 5)
    {
      this.x := x;
      this.y := y;
      this.dx := dx;
      this.dy := dy;
      this.width := width;
      this.height := height;
      this.color := ColorIndex(colorDraw);
      this.minWidth := RandomMin(minWidthDraw);
      this.height := RandomMin(heightDraw);
      this.minHeight := None;  // never assigned: reads as undefined
      new;
      this.maxWidth := this.width + width * 5;
      this.maxHeight := this.height + height * 5;
    }

    /** The per-frame update (drawing left out). */
    method Update(mouse: Pointer, innerWidth: real, innerHeight: real)
      modifies this
      ensures State() == RectangleStep(old(State()), mouse, innerWidth, innerHeight)
    {
      if x + width as real / 2.0 > innerWidth || x - width as real / 2.0 < 0.0 {
        dx := -dx;
      }
      if y + height as real / 2.0 > innerHeight || y - height as real / 2.0 < 0.0 {
        dy := -dy;
      }
      x := x + dx;
      y := y + dy;
      if Near(mouse, x, y) {
        if width < maxWidth && height < maxHeight {
          width := width + 1;
          height := height + 1;
        }
      } else if width > minWidth && GreaterThan(height, minHeight) {
        width := width - 1;
        height := height - 1;
      }
    }
  }

  /** The states of a sequence of rectangle objects. */
  function StatesOf(rs: seq<Rectangle>): (r: seq<RectangleState>)
    reads rs
    ensures |r| == |rs|
    ensures forall i :: 0 <= i < |rs| ==> r[i] == rs[i].State()
    decreases |rs|
  {
    if rs == [] then [] else StatesOf(rs[..|rs| - 1]) + [rs[|rs| - 1].State()]
  }
}
