/** The circle particle: its state, its creation from random draws, the per-frame
    update rule (bounce, move, resize), and what the rule does over many frames. */
module Circles {
  import opened Common

  /** The largest radius a circle grows to under the pointer. */
  const MaxRadius := 40

  datatype CircleState = CircleState(
    x: real, y: real,      // centre
    dx: real, dy: real,    // velocity per frame
    radius: int,
    minRadius: int,        // the floor the circle shrinks back to
    color: int)            // index into the palette

  /** What every circle of the page satisfies from creation on. */
  predicate CircleValid(s: CircleState)
  {
    1 <= s.minRadius <= 10 && 1 <= s.radius <= MaxRadius && 0 <= s.color < PaletteSize
  }

  /** The seven draws that creating one circle consumes, in the order they are drawn:
      five in the initialisation loop, then colour and floor in the constructor. */
  datatype CircleDraws = CircleDraws(
    radius: real, x: real, y: real, dx: real, dy: real, color: real, minRadius: real)
  {
    predicate Valid()
    {
      Unit(radius) && Unit(x) && Unit(y) && Unit(dx) && Unit(dy) && Unit(color) && Unit(minRadius)
    }
  }

  /** The circle that one pass of the initialisation loop creates in a width x height viewport. */
  function NewCircle(d: CircleDraws, width: real, height: real): (s: CircleState)
    requires d.Valid()
    ensures CircleValid(s) && s.radius <= 10
    ensures s.radius == RandomMin(d.radius) && s.minRadius == RandomMin(d.minRadius)
    ensures -1.0 <= s.dx < 1.0 && -1.0 <= s.dy < 1.0
    ensures 2.0 * s.radius as real <= width ==> s.radius as real <= s.x <= width - s.radius as real
    ensures 2.0 * s.radius as real < width ==> s.x < width - s.radius as real
    ensures 2.0 * s.radius as real <= height ==> s.radius as real <= s.y <= height - s.radius as real
    ensures 2.0 * s.radius as real < height ==> s.y < height - s.radius as real
  {
    var r := RandomMin(d.radius);
    CircleState(Spread(d.x, r as real, width), Spread(d.y, r as real, height),
                Heading(d.dx), Heading(d.dy), r, RandomMin(d.minRadius), ColorIndex(d.color))
  }

  /** The resize step: grow by one while near and below MaxRadius; otherwise shrink
      by one while strictly above the circle's own floor. */
  function RadiusStep(radius: int, minRadius: int, near: bool): (r: int)
    ensures radius - 1 <= r <= radius + 1
    ensures r == radius + 1 <==> near && radius < MaxRadius
    ensures r == radius - 1 <==> !near && radius > minRadius
  {
    if near then (if radius < MaxRadius then radius + 1 else radius)
    else if radius > minRadius then radius - 1
    else radius
  }

  /** One frame of a circle in a width x height viewport with the pointer at p: the
      velocity is reflected on the pre-move position, the centre advances by the
      reflected velocity, and the radius reacts to the pointer at the moved centre. */
  function CircleStep(s: CircleState, p: Pointer, width: real, height: real): (r: CircleState)
    ensures Abs(r.dx) == Abs(s.dx) && Abs(r.dy) == Abs(s.dy)
    ensures Outside(s.x, s.radius as real, width) ==> r.dx == -s.dx
    ensures !Outside(s.x, s.radius as real, width) ==> r.dx == s.dx
    ensures Outside(s.y, s.radius as real, height) ==> r.dy == -s.dy
    ensures !Outside(s.y, s.radius as real, height) ==> r.dy == s.dy
    ensures r.x == s.x + r.dx && r.y == s.y + r.dy
    ensures r.radius == RadiusStep(s.radius, s.minRadius, Near(p, r.x, r.y))
    ensures r.minRadius == s.minRadius && r.color == s.color
    ensures CircleValid(s) ==> CircleValid(r)
  {
    var dx := Bounce(s.x, s.dx, s.radius as real, width);
    var dy := Bounce(s.y, s.dy, s.radius as real, height);
    var x, y := s.x + dx, s.y + dy;
    CircleState(x, y, dx, dy, RadiusStep(s.radius, s.minRadius, Near(p, x, y)), s.minRadius, s.color)
  }

  /** The circle after one frame per pointer position of ps, in order. */
  function Run(s: CircleState, ps: seq<Pointer>, width: real, height: real): CircleState
    decreases |ps|
  {
    if ps == [] then s else Run(CircleStep(s, ps[0], width, height), ps[1..], width, height)
  }

  /** Whether the pointer was near the moved centre, frame by frame, along the same run. */
  function NearTrace(s: CircleState, ps: seq<Pointer>, width: real, height: real): (ns: seq<bool>)
    ensures |ns| == |ps|
    decreases |ps|
  {
    if ps == [] then []
    else
      var t := CircleStep(s, ps[0], width, height);
      [Near(ps[0], t.x, t.y)] + NearTrace(t, ps[1..], width, height)
  }

  /** The radius after applying the resize step once per flag of ns. */
  function RadiusAfter(radius: int, minRadius: int, ns: seq<bool>): int
    decreases |ns|
  {
    if ns == [] then radius else RadiusAfter(RadiusStep(radius, minRadius, ns[0]), minRadius, ns[1..])
  }

  /** The radius evolves by the pointer's nearness alone: position and velocity matter
      only through the frame-by-frame near flags. */
  lemma {:induction false} RunRadius(s: CircleState, ps: seq<Pointer>, width: real, height: real)
    ensures Run(s, ps, width, height).radius == RadiusAfter(s.radius, s.minRadius, NearTrace(s, ps, width, height))
    ensures Run(s, ps, width, height).minRadius == s.minRadius
    decreases |ps|
  {
    if ps != [] {
      var t := CircleStep(s, ps[0], width, height);
      RunRadius(t, ps[1..], width, height);
      assert NearTrace(s, ps, width, height)[1..] == NearTrace(t, ps[1..], width, height);
    }
  }

  /** Every circle of the page stays valid however many frames run. */
  lemma {:induction false} RunValid(s: CircleState, ps: seq<Pointer>, width: real, height: real)
    requires CircleValid(s)
    ensures CircleValid(Run(s, ps, width, height))
    decreases |ps|
  {
    if ps != [] {
      RunValid(CircleStep(s, ps[0], width, height), ps[1..], width, height);
    }
  }

  /** After k frames near the pointer a circle has grown to min(MaxRadius, r0 + k). */
  lemma {:induction false} GrowWhileNear(radius: int, minRadius: int, ns: seq<bool>)
    requires radius <= MaxRadius
    requires forall i :: 0 <= i < |ns| ==> ns[i]
    ensures RadiusAfter(radius, minRadius, ns) == Min(MaxRadius, radius + |ns|)
    decreases |ns|
  {
    if ns != [] {
      GrowWhileNear(RadiusStep(radius, minRadius, true), minRadius, ns[1..]);
    }
  }

  /** After k frames away from the pointer a circle above its floor has shrunk to
      max(minRadius, r0 - k); one at or below its floor keeps its radius. */
  lemma {:induction false} ShrinkWhileFar(radius: int, minRadius: int, ns: seq<bool>)
    requires forall i :: 0 <= i < |ns| ==> !ns[i]
    ensures RadiusAfter(radius, minRadius, ns) ==
            if radius > minRadius then Max(minRadius, radius - |ns|) else radius
    decreases |ns|
  {
    if ns != [] {
      ShrinkWhileFar(RadiusStep(radius, minRadius, false), minRadius, ns[1..]);
    }
  }

  /** Whatever the pointer does, the radius stays between min(r0, minRadius) and
      MaxRadius, and moves by at most one per frame. */
  lemma {:induction false} RadiusBand(radius: int, minRadius: int, ns: seq<bool>)
    requires radius <= MaxRadius
    ensures Min(radius, minRadius) <= RadiusAfter(radius, minRadius, ns) <= MaxRadius
    ensures radius - |ns| <= RadiusAfter(radius, minRadius, ns) <= radius + |ns|
    decreases |ns|
  {
    if ns != [] {
      RadiusBand(RadiusStep(radius, minRadius, ns[0]), minRadius, ns[1..]);
    }
  }

  /** Before the first mouse movement the pointer is near no circle. */
  lemma {:induction false} UnknownNeverNear(s: CircleState, ps: seq<Pointer>, width: real, height: real)
    requires forall i :: 0 <= i < |ps| ==> ps[i] == Unknown
    ensures forall i :: 0 <= i < |ps| ==> !NearTrace(s, ps, width, height)[i]
    decreases |ps|
  {
    if ps != [] {
      var t := CircleStep(s, ps[0], width, height);
      UnknownNeverNear(t, ps[1..], width, height);
      assert NearTrace(s, ps, width, height) == [false] + NearTrace(t, ps[1..], width, height);
    }
  }

  /** Before the first mouse movement circles do not freeze: each shrinks by one per
      frame down to its floor and then stays there. */
  lemma IdleShrink(s: CircleState, ps: seq<Pointer>, width: real, height: real)
    requires forall i :: 0 <= i < |ps| ==> ps[i] == Unknown
    ensures Run(s, ps, width, height).radius ==
            if s.radius > s.minRadius then Max(s.minRadius, s.radius - |ps|) else s.radius
    ensures s.radius >= s.minRadius && |ps| >= s.radius - s.minRadius ==>
            Run(s, ps, width, height).radius == s.minRadius
  {
    RunRadius(s, ps, width, height);
    UnknownNeverNear(s, ps, width, height);
    ShrinkWhileFar(s.radius, s.minRadius, NearTrace(s, ps, width, height));
  }

  /** A circle that stays near the pointer for k frames reaches min(MaxRadius, r0 + k). */
  lemma GrowNearPointer(s: CircleState, ps: seq<Pointer>, width: real, height: real)
    requires s.radius <= MaxRadius
    requires forall i :: 0 <= i < |ps| ==> NearTrace(s, ps, width, height)[i]
    ensures Run(s, ps, width, height).radius == Min(MaxRadius, s.radius + |ps|)
  {
    RunRadius(s, ps, width, height);
    GrowWhileNear(s.radius, s.minRadius, NearTrace(s, ps, width, height));
  }

  /** A motionless circle with the pointer resting on its centre is near on every frame. */
  lemma {:induction false} RestingPointerAlwaysNear(s: CircleState, ps: seq<Pointer>, width: real, height: real)
    requires s.dx == 0.0 && s.dy == 0.0
    requires forall i :: 0 <= i < |ps| ==> ps[i] == At(s.x, s.y)
    ensures forall i :: 0 <= i < |ps| ==> NearTrace(s, ps, width, height)[i]
    decreases |ps|
  {
    if ps != [] {
      var t := CircleStep(s, ps[0], width, height);
      assert t.x == s.x && t.y == s.y && t.dx == 0.0 && t.dy == 0.0;
      RestingPointerAlwaysNear(t, ps[1..], width, height);
      assert NearTrace(s, ps, width, height) == [true] + NearTrace(t, ps[1..], width, height);
    }
  }

  /** The resting-pointer scenario: the radius climbs by one per frame up to MaxRadius and holds. */
  lemma RestingPointerGrows(s: CircleState, ps: seq<Pointer>, width: real, height: real)
    requires s.dx == 0.0 && s.dy == 0.0 && s.radius <= MaxRadius
    requires forall i :: 0 <= i < |ps| ==> ps[i] == At(s.x, s.y)
    ensures Run(s, ps, width, height).radius == Min(MaxRadius, s.radius + |ps|)
  {
    RestingPointerAlwaysNear(s, ps, width, height);
    GrowNearPointer(s, ps, width, height);
  }

  /** The reflection ignores direction: a circle straddling the left edge that is
      already moving back in is turned outwards again. */
  lemma StraddlingCircleTurnsOutward(s: CircleState, p: Pointer, width: real, height: real)
    requires s.x - s.radius as real < 0.0 && s.dx > 0.0
    ensures CircleStep(s, p, width, height).dx < 0.0
    ensures CircleStep(s, p, width, height).x < s.x
  {
  }

  /** One animation frame over all circles, in index order. */
  function CircleFrame(ss: seq<CircleState>, p: Pointer, width: real, height: real): (r: seq<CircleState>)
    ensures |r| == |ss|
    ensures forall i :: 0 <= i < |ss| ==> r[i] == CircleStep(ss[i], p, width, height)
    decreases |ss|
  {
    if ss == [] then [] else [CircleStep(ss[0], p, width, height)] + CircleFrame(ss[1..], p, width, height)
  }

  /** The frame of a concatenation is the concatenation of the frames: each circle's
      new state owes nothing to the circles before or after it. */
  lemma CircleFrameSplit(a: seq<CircleState>, b: seq<CircleState>, p: Pointer, width: real, height: real)
    ensures CircleFrame(a + b, p, width, height) == CircleFrame(a, p, width, height) + CircleFrame(b, p, width, height)
  {
  }

  /** A frame keeps every circle valid. */
  lemma CircleFrameValid(ss: seq<CircleState>, p: Pointer, width: real, height: real)
    requires forall i :: 0 <= i < |ss| ==> CircleValid(ss[i])
    ensures forall i :: 0 <= i < |ss| ==> CircleValid(CircleFrame(ss, p, width, height)[i])
  {
  }

  /** A circle object of the page; its fields are updated in place once per frame. */
  class Circle {
    var x: real
    var y: real
    var dx: real
    var dy: real
    var radius: int
    var minRadius: int
    var color: int

    function State(): CircleState
      reads this
    {
      CircleState(x, y, dx, dy, radius, minRadius, color)
    }

    /** Takes the geometry from the caller and draws colour and floor itself. */
    constructor (x: real, y: real, dx: real, dy: real, radius: int, colorDraw: real, minDraw: real)
      requires Unit(colorDraw) && Unit(minDraw)
      ensures State() == CircleState(x, y, dx, dy, radius, RandomMin(minDraw), ColorIndex(colorDraw))
    {
      this.x := x;
      this.y := y;
      this.dx := dx;
      this.dy := dy;
      this.radius := radius;
      this.color := ColorIndex(colorDraw);
      this.minRadius := RandomMin(minDraw);
    }

    /** The per-frame update (drawing left out). */
    method Update(mouse: Pointer, innerWidth: real, innerHeight: real)
      modifies this
      ensures State() == CircleStep(old(State()), mouse, innerWidth, innerHeight)
    {
      if x + radius as real > innerWidth || x - radius as real < 0.0 {
        dx := -dx;
      }
      if y + radius as real > innerHeight || y - radius as real < 0.0 {
        dy := -dy;
      }
      x := x + dx;
      y := y + dy;
      if Near(mouse, x, y) {
        if radius < MaxRadius {
          radius := radius + 1;
        }
      } else if radius > minRadius {
        radius := radius - 1;
      }
    }
  }

  /** The states of a sequence of circle objects. */
  function StatesOf(cs: seq<Circle>): (r: seq<CircleState>)
    reads cs
    ensures |r| == |cs|
    ensures forall i :: 0 <= i < |cs| ==> r[i] == cs[i].State()
    decreases |cs|
  {
    if cs == [] then [] else StatesOf(cs[..|cs| - 1]) + [cs[|cs| - 1].State()]
  }
}
