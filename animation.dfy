/** The page's global state and the code that drives it: the pointer, the viewport,
    the circle and rectangle arrays, their (re)initialisation and one animation frame. */
module Animation {
  import opened Common
  import opened Circles
  import opened Rectangles

  class Scene {
    var innerWidth: real
    var innerHeight: real
    var mouse: Pointer
    var circles: seq<Circle>
    var rectangles: seq<Rectangle>

    /** Every particle is its own object, and every particle is valid. */
    ghost predicate Valid()
      reads this, circles, rectangles
    {
      && (forall i, j :: 0 <= i < j < |circles| ==> circles[i] != circles[j])
      && (forall i, j :: 0 <= i < j < |rectangles| ==> rectangles[i] != rectangles[j])
      && (forall i :: 0 <= i < |circles| ==> CircleValid(circles[i].State()))
      && (forall i :: 0 <= i < |rectangles| ==> RectangleValid(rectangles[i].State()))
    }

    function CircleStates(): seq<CircleState>
      reads this, circles
    {
      Circles.StatesOf(circles)
    }

    function RectangleStates(): seq<RectangleState>
      reads this, rectangles
    {
      Rectangles.StatesOf(rectangles)
    }

    /** Loading the page: the pointer is not known yet, the circles are initialised and
        the rectangle array stays empty (its initialisation is never called). */
    constructor (innerWidth: real, innerHeight: real, draws: seq<CircleDraws>)
      requires |draws| == ParticleCount && forall i :: 0 <= i < |draws| ==> draws[i].Valid()
      ensures Valid()
      ensures this.innerWidth == innerWidth && this.innerHeight == innerHeight && mouse == Unknown
      ensures rectangles == [] && |circles| == ParticleCount
      ensures forall i :: 0 <= i < |circles| ==> circles[i].State() == NewCircle(draws[i], innerWidth, innerHeight)
    {
      this.innerWidth := innerWidth;
      this.innerHeight := innerHeight;
      mouse := Unknown;
      circles := [];
      rectangles := [];
      new;
      CircleInit(draws);
    }

    /** Replaces the circle array by ParticleCount fresh circles, one per draw record. */
    method CircleInit(draws: seq<CircleDraws>)
      requires |draws| == ParticleCount && forall i :: 0 <= i < |draws| ==> draws[i].Valid()
      requires forall i, j :: 0 <= i < j < |rectangles| ==> rectangles[i] != rectangles[j]
      requires forall i :: 0 <= i < |rectangles| ==> RectangleValid(rectangles[i].State())
      modifies this`circles
      ensures Valid()
      ensures |circles| == ParticleCount
      ensures forall i :: 0 <= i < |circles| ==> fresh(circles[i])
      ensures forall i :: 0 <= i < |circles| ==> circles[i].State() == NewCircle(draws[i], innerWidth, innerHeight)
    {
      circles := [];
      for i := 0 to ParticleCount
        invariant |circles| == i
        invariant forall j :: 0 <= j < i ==> fresh(circles[j])
        invariant forall j, k :: 0 <= j < k < i ==> circles[j] != circles[k]
        invariant forall j :: 0 <= j < i ==> circles[j].State() == NewCircle(draws[j], innerWidth, innerHeight)
      {
        var d := draws[i];
        var radius := RandomMin(d.radius);
        var x := Spread(d.x, radius as real, innerWidth);
        var y := Spread(d.y, radius as real, innerHeight);
        var dx := Heading(d.dx);
        var dy := Heading(d.dy);
        var c := new Circle(x, y, dx, dy, radius, d.color, d.minRadius);
        circles := circles + [c];
      }
    }

    /** Replaces the rectangle array by ParticleCount fresh rectangles, one per draw record. */
    method RectangleInit(draws: seq<RectangleDraws>)
      requires |draws| == ParticleCount && forall i :: 0 <= i < |draws| ==> draws[i].Valid()
      requires forall i, j :: 0 <= i < j < |circles| ==> circles[i] != circles[j]
      requires forall i :: 0 <= i < |circles| ==> CircleValid(circles[i].State())
      modifies this`rectangles
      ensures Valid()
      ensures |rectangles| == ParticleCount
      ensures forall i :: 0 <= i < |rectangles| ==> fresh(rectangles[i])
      ensures forall i :: 0 <= i < |rectangles| ==> rectangles[i].State() == NewRectangle(draws[i], innerWidth, innerHeight)
    {
      rectangles := [];
      for i := 0 to ParticleCount
        invariant |rectangles| == i
        invariant forall j :: 0 <= j < i ==> fresh(rectangles[j])
        invariant forall j, k :: 0 <= j < k < i ==> rectangles[j] != rectangles[k]
        invariant forall j :: 0 <= j < i ==> rectangles[j].State() == NewRectangle(draws[j], innerWidth, innerHeight)
      {
        var d := draws[i];
        var width := RandomMin(d.width);
        var height := RandomMin(d.height);
        var x := Place(d.x, width as real / 2.0, innerWidth);
        var y := Place(d.y, height as real / 2.0, innerHeight);
        var dx := Heading(d.dx);
        var dy := Heading(d.dy);
        var r := new Rectangle(x, y, dx, dy, width, height, d.color, d.minWidth, d.newHeight);
        rectangles := rectangles + [r];
      }
    }

    /** A mouse movement: the pointer is known from now on. */
    method MouseMove(x: real, y: real)
      requires Valid()
      modifies this`mouse
      ensures Valid() && mouse == At(x, y)
    {
      mouse := At(x, y);
    }

    /** A window resize: the viewport takes the new size and the circles are rebuilt
        from fresh draws; no previous circle survives. The rectangles are left alone. */
    method Resize(innerWidth: real, innerHeight: real, draws: seq<CircleDraws>)
      requires Valid()
      requires |draws| == ParticleCount && forall i :: 0 <= i < |draws| ==> draws[i].Valid()
      modifies this`innerWidth, this`innerHeight, this`circles
      ensures Valid()
      ensures this.innerWidth == innerWidth && this.innerHeight == innerHeight
      ensures |circles| == ParticleCount
      ensures forall i :: 0 <= i < |circles| ==> fresh(circles[i])
      ensures forall i :: 0 <= i < |circles| ==> circles[i].State() == NewCircle(draws[i], innerWidth, innerHeight)
    {
      this.innerWidth := innerWidth;
      this.innerHeight := innerHeight;
      CircleInit(draws);
    }

    /** One frame of the circle animation (clearing and drawing left out): every circle
        is updated once, in index order, from its own state, the pointer and the viewport. */
    method AnimateCircles()
      requires Valid()
      modifies circles
      ensures Valid()
      ensures CircleStates() == CircleFrame(old(CircleStates()), mouse, innerWidth, innerHeight)
    {
      for i := 0 to |circles|
        invariant forall j :: 0 <= j < i ==>
                    circles[j].State() == CircleStep(old(circles[j].State()), mouse, innerWidth, innerHeight)
        invariant forall j :: i <= j < |circles| ==> circles[j].State() == old(circles[j].State())
      {
        circles[i].Update(mouse, innerWidth, innerHeight);
      }
    }

    /** One frame of the rectangle animation (clearing and drawing left out). */
    method AnimateRectangles()
      requires Valid()
      modifies rectangles
      ensures Valid()
      ensures RectangleStates() == RectangleFrame(old(RectangleStates()), mouse, innerWidth, innerHeight)
    {
      for i := 0 to |rectangles|
        invariant forall j :: 0 <= j < i ==>
                    rectangles[j].State() == RectangleStep(old(rectangles[j].State()), mouse, innerWidth, innerHeight)
        invariant forall j :: i <= j < |rectangles| ==> rectangles[j].State() == old(rectangles[j].State())
      {
        rectangles[i].Update(mouse, innerWidth, innerHeight);
      }
    }
  }
}
