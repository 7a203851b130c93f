/** Definitions shared by the circle and the rectangle particles of the page:
    the pointer, the random draws, the edge test and the proximity square. */
module Common {

  /** Number of particles that one initialisation creates. */
  const ParticleCount := 1000

  /** Number of entries of the colour palette. */
  const PaletteSize := 5

  /** Half the side of the axis-aligned square around the pointer in which a particle grows. */
  const Reach: real := 50.0

  datatype Option<T> = None | Some(value: T)

  /** The pointer as the page knows it: its coordinates stay undefined until the first
      mouse movement, and from then on hold the last reported position. */
  datatype Pointer = Unknown | At(x: real, y: real)

  function Abs(v: real): real { if v < 0.0 then -v else v }

  function Min(a: int, b: int): int { if a <= b then a else b }

  function Max(a: int, b: int): int { if a <= b then b else a }

  /** A value that the browser's uniform random generator can return. */
  predicate Unit(u: real) { 0.0 <= u < 1.0 }

  /** The helper that draws a small size: floor(u * 10 + 1) for a draw u. */
  function RandomMin(u: real): (r: int)
    requires Unit(u)
    ensures 1 <= r <= 10
    ensures r as real <= u * 10.0 + 1.0 < r as real + 1.0
  {
    (u * 10.0 + 1.0).Floor
  }

  /** The palette index picked by floor(u * palette length). */
  function ColorIndex(u: real): (r: int)
    requires Unit(u)
    ensures 0 <= r < PaletteSize
    ensures r as real <= u * PaletteSize as real < r as real + 1.0
  {
    (u * PaletteSize as real).Floor
  }

  /** The velocity component drawn as (u - 0.5) * 2. */
  function Heading(u: real): (v: real)
    requires Unit(u)
    ensures -1.0 <= v < 1.0
    ensures u == v / 2.0 + 0.5
  {
    (u - 0.5) * 2.0
  }

  /** A coordinate drawn as u * (extent - 2 * margin) + margin: the particle's centre
      keeps at least `margin` from both edges whenever the extent leaves room for it. */
  function Spread(u: real, margin: real, extent: real): (c: real)
    requires Unit(u)
    ensures 2.0 * margin <= extent ==> margin <= c <= extent - margin
    ensures 2.0 * margin < extent ==> c < extent - margin
    ensures extent < 2.0 * margin ==> extent - margin < c <= margin
  {
    Scaled(u, extent - 2.0 * margin) + margin
  }

  /** A draw in [0, 1) scales a span to a point between 0 and the span. */
  function Scaled(u: real, span: real): (t: real)
    requires Unit(u)
    ensures 0.0 <= span ==> 0.0 <= t <= span
    ensures 0.0 < span ==> t < span
    ensures span < 0.0 ==> span < t <= 0.0
  {
    // (1 - u) * span has the sign of span, as u * span does
    assert 0.0 < span ==> (1.0 - u) * span > 0.0 && u * span >= 0.0;
    assert span < 0.0 ==> (1.0 - u) * span < 0.0 && u * span <= 0.0;
    u * span
  }

  /** The shape of half-size `half` centred at `pos` pokes past an edge of [0, extent]. */
  predicate Outside(pos: real, half: real, extent: real)
  {
    pos + half > extent || pos - half < 0.0
  }

  /** The reflection rule of one axis: the velocity is negated when the shape, at its
      position before the move, pokes past either edge, whatever its direction. */
  function Bounce(pos: real, vel: real, half: real, extent: real): (v: real)
    ensures Abs(v) == Abs(vel)
    ensures v == vel <==> !Outside(pos, half, extent) || vel == 0.0
    ensures Outside(pos, half, extent) ==> v + vel == 0.0
  {
    if Outside(pos, half, extent) then -vel else vel
  }

  /** The pointer lies strictly inside the square of half-side Reach centred on (x, y).
      Before the first mouse movement the differences are NaN and every comparison fails. */
  predicate Near(p: Pointer, x: real, y: real)
  {
    match p
    case Unknown => false
    case At(mx, my) => mx - x < Reach && mx - x > -Reach && my - y < Reach && my - y > -Reach
  }

  lemma NearIsSquare(p: Pointer, x: real, y: real)
    ensures Near(p, x, y) <==> p.At? && Abs(p.x - x) < Reach && Abs(p.y - y) < Reach
  {
  }

  /** The comparison `a > b` where `b` may be an undefined property: false when it is. */
  predicate GreaterThan(a: int, b: Option<int>)
  {
    b.Some? && a > b.value
  }
}
