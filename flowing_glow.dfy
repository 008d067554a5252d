/**
  The short glowing segment that travels along every line of the network
  (FlowingGlow in src/components/ui/background-paths.tsx): on each frame the
  clock gives a phase t in [0, 1), and the glow covers the part of the line
  between parameters max(0, t - 0.04) and min(1, t + 0.04).

  The clock reading is an input. The opacity curve (a sine) and the
  three.js buffer update are not part of this model.
*/
module FlowingGlow {
  import opened BackgroundPaths

  /** Seconds for a glow to travel the whole line once. */
  const CycleSeconds: real := 1.5
  /** Length of the glowing part, as a fraction of the line. */
  const SegmentLength: real := 0.08
  /** Delay between the glows of consecutive lines, in seconds. */
  const GlowStagger: real := 0.08

  /** Truncation toward zero, as JavaScript's `%` uses it. */
  function Trunc(x: real): (n: int)
    ensures 0.0 <= x ==> n as real <= x < n as real + 1.0
    ensures x < 0.0 ==> n as real - 1.0 < x <= n as real
  {
    if 0.0 <= x then x.Floor else -((-x).Floor)
  }

  /** JavaScript's `x % 1.5` on numbers: the remainder of truncating division, carrying the sign of `x`. */
  function CycleRemainder(x: real): (r: real)
    ensures 0.0 <= x ==> 0.0 <= r < CycleSeconds
    ensures x < 0.0 ==> -CycleSeconds < r <= 0.0
  {
    x - CycleSeconds * Trunc(x / CycleSeconds) as real
  }

  /** The delay given to the glow on the line at position `i` of the flattened list. */
  function GlowDelay(i: nat): (d: real)
    ensures 0.0 <= d
    ensures i > 0 ==> GlowStagger <= d
  {
    i as real * GlowStagger
  }

  /** The phase `((elapsed + delay) % 1.5) / 1.5`; for a non-negative clock it lies in [0, 1). */
  function GlowPhase(elapsed: real, delay: real): (t: real)
    ensures 0.0 <= elapsed + delay ==> 0.0 <= t < 1.0
  {
    CycleRemainder(elapsed + delay) / CycleSeconds
  }

  /** The interpolation parameters of the glow's two ends. */
  datatype Window = Window(startT: real, endT: real)

  function Max(a: real, b: real): real {
    if a < b then b else a
  }

  function Min(a: real, b: real): real {
    if a < b then a else b
  }

  /**
    The glow window around `t`, clamped to the line: for t in [0, 1] it
    stays inside [0, 1], contains t, is never longer than SegmentLength,
    and has exactly that length away from the ends of the line.
  */
  function GlowWindow(t: real): (w: Window)
    ensures 0.0 <= t <= 1.0 ==> 0.0 <= w.startT <= t <= w.endT <= 1.0
    ensures 0.0 <= t <= 1.0 ==> w.endT - w.startT <= SegmentLength
    ensures SegmentLength / 2.0 <= t <= 1.0 - SegmentLength / 2.0 ==> w.endT - w.startT == SegmentLength
  {
    Window(Max(0.0, t - SegmentLength / 2.0), Min(1.0, t + SegmentLength / 2.0))
  }

  /** The product of two non-negative reals is non-negative (the solver's nonlinear step for ScaleBounds). */
  lemma MulNonNegative(x: real, y: real)
    requires 0.0 <= x && 0.0 <= y
    ensures 0.0 <= x * y
  {
  }

  /** A fraction `s` in [0, 1] of a signed length `d` lies between 0 and `d`. */
  lemma ScaleBounds(d: real, s: real)
    ensures s == 0.0 ==> d * s == 0.0
    ensures s == 1.0 ==> d * s == d
    ensures 0.0 <= s <= 1.0 && 0.0 <= d ==> 0.0 <= d * s <= d
    ensures 0.0 <= s <= 1.0 && d <= 0.0 ==> d <= d * s <= 0.0
  {
    if 0.0 <= s <= 1.0 {
      assert d * (1.0 - s) == d - d * s;
      if 0.0 <= d {
        MulNonNegative(d, s);
        MulNonNegative(d, 1.0 - s);
      } else {
        MulNonNegative(-d, s);
        MulNonNegative(-d, 1.0 - s);
        assert (-d) * s == -(d * s);
        assert (-d) * (1.0 - s) == -(d * (1.0 - s));
      }
    }
  }

  /** `a + (b - a) * s`: for s in [0, 1] the result lies between a and b. */
  function Lerp(a: real, b: real, s: real): (r: real)
    ensures s == 0.0 ==> r == a
    ensures s == 1.0 ==> r == b
    ensures 0.0 <= s <= 1.0 && a <= b ==> a <= r <= b
    ensures 0.0 <= s <= 1.0 && b <= a ==> b <= r <= a
  {
    var d := b - a;
    ScaleBounds(d, s);
    a + d * s
  }

  /** The point at parameter `s` of the line from `start` to `end`. */
  function Interpolate(start: Position, end: Position, s: real): (p: Position)
    ensures s == 0.0 ==> p == start
    ensures s == 1.0 ==> p == end
    ensures 0.0 <= s <= 1.0 ==> InBox(start, end, p)
  {
    Position(Lerp(start.x, end.x, s), Lerp(start.y, end.y, s), Lerp(start.z, end.z, s))
  }

  /** `p` lies in the axis-aligned box spanned by `a` and `b`. */
  predicate InBox(a: Position, b: Position, p: Position) {
    && Min(a.x, b.x) <= p.x <= Max(a.x, b.x)
    && Min(a.y, b.y) <= p.y <= Max(a.y, b.y)
    && Min(a.z, b.z) <= p.z <= Max(a.z, b.z)
  }

  /** The two points handed to the line geometry on one frame. */
  datatype GlowSegment = GlowSegment(from: Position, to: Position)

  /** One frame of a glow: the parameters of its ends and the points they select. */
  function GlowAt(start: Position, end: Position, elapsed: real, delay: real): (g: GlowSegment)
    ensures 0.0 <= elapsed + delay ==>
      var w := GlowWindow(GlowPhase(elapsed, delay));
      && 0.0 <= w.startT <= w.endT <= 1.0
      && w.endT - w.startT <= SegmentLength
      && g == GlowSegment(Interpolate(start, end, w.startT), Interpolate(start, end, w.endT))
      && InBox(start, end, g.from) && InBox(start, end, g.to)
  {
    var w := GlowWindow(GlowPhase(elapsed, delay));
    GlowSegment(Interpolate(start, end, w.startT), Interpolate(start, end, w.endT))
  }

  /**
    The glows of the network (`connections.map((conn, i) => ...)`): one per
    flattened line, the glow of line e running along that line with a delay
    of e times GlowStagger. For a running clock every glow stays within the
    box of its own line.
  */
  function NetworkGlows(lines: seq<Line>, elapsed: real): (gs: seq<GlowSegment>)
    ensures |gs| == |lines|
    ensures forall e :: 0 <= e < |lines| ==> gs[e] == GlowAt(lines[e].start, lines[e].end, elapsed, GlowDelay(e))
    ensures 0.0 <= elapsed ==> forall e :: 0 <= e < |lines| ==>
      InBox(lines[e].start, lines[e].end, gs[e].from) && InBox(lines[e].start, lines[e].end, gs[e].to)
  {
    seq(|lines|, e requires 0 <= e < |lines| => GlowAt(lines[e].start, lines[e].end, elapsed, GlowDelay(e)))
  }
}
