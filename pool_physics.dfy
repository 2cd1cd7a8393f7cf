/**
 * The pool table's bookkeeping as pure definitions over snapshots of a ball:
 * one frame of motion with friction and snap-to-rest, the cushion bounce,
 * pocket capture and the points it earns, the "balls in motion" query, the
 * win test, the shot power and launch velocity, and the starting rack.
 *
 * All quantities are exact reals. Where the game takes a square root (a
 * distance) the model states the defining relation instead: `d >= 0` and
 * `d * d == dx * dx + dy * dy`, or `sqrt(q) < R` as `R > 0 && q < R * R`.
 */
module PoolPhysics {

  /** Per-frame velocity decay of every moving ball. */
  const Friction: real := 0.98

  /** Below this on both axes a ball snaps to rest; above it on some axis a ball counts as moving. */
  const RestThreshold: real := 0.1

  /** Fraction of the speed kept, with the sign flipped, on hitting a cushion. */
  const Restitution: real := 0.8

  /** Points for potting a coloured ball. */
  const PotPoints: nat := 10

  const MaxPower: real := 20.0

  /** Drag distance per unit of power. */
  const PowerDivisor: real := 10.0

  /** A release closer than this to the cue ball is no shot. */
  const MinShotDistance: real := 10.0

  /** Launch speed per unit of power. */
  const LaunchScale: real := 0.3

  const BallRadius: real := 12.0
  const PocketRadius: real := 25.0

  /** The cue ball starts, and respawns, at x = 200 on the table's middle line. */
  const CueStartX: real := 200.0

  /** The rack: x of its apex, centre distance of neighbours (2.1 radii), and the row-to-row factor. */
  const RackStartX: real := 600.0
  const RackSpacing: real := 25.2
  const RackRowFactor: real := 0.866
  const RackRowCount: nat := 3

  /** The colours listed for the rack; only the first six are ever used. */
  const Colours: seq<string> := ["red", "yellow", "blue", "purple", "orange", "green", "brown", "black"]

  datatype BallState = BallState(x: real, y: real, vx: real, vy: real, radius: real, potted: bool)

  /** A pocket never changes after it is made. */
  datatype Pocket = Pocket(x: real, y: real, radius: real)

  function Abs(a: real): real {
    if a < 0.0 then -a else a
  }

  function Max(a: real, b: real): real {
    if a < b then b else a
  }

  function Min(a: real, b: real): real {
    if a < b then a else b
  }

  predicate AtRest(b: BallState) {
    b.vx == 0.0 && b.vy == 0.0
  }

  /** The larger of the two velocity components' magnitudes. */
  function Speed(b: BallState): real {
    Max(Abs(b.vx), Abs(b.vy))
  }

  // ---------------------------------------------------------------------
  // One frame of motion

  /**
   * One frame of a ball: a potted ball stays as it is; any other ball moves
   * by its velocity, then loses 2% of it, and comes to rest when both
   * components have fallen below the threshold.
   */
  function Stepped(b: BallState): (r: BallState)
    ensures b.potted ==> r == b
    ensures r.radius == b.radius && r.potted == b.potted
    ensures !b.potted ==> r.x == b.x + b.vx && r.y == b.y + b.vy
    ensures !b.potted && !AtRest(r) ==> r.vx == Friction * b.vx && r.vy == Friction * b.vy
    ensures !b.potted ==>
      (AtRest(r) <==> Abs(Friction * b.vx) < RestThreshold && Abs(Friction * b.vy) < RestThreshold)
    ensures !b.potted ==> AtRest(r) || Abs(r.vx) >= RestThreshold || Abs(r.vy) >= RestThreshold
    ensures Speed(r) <= Speed(b)
    ensures AtRest(b) ==> r == b
  {
    if b.potted then b
    else
      var vx, vy := b.vx * Friction, b.vy * Friction;
      var snap := Abs(vx) < RestThreshold && Abs(vy) < RestThreshold;
      b.(x := b.x + b.vx, y := b.y + b.vy,
         vx := if snap then 0.0 else vx, vy := if snap then 0.0 else vy)
  }

  /** The ball after `n` frames with nothing else acting on it. */
  function Frames(b: BallState, n: nat): BallState
    decreases n
  {
    if n == 0 then b else Frames(Stepped(b), n - 1)
  }

  lemma {:induction false} FramesAdd(b: BallState, n: nat, m: nat)
    ensures Frames(b, n + m) == Frames(Frames(b, n), m)
    decreases n
  {
    if n > 0 {
      FramesAdd(Stepped(b), n - 1, m);
    }
  }

  /** A ball at rest, or a potted ball, stays exactly as it is for any number of frames. */
  lemma {:induction false} FrozenStays(b: BallState, n: nat)
    requires AtRest(b) || b.potted
    ensures Frames(b, n) == b
    decreases n
  {
    if n > 0 {
      FrozenStays(Stepped(b), n - 1);
    }
  }

  /**
   * A free ball that is still moving after a frame has lost at least 0.002
   * of its speed in that frame, so a speed of at most (n + 1) * 0.002 is
   * gone after n + 1 frames.
   */
  lemma {:induction false} ComesToRest(b: BallState, n: nat)
    requires !b.potted && Speed(b) <= (n as real + 1.0) * 0.002
    ensures AtRest(Frames(b, n + 1))
    decreases n
  {
    var b1 := Stepped(b);
    if AtRest(b1) {
      FrozenStays(b1, n);
    } else {
      assert Speed(b1) == Friction * Speed(b) && Speed(b1) >= RestThreshold;
      assert n > 0;
      ComesToRest(b1, n - 1);
    }
  }

  /** From frame `n` on, the ball is at rest. */
  ghost predicate RestsFrom(b: BallState, n: nat) {
    forall m: nat :: n <= m ==> AtRest(Frames(b, m))
  }

  /** Every free ball comes to rest after finitely many frames and then stays at rest. */
  lemma EventuallyAtRest(b: BallState)
    requires !b.potted
    ensures exists n: nat :: RestsFrom(b, n)
  {
    var n: nat := (Speed(b) / 0.002).Floor as nat;
    ComesToRest(b, n);
    forall m: nat | n + 1 <= m
      ensures AtRest(Frames(b, m))
    {
      FramesAdd(b, n + 1, m - (n + 1));
      FrozenStays(Frames(b, n + 1), m - (n + 1));
    }
    assert RestsFrom(b, n + 1);
  }

  /**
   * A free ball slower than the threshold on both axes still moves by its
   * velocity in the next frame, and is at rest after it.
   */
  lemma SlowBallDriftsOnce(b: BallState)
    requires !b.potted && Abs(b.vx) < RestThreshold && Abs(b.vy) < RestThreshold
    ensures Stepped(b).x == b.x + b.vx && Stepped(b).y == b.y + b.vy
    ensures AtRest(Stepped(b))
  {
  }

  // ---------------------------------------------------------------------
  // Cushions

  /** On one axis, the ball of radius r at p reaches past the edge 0 or the edge `size`. */
  predicate Crosses(p: real, r: real, size: real) {
    p - r < 0.0 || p + r > size
  }

  /**
   * The cushion rule on one axis: a ball that crosses an edge has its
   * velocity reversed and cut to 80%, and its centre clamped into
   * [r, size - r]; a ball inside is left alone.
   */
  function BounceAxis(p: real, v: real, r: real, size: real): (res: (real, real))
    ensures Crosses(p, r, size) ==> res.1 == -Restitution * v
    ensures !Crosses(p, r, size) ==> res == (p, v)
    ensures 2.0 * r <= size ==> r <= res.0 <= size - r
    ensures 2.0 * r <= size ==>
      && (p < r ==> res.0 == r)
      && (p > size - r ==> res.0 == size - r)
      && (r <= p <= size - r ==> res.0 == p)
  {
    if Crosses(p, r, size) then (Max(r, Min(size - r, p)), -v * Restitution) else (p, v)
  }

  /** The cushion pass for one ball on a table of `width` x `height`; potted balls are skipped. */
  function Bounced(b: BallState, width: real, height: real): (r: BallState)
    ensures b.potted ==> r == b
    ensures r.radius == b.radius && r.potted == b.potted
    ensures !b.potted && 2.0 * b.radius <= width && 2.0 * b.radius <= height ==>
      b.radius <= r.x <= width - b.radius && b.radius <= r.y <= height - b.radius
  {
    if b.potted then b
    else
      var (x, vx) := BounceAxis(b.x, b.vx, b.radius, width);
      var (y, vy) := BounceAxis(b.y, b.vy, b.radius, height);
      b.(x := x, vx := vx, y := y, vy := vy)
  }

  // ---------------------------------------------------------------------
  // Pockets and points

  /**
   * A ball of radius r centred at (x, y) is inside the pocket: its centre is
   * closer to the pocket's centre than the pocket's radius less r.
   */
  predicate InPocket(x: real, y: real, r: real, p: Pocket) {
    var reach := p.radius - r;
    var dx, dy := x - p.x, y - p.y;
    reach > 0.0 && dx * dx + dy * dy < reach * reach
  }

  predicate Captures(b: BallState, p: Pocket) {
    InPocket(b.x, b.y, b.radius, p)
  }

  /** Points for the pockets `ps` capturing the ball: 10 for each, as the game tests every pocket. */
  function CapturePoints(b: BallState, ps: seq<Pocket>): nat {
    if ps == [] then 0
    else CapturePoints(b, ps[..|ps| - 1]) + (if Captures(b, ps[|ps| - 1]) then PotPoints else 0)
  }

  /** The pockets earn points exactly when one of them captures the ball. */
  lemma {:induction false} CapturePointsPositive(b: BallState, ps: seq<Pocket>)
    ensures CapturePoints(b, ps) > 0 <==> exists k :: 0 <= k < |ps| && Captures(b, ps[k])
    decreases |ps|
  {
    if ps != [] {
      var t := ps[..|ps| - 1];
      CapturePointsPositive(b, t);
      if exists k :: 0 <= k < |t| && Captures(b, t[k]) {
        var k :| 0 <= k < |t| && Captures(b, t[k]);
        assert ps[k] == t[k];
      }
      if exists k :: 0 <= k < |ps| && Captures(b, ps[k]) {
        var k :| 0 <= k < |ps| && Captures(b, ps[k]);
        if k < |ps| - 1 {
          assert t[k] == ps[k];
        }
      }
    }
  }

  /** The pocket pass for one ball: a free ball that a pocket captures becomes potted. */
  function Pocketed(b: BallState, ps: seq<Pocket>): BallState {
    if b.potted then b else b.(potted := CapturePoints(b, ps) > 0)
  }

  /**
   * After the pocket pass a ball is potted exactly when it was already, or
   * some pocket captures it; its position and velocity do not change.
   */
  lemma PocketedMeaning(b: BallState, ps: seq<Pocket>)
    ensures Pocketed(b, ps).potted <==> b.potted || exists k :: 0 <= k < |ps| && Captures(b, ps[k])
    ensures Pocketed(b, ps).(potted := b.potted) == b
  {
    CapturePointsPositive(b, ps);
  }

  /** Points one ball earns in a pocket pass, were it a coloured ball: none once potted. */
  function PotGain(b: BallState, ps: seq<Pocket>): nat {
    if b.potted then 0 else CapturePoints(b, ps)
  }

  /** Points a pocket pass earns over the balls `s`, the cue ball first and earning nothing. */
  function ColourGain(s: seq<BallState>, ps: seq<Pocket>): nat {
    if |s| <= 1 then 0 else ColourGain(s[..|s| - 1], ps) + PotGain(s[|s| - 1], ps)
  }

  /** A pocket pass earns points exactly when some pocket captures a coloured ball still on the table. */
  lemma {:induction false} ColourGainPositive(s: seq<BallState>, ps: seq<Pocket>)
    ensures ColourGain(s, ps) > 0 <==>
      exists i, k :: 1 <= i < |s| && 0 <= k < |ps| && !s[i].potted && Captures(s[i], ps[k])
    decreases |s|
  {
    if |s| > 1 {
      var t := s[..|s| - 1];
      ColourGainPositive(t, ps);
      CapturePointsPositive(s[|s| - 1], ps);
      if ColourGain(t, ps) > 0 {
        var i, k :| 1 <= i < |t| && 0 <= k < |ps| && !t[i].potted && Captures(t[i], ps[k]);
        assert s[i] == t[i];
      }
      if exists i, k :: 1 <= i < |s| && 0 <= k < |ps| && !s[i].potted && Captures(s[i], ps[k]) {
        var i, k :| 1 <= i < |s| && 0 <= k < |ps| && !s[i].potted && Captures(s[i], ps[k]);
        if i < |s| - 1 {
          assert t[i] == s[i];
        }
      }
    }
  }

  /** The cue ball (index 0) never earns points, whatever pocket takes it. */
  lemma {:induction false} CueEarnsNothing(s: seq<BallState>, cue: BallState, ps: seq<Pocket>)
    requires |s| >= 1
    ensures ColourGain(s[0 := cue], ps) == ColourGain(s, ps)
    decreases |s|
  {
    if |s| > 1 {
      assert s[0 := cue][..|s| - 1] == s[..|s| - 1][0 := cue];
      CueEarnsNothing(s[..|s| - 1], cue, ps);
    }
  }

  // ---------------------------------------------------------------------
  // The whole table

  /** A ball that is on the table and faster than the threshold on some axis. */
  predicate IsMoving(b: BallState) {
    !b.potted && (Abs(b.vx) > RestThreshold || Abs(b.vy) > RestThreshold)
  }

  /** "Some ball is moving", decided ball by ball from the first. */
  function SomeMoving(s: seq<BallState>): (m: bool)
    ensures m <==> exists i :: 0 <= i < |s| && IsMoving(s[i])
  {
    if s == [] then false else IsMoving(s[0]) || SomeMoving(s[1..])
  }

  /** How many of the balls are potted. */
  function PottedCount(s: seq<BallState>): (n: nat)
    ensures n <= |s|
    ensures n == |s| <==> forall i :: 0 <= i < |s| ==> s[i].potted
  {
    if s == [] then 0 else (if s[0].potted then 1 else 0) + PottedCount(s[1..])
  }

  /** Every ball after the cue ball (index 0) is potted. */
  predicate AllColouredPotted(s: seq<BallState>) {
    forall i :: 1 <= i < |s| ==> s[i].potted
  }

  /**
   * The gap between the snap test and the moving test: a ball at exactly 0.1
   * on one axis (and at most 0.1 on the other) is neither at rest nor moving,
   * yet it still moves in the next frame, and only then stops.
   */
  lemma ThresholdGap(b: BallState)
    requires !b.potted && Abs(b.vx) == RestThreshold && Abs(b.vy) <= RestThreshold
    ensures !AtRest(b) && !IsMoving(b)
    ensures Stepped(b).x == b.x + b.vx && Stepped(b).x != b.x && AtRest(Stepped(b))
  {
  }

  /** A frame of friction brings a ball at 0.1 / 0.98 to exactly the gap of ThresholdGap. */
  lemma ThresholdReached()
    ensures var r := Stepped(BallState(0.0, 0.0, RestThreshold / Friction, 0.0, BallRadius, false));
      r.vx == RestThreshold && r.vy == 0.0 && !r.potted && !AtRest(r) && !IsMoving(r)
  {
  }

  /** One frame of the table when it runs: every ball moves, then the cushions, then the pockets. */
  function Advanced(s: seq<BallState>, ps: seq<Pocket>, width: real, height: real): seq<BallState> {
    seq(|s|, i requires 0 <= i < |s| => Pocketed(Bounced(Stepped(s[i]), width, height), ps))
  }

  /** A ball no part of a frame disturbs: potted, or at rest, clear of the cushions and outside every pocket. */
  predicate Quiet(b: BallState, ps: seq<Pocket>, width: real, height: real) {
    || b.potted
    || (&& AtRest(b)
        && !Crosses(b.x, b.radius, width) && !Crosses(b.y, b.radius, height)
        && forall k :: 0 <= k < |ps| ==> !Captures(b, ps[k]))
  }

  /** A running frame leaves a table of quiet balls exactly as it was. */
  lemma QuietTableStays(s: seq<BallState>, ps: seq<Pocket>, width: real, height: real)
    requires forall i :: 0 <= i < |s| ==> Quiet(s[i], ps, width, height)
    ensures Advanced(s, ps, width, height) == s
  {
    forall i | 0 <= i < |s|
      ensures Advanced(s, ps, width, height)[i] == s[i]
    {
      var b := Bounced(Stepped(s[i]), width, height);
      if !s[i].potted {
        assert Stepped(s[i]) == s[i];
        assert b == s[i];
        PocketedMeaning(b, ps);
      }
    }
  }

  /** The balls after the motion and cushion steps of a frame, as the pocket pass sees them. */
  function BeforePockets(s: seq<BallState>, width: real, height: real): seq<BallState> {
    seq(|s|, i requires 0 <= i < |s| => Bounced(Stepped(s[i]), width, height))
  }

  /**
   * Over one running frame: a potted ball is untouched; a ball on the table
   * ends the frame potted exactly when a pocket captures it where the cushion
   * step left it; and a ball on the table that fits between the cushions
   * ends the frame with its centre inside them.
   */
  lemma AdvancedKeepsTable(s: seq<BallState>, ps: seq<Pocket>, width: real, height: real, i: int)
    requires 0 <= i < |s|
    ensures |Advanced(s, ps, width, height)| == |s|
    ensures s[i].potted ==> Advanced(s, ps, width, height)[i] == s[i]
    ensures !s[i].potted ==> (Advanced(s, ps, width, height)[i].potted <==>
      exists k :: 0 <= k < |ps| && Captures(BeforePockets(s, width, height)[i], ps[k]))
    ensures var b := Advanced(s, ps, width, height)[i];
      !s[i].potted && 2.0 * s[i].radius <= width && 2.0 * s[i].radius <= height ==>
        s[i].radius <= b.x <= width - s[i].radius && s[i].radius <= b.y <= height - s[i].radius
  {
    var b := BeforePockets(s, width, height)[i];
    PocketedMeaning(b, ps);
  }

  // ---------------------------------------------------------------------
  // Aiming and the shot

  /** `d` is the length of the vector (dx, dy). */
  predicate IsDistance(d: real, dx: real, dy: real) {
    d >= 0.0 && d * d == dx * dx + dy * dy
  }

  /** The shot power for a drag of length `d`: a tenth of it, capped at MaxPower. */
  function Power(d: real): (p: real)
    requires d >= 0.0
    ensures 0.0 <= p <= MaxPower && p <= d / PowerDivisor
    ensures p == d / PowerDivisor || p == MaxPower
  {
    Min(d / PowerDivisor, MaxPower)
  }

  /**
   * The cue ball's velocity for a release at (dx, dy) from its centre, at
   * distance d: the unit vector towards the release point (the cosine and
   * sine of its angle) times the power times the launch scale.
   */
  function Launch(dx: real, dy: real, d: real): (real, real)
    requires IsDistance(d, dx, dy) && d > 0.0
  {
    var s := Power(d) * LaunchScale;
    (dx / d * s, dy / d * s)
  }

  /**
   * A shot sends the cue ball straight towards the release point with speed
   * power * 0.3, so never faster than 6.
   */
  lemma LaunchTowardsRelease(dx: real, dy: real, d: real)
    requires IsDistance(d, dx, dy) && d > MinShotDistance
    ensures var (vx, vy) := Launch(dx, dy, d);
      && vx * vx + vy * vy == (Power(d) * LaunchScale) * (Power(d) * LaunchScale)
      && vx * dy == vy * dx
      && vx * dx + vy * dy > 0.0
      && vx * vx + vy * vy <= (MaxPower * LaunchScale) * (MaxPower * LaunchScale)
  {
    var s := Power(d) * LaunchScale;
    var u, w := dx / d, dy / d;
    assert dx == u * d && dy == w * d;
    SquaresScale(u, w, d);
    Cancel(u * u + w * w, 1.0, d * d);
    var (vx, vy) := Launch(dx, dy, d);
    assert vx == u * s && vy == w * s;
    SquaresScale(u, w, s);
    assert vx * dy == u * s * (w * d) && vy * dx == w * s * (u * d);
    assert s > 0.0;
    assert vx * dx + vy * dy == s * d * (u * u + w * w);
    assert 0.0 < s <= MaxPower * LaunchScale;
    assert 0.0 < s <= 6.0;
    assert s * s <= 6.0 * s <= 36.0;
    assert vx * vx + vy * vy == s * s;
  }

  lemma SquaresScale(a: real, b: real, k: real)
    ensures (a * k) * (a * k) + (b * k) * (b * k) == (a * a + b * b) * (k * k)
  {
  }

  lemma Cancel(x: real, y: real, k: real)
    requires k != 0.0 && x * k == y * k
    ensures x == y
  {
    assert (x - y) * k == 0.0;
  }

  // ---------------------------------------------------------------------
  // The starting position

  /** Where the cue ball starts and respawns on a table of the given height, at rest. */
  function CueStart(height: real): BallState {
    BallState(CueStartX, height / 2.0, 0.0, 0.0, BallRadius, false)
  }

  /** Ball `col` of rack row `row`; row k holds k + 1 balls centred on the middle line. */
  function RackBall(row: nat, col: nat, height: real): BallState {
    BallState(RackStartX + row as real * RackSpacing * RackRowFactor,
              height / 2.0 + (col as real - row as real / 2.0) * RackSpacing,
              0.0, 0.0, BallRadius, false)
  }

  /** The first `n` balls of rack row `row`. */
  function RackRow(row: nat, n: nat, height: real): (s: seq<BallState>)
    ensures |s| == n
    ensures forall c :: 0 <= c < n ==> s[c] == RackBall(row, c, height)
  {
    if n == 0 then [] else RackRow(row, n - 1, height) + [RackBall(row, n - 1, height)]
  }

  /** Rows 0 .. rows - 1 of the rack, in the order the game creates them. */
  function Rack(rows: nat, height: real): seq<BallState> {
    if rows == 0 then [] else Rack(rows - 1, height) + RackRow(rows - 1, rows, height)
  }

  /** A rack of n rows holds 1 + 2 + ... + n balls. */
  lemma {:induction false} RackSize(rows: nat, height: real)
    ensures 2 * |Rack(rows, height)| == rows * (rows + 1)
  {
    if rows > 0 {
      RackSize(rows - 1, height);
    }
  }

  /** A rack of more rows holds at least as many balls. */
  lemma {:induction false} RackGrows(rows: nat, more: nat, height: real)
    requires rows <= more
    ensures |Rack(rows, height)| <= |Rack(more, height)|
    decreases more - rows
  {
    if rows < more {
      RackGrows(rows + 1, more, height);
    }
  }

  /** Every ball of the rack starts at rest and on the table, inside the triangle's rows. */
  lemma {:induction false} RackAtRest(rows: nat, height: real)
    ensures forall i :: 0 <= i < |Rack(rows, height)| ==>
      AtRest(Rack(rows, height)[i]) && !Rack(rows, height)[i].potted &&
      Rack(rows, height)[i].radius == BallRadius
  {
    if rows > 0 {
      RackAtRest(rows - 1, height);
    }
  }

  /** The game's rack has three rows: six coloured balls, although eight colours are listed. */
  lemma SixColouredBalls(height: real)
    ensures |Rack(RackRowCount, height)| == 6 < |Colours|
  {
    RackSize(RackRowCount, height);
  }

  /** A freshly set up table has coloured balls on it, so the win test cannot fire on it. */
  lemma FreshTableNotWon(height: real)
    ensures !AllColouredPotted([CueStart(height)] + Rack(RackRowCount, height))
  {
    SixColouredBalls(height);
    RackAtRest(RackRowCount, height);
    assert ([CueStart(height)] + Rack(RackRowCount, height))[1] == Rack(RackRowCount, height)[0];
  }

  /** The six pockets: four corners and the middle of the two long cushions. */
  function Pockets(width: real, height: real): (ps: seq<Pocket>)
    ensures |ps| == 6
    ensures forall k :: 0 <= k < |ps| ==> ps[k].radius == PocketRadius
  {
    var r := PocketRadius;
    [Pocket(r, r, r), Pocket(width - r, r, r), Pocket(r, height - r, r),
     Pocket(width - r, height - r, r), Pocket(width / 2.0, r, r), Pocket(width / 2.0, height - r, r)]
  }
}
