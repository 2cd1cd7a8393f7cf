/**
 * The pool game's state, updated in place: balls whose fields each frame
 * rewrites, and the table that owns them with its score, pause flag and
 * aiming state. Every method is specified against the pure definitions of
 * PoolPhysics, applied to snapshots of the balls.
 *
 * The cue ball is one of the balls, found by identity; it is kept first.
 */
module Pool {
  import opened PoolPhysics

  class Ball {
    var x: real
    var y: real
    var vx: real
    var vy: real
    const radius: real
    const colour: string
    const mass: real
    var isPotted: bool

    /** A ball placed at (x0, y0), at rest and on the table. */
    constructor (x0: real, y0: real, radius: real, colour: string, mass: real)
      ensures State() == BallState(x0, y0, 0.0, 0.0, radius, false)
      ensures this.colour == colour && this.mass == mass
    {
      x, y := x0, y0;
      vx, vy := 0.0, 0.0;
      this.radius := radius;
      this.colour := colour;
      this.mass := mass;
      isPotted := false;
    }

    /** The ball's fields as a value. */
    function State(): BallState
      reads this
    {
      BallState(x, y, vx, vy, radius, isPotted)
    }

    /** One frame of motion: move, lose 2% of the velocity, snap to rest when slow. */
    method Update()
      modifies this
      ensures State() == Stepped(old(State()))
    {
      if isPotted {
        return;
      }
      x := x + vx;
      y := y + vy;
      vx := vx * Friction;
      vy := vy * Friction;
      if Abs(vx) < RestThreshold && Abs(vy) < RestThreshold {
        vx := 0.0;
        vy := 0.0;
      }
    }
  }

  class PoolGame {
    const width: real
    const height: real
    var balls: seq<Ball>
    var pockets: seq<Pocket>
    var cueBall: Ball
    var isAiming: bool
    var aimStartX: real
    var aimStartY: real
    var power: real
    var score: int
    var gameRunning: bool

    /**
     * The cue ball is the first ball, no ball is listed twice, the power is
     * within [0, MaxPower] and zero unless aiming, and the score is not
     * negative.
     */
    ghost predicate Valid()
      reads this
    {
      && |balls| >= 1 && balls[0] == cueBall
      && (forall i, j :: 0 <= i < j < |balls| ==> balls[i] != balls[j])
      && 0.0 <= power <= MaxPower && (!isAiming ==> power == 0.0)
      && score >= 0
    }

    /** Every ball after the cue ball is potted: the win condition on the live balls. */
    predicate ColoursPotted()
      reads this, balls
    {
      AllColouredPotted(States())
    }

    /** The balls as values, in list order. */
    function States(): (s: seq<BallState>)
      reads this, balls
      ensures |s| == |balls|
      ensures forall i :: 0 <= i < |balls| ==> s[i] == balls[i].State()
    {
      var bs := balls;
      seq(|bs|, i requires 0 <= i < |bs| reads bs => bs[i].State())
    }

    /** A new session on a `width` x `height` table: the rack is set up, nothing is aimed, the score is zero and the game runs. */
    constructor (width: real, height: real)
      ensures Valid() && this.width == width && this.height == height
      ensures States() == [CueStart(height)] + Rack(RackRowCount, height)
      ensures pockets == Pockets(width, height)
      ensures !isAiming && power == 0.0 && score == 0 && gameRunning
    {
      this.width := width;
      this.height := height;
      // A stand-in cue ball so the object is valid before SetupGame builds the real rack and cue ball.
      var cue := new Ball(CueStartX, height / 2.0, BallRadius, "white", 1.0);
      balls, pockets, cueBall := [cue], [], cue;
      isAiming, aimStartX, aimStartY, power := false, 0.0, 0.0, 0.0;
      score, gameRunning := 0, true;
      new;
      SetupGame();
    }

    /**
     * New pockets and new balls: the cue ball at its start and the three
     * rack rows behind it, in the order the rack loop creates them.
     */
    method SetupGame()
      requires Valid()
      modifies this`balls, this`pockets, this`cueBall
      ensures Valid()
      ensures States() == [CueStart(height)] + Rack(RackRowCount, height)
      ensures |balls| == 7 && forall i :: 1 <= i < |balls| ==> balls[i].colour == Colours[i - 1]
      ensures forall i :: 0 <= i < |balls| ==> fresh(balls[i])
      ensures pockets == Pockets(width, height)
    {
      pockets := Pockets(width, height);
      cueBall := new Ball(CueStartX, height / 2.0, BallRadius, "white", 1.0);
      balls := [cueBall];
      PlaceRack();
      SixColouredBalls(height);
      assert States() == [CueStart(height)] + Rack(RackRowCount, height);
    }

    /** The rack loop: behind the lone cue ball, rows 0 .. RackRowCount - 1 of fresh coloured balls. */
    method PlaceRack()
      requires Valid() && |balls| == 1
      modifies this`balls
      ensures Valid() && Placed(Rack(RackRowCount, height)) && balls[0] == old(balls[0])
      ensures forall i :: 1 <= i < |balls| ==> fresh(balls[i])
    {
      var ballIndex := 0;
      for row := 0 to RackRowCount
        invariant Valid() && balls[0] == old(balls[0])
        invariant Placed(Rack(row, height)) && ballIndex == |balls| - 1
        invariant forall i :: 1 <= i < |balls| ==> fresh(balls[i])
      {
        ballIndex := AddRackRow(row, ballIndex);
      }
    }

    /** Balls 1 .. |balls| - 1 are the balls `s`, coloured in list order. */
    ghost predicate Placed(s: seq<BallState>)
      reads this, balls
    {
      && |balls| == 1 + |s| <= 1 + |Colours|
      && forall i :: 1 <= i < |balls| ==> balls[i].State() == s[i - 1] && balls[i].colour == Colours[i - 1]
    }

    /** One row of the rack loop: balls 0 .. row of that row, each with the next colour, appended in order. */
    method AddRackRow(row: nat, ballIndex: nat) returns (next: nat)
      requires Valid() && row < RackRowCount && Placed(Rack(row, height)) && ballIndex == |balls| - 1
      modifies this`balls
      ensures Valid() && Placed(Rack(row + 1, height)) && next == |balls| - 1
      ensures forall i :: 0 <= i < |balls| ==>
        if i < |old(balls)| then balls[i] == old(balls)[i] else fresh(balls[i])
    {
      RackGrows(row + 1, RackRowCount, height);
      SixColouredBalls(height);
      next := ballIndex;
      for col := 0 to row + 1
        invariant Valid() && next == ballIndex + col
        invariant Placed(Rack(row, height) + RackRow(row, col, height))
        invariant forall i :: 0 <= i < |balls| ==>
          if i < |old(balls)| then balls[i] == old(balls)[i] else fresh(balls[i])
      {
        if next < |Colours| {
          var rb := RackBall(row, col, height);
          var ball := new Ball(rb.x, rb.y, BallRadius, Colours[next], 1.0);
          AppendBall(ball, Rack(row, height) + RackRow(row, col, height));
          assert Rack(row, height) + RackRow(row, col, height) + [rb] ==
            Rack(row, height) + RackRow(row, col + 1, height);
          next := next + 1;
        }
      }
    }

    /** Appends a ball not yet on the list, the next one of the balls `s` with the next colour. */
    method AppendBall(ball: Ball, ghost s: seq<BallState>)
      requires Valid() && ball !in balls && Placed(s)
      requires |s| < |Colours| && ball.colour == Colours[|s|]
      modifies this`balls
      ensures Valid() && balls == old(balls) + [ball] && Placed(s + [ball.State()])
    {
      balls := balls + [ball];
    }

    /** Whether some ball on the table is faster than the threshold on some axis. */
    function BallsMoving(): (m: bool)
      reads this, balls
      ensures m <==> exists i :: 0 <= i < |balls| && IsMoving(balls[i].State())
    {
      assert forall i :: 0 <= i < |balls| ==> (IsMoving(States()[i]) <==> IsMoving(balls[i].State()));
      SomeMoving(States())
    }

    /** The win test: as many coloured balls are potted as there are coloured balls. */
    method UpdateScore() returns (won: bool)
      requires Valid()
      ensures won <==> ColoursPotted()
    {
      var colourBalls := States()[1..];
      won := PottedCount(colourBalls) == |colourBalls|;
      assert forall i :: 1 <= i < |balls| ==> colourBalls[i - 1] == balls[i].State();
    }

    /**
     * One frame of the game loop: when the game runs, every ball moves, then
     * the cushion pass and the pocket pass run; when it is paused nothing
     * changes. `won` tells whether the win test fired during the pocket pass.
     */
    method Tick() returns (won: bool)
      requires Valid()
      modifies balls, this`score
      ensures Valid()
      ensures !old(gameRunning) ==> States() == old(States()) && score == old(score) && !won
      ensures old(gameRunning) ==> States() == Advanced(old(States()), pockets, width, height)
      ensures old(gameRunning) ==>
        score == old(score) + ColourGain(BeforePockets(old(States()), width, height), pockets)
      ensures old(gameRunning) ==>
        (won <==> ColourGain(BeforePockets(old(States()), width, height), pockets) > 0 && AllColouredPotted(States()))
    {
      if !gameRunning {
        return false;
      }
      ghost var s0 := States();
      for i := 0 to |balls|
        invariant Valid() && score == old(score)
        invariant forall j :: 0 <= j < i ==> balls[j].State() == Stepped(s0[j])
        invariant forall j :: i <= j < |balls| ==> balls[j].State() == s0[j]
      {
        balls[i].Update();
      }
      BoundaryPass();
      ghost var s2 := States();
      assert s2 == BeforePockets(s0, width, height);
      won := PocketPass();
      assert States() == Advanced(s0, pockets, width, height);
    }

    /** The cushion pass: every ball on the table bounces off the edges it crosses; potted balls are skipped. */
    method BoundaryPass()
      requires Valid()
      modifies balls
      ensures forall i :: 0 <= i < |balls| ==> balls[i].State() == Bounced(old(balls[i].State()), width, height)
    {
      for i := 0 to |balls|
        invariant forall j :: 0 <= j < i ==> balls[j].State() == Bounced(old(balls[j].State()), width, height)
        invariant forall j :: i <= j < |balls| ==> balls[j].State() == old(balls[j].State())
      {
        var ball := balls[i];
        if ball.isPotted {
          continue;
        }
        if ball.x - ball.radius < 0.0 || ball.x + ball.radius > width {
          ball.vx := -ball.vx * Restitution;
          ball.x := Max(ball.radius, Min(width - ball.radius, ball.x));
        }
        if ball.y - ball.radius < 0.0 || ball.y + ball.radius > height {
          ball.vy := -ball.vy * Restitution;
          ball.y := Max(ball.radius, Min(height - ball.radius, ball.y));
        }
      }
    }

    /**
     * The pocket pass: each ball still on the table is tested against every
     * pocket; each capture pots it and, for a coloured ball, earns 10 points
     * and runs the win test. `won` tells whether the win test fired.
     */
    method PocketPass() returns (won: bool)
      requires Valid()
      modifies balls, this`score
      ensures Valid()
      ensures forall i :: 0 <= i < |balls| ==> balls[i].State() == Pocketed(old(balls[i].State()), pockets)
      ensures score == old(score) + ColourGain(old(States()), pockets)
      ensures won <==> ColourGain(old(States()), pockets) > 0 && AllColouredPotted(States())
    {
      won := false;
      ghost var s0 := old(States());
      for i := 0 to |balls|
        invariant Valid()
        invariant forall j :: 0 <= j < i ==> balls[j].State() == Pocketed(s0[j], pockets)
        invariant forall j :: i <= j < |balls| ==> balls[j].State() == s0[j]
        invariant score == old(score) + ColourGain(s0[..i], pockets)
        invariant won <==> score > old(score) && ColoursPotted()
      {
        assert s0[..i + 1][..i] == s0[..i];
        if balls[i].isPotted {
          continue;
        }
        var fired := CheckPockets(i);
        won := won || fired;
      }
      assert s0[..|balls|] == s0;
    }

    /**
     * Ball i, still on the table, against every pocket in turn: each pocket
     * that captures it pots it and, for a coloured ball, earns 10 points and
     * runs the win test. `fired` tells whether the win test fired.
     */
    method CheckPockets(i: nat) returns (fired: bool)
      requires Valid() && i < |balls| && !balls[i].isPotted
      modifies balls[i], this`score
      ensures Valid()
      ensures balls[i].State() == Pocketed(old(balls[i].State()), pockets)
      ensures forall j :: 0 <= j < |balls| && j != i ==> balls[j].State() == old(balls[j].State())
      ensures score == old(score) + (if i == 0 then 0 else CapturePoints(old(balls[i].State()), pockets))
      ensures fired <==> score > old(score) && ColoursPotted()
    {
      var ball := balls[i];
      ghost var b0 := ball.State();
      fired := false;
      for k := 0 to |pockets|
        invariant Valid()
        invariant ball.State().(potted := false) == b0
        invariant ball.isPotted <==> CapturePoints(b0, pockets[..k]) > 0
        invariant score == old(score) + (if i == 0 then 0 else CapturePoints(b0, pockets[..k]))
        invariant fired <==> score > old(score) && ColoursPotted()
      {
        assert pockets[..k + 1][..k] == pockets[..k];
        var pocket := pockets[k];
        if Captures(ball.State(), pocket) {
          ball.isPotted := true;
          if ball != cueBall {
            score := score + PotPoints;
            var w := UpdateScore();
            fired := fired || w;
          }
        }
      }
      assert pockets[..|pockets|] == pockets;
    }

    /** The delayed respawn of a potted cue ball: back at its start, at rest, on the table. */
    method RespawnCue()
      requires Valid()
      modifies cueBall
      ensures cueBall.State() == CueStart(height).(radius := cueBall.radius)
    {
      cueBall.isPotted := false;
      cueBall.x := CueStartX;
      cueBall.y := height / 2.0;
      cueBall.vx := 0.0;
      cueBall.vy := 0.0;
    }

    /** Pressing the pointer at (px, py) starts aiming, but only while the game runs and no ball moves. */
    method MouseDown(px: real, py: real)
      requires Valid()
      modifies this`aimStartX, this`aimStartY, this`isAiming, this`power
      ensures Valid()
      ensures old(gameRunning) && !old(BallsMoving()) ==>
        isAiming && power == 0.0 && aimStartX == px && aimStartY == py
      ensures !old(gameRunning) || old(BallsMoving()) ==> unchanged(this)
    {
      if !gameRunning || BallsMoving() {
        return;
      }
      aimStartX := px;
      aimStartY := py;
      isAiming := true;
      power := 0.0;
    }

    /** Moving the pointer to distance `d` from the cue ball while aiming sets the power for that drag. */
    method MouseMove(px: real, py: real, d: real)
      requires Valid() && IsDistance(d, px - cueBall.x, py - cueBall.y)
      modifies this`power
      ensures Valid()
      ensures power == if old(isAiming) then Power(d) else old(power)
    {
      if !isAiming {
        return;
      }
      power := Power(d);
    }

    /**
     * Releasing the pointer at (px, py), at distance `d` from the cue ball:
     * while aiming, a release further than 10 from the cue ball shoots it
     * towards the release point; aiming always ends with zero power.
     */
    method MouseUp(px: real, py: real, d: real)
      requires Valid() && IsDistance(d, px - cueBall.x, py - cueBall.y)
      modifies this`isAiming, this`power, cueBall
      ensures Valid() && !isAiming && power == 0.0
      ensures var (dx, dy) := (px - old(cueBall.x), py - old(cueBall.y));
        old(isAiming) && d > MinShotDistance ==>
          cueBall.State() == old(cueBall.State()).(vx := Launch(dx, dy, d).0, vy := Launch(dx, dy, d).1)
      ensures !(old(isAiming) && d > MinShotDistance) ==> cueBall.State() == old(cueBall.State())
    {
      if !isAiming {
        return;
      }
      var dx, dy := px - cueBall.x, py - cueBall.y;
      if d > MinShotDistance {
        var shot := Power(d);
        cueBall.vx := dx / d * (shot * LaunchScale);
        cueBall.vy := dy / d * (shot * LaunchScale);
      }
      isAiming := false;
      power := 0.0;
    }

    /** The pause button: running and paused swap. */
    method TogglePause()
      requires Valid()
      modifies this`gameRunning
      ensures Valid() && gameRunning == !old(gameRunning)
    {
      gameRunning := !gameRunning;
    }

    /**
     * The reset button, and the reset after a win: the score drops to zero,
     * the win test runs on the balls of the ending session, a fresh rack is
     * set up and the game runs. `won` tells whether that win test fired.
     */
    method ResetGame() returns (won: bool)
      requires Valid()
      modifies this`score, this`balls, this`pockets, this`cueBall, this`gameRunning
      ensures Valid() && score == 0 && gameRunning
      ensures won <==> old(AllColouredPotted(States()))
      ensures States() == [CueStart(height)] + Rack(RackRowCount, height)
      ensures pockets == Pockets(width, height)
    {
      score := 0;
      won := UpdateScore();
      SetupGame();
      gameRunning := true;
    }

    /**
     * The reset with the win test moved after the new rack is set up: the
     * test then sees six coloured balls on the table and never fires.
     */
    method ResetGameCorrected() returns (won: bool)
      requires Valid()
      modifies this`score, this`balls, this`pockets, this`cueBall, this`gameRunning
      ensures Valid() && score == 0 && gameRunning && !won
      ensures States() == [CueStart(height)] + Rack(RackRowCount, height)
      ensures pockets == Pockets(width, height)
    {
      score := 0;
      SetupGame();
      FreshTableNotWon(height);
      won := UpdateScore();
      gameRunning := true;
    }
  }
}
