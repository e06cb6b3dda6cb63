/**
 Many ticks in a row: the animation loop calls the physics step once per
 frame, and each tick consumes its own random draws. Frame scheduling itself
 is not modelled; a run is just the sequence of ticks it performs.
 */
module Simulation {
  import opened PongState
  import opened Physics
  import opened Controls

  /** The game after one tick per entry of `ds`, oldest tick first. */
  function Run(s: Game, c: Canvas, ds: seq<TickDraws>): Game
    decreases |ds|
  {
    if |ds| == 0 then s
    else Update(Run(s, c, ds[..|ds| - 1]), c, ds[|ds| - 1])
  }

  /** A frozen game stays exactly as it is for any number of ticks. */
  lemma {:induction false} RunFrozen(s: Game, c: Canvas, ds: seq<TickDraws>)
    requires Frozen(s)
    ensures Run(s, c, ds) == s
    decreases |ds|
  {
    if |ds| > 0 {
      RunFrozen(s, c, ds[..|ds| - 1]);
    }
  }

  /** Ticks never touch the flags or the human paddle, and never change the ball's horizontal speed magnitude. */
  lemma {:induction false} RunInvariants(s: Game, c: Canvas, ds: seq<TickDraws>)
    ensures var t := Run(s, c, ds);
      && t.running == s.running && t.paused == s.paused
      && t.playerY == s.playerY
      && Abs(t.speedX) == Abs(s.speedX)
    decreases |ds|
  {
    if |ds| > 0 {
      RunInvariants(s, c, ds[..|ds| - 1]);
    }
  }

  /** Scores only go up, and by at most one point per tick in total. */
  lemma {:induction false} RunScores(s: Game, c: Canvas, ds: seq<TickDraws>)
    ensures var t := Run(s, c, ds);
      && t.playerScore >= s.playerScore && t.aiScore >= s.aiScore
      && t.playerScore + t.aiScore <= s.playerScore + s.aiScore + |ds|
    decreases |ds|
  {
    if |ds| > 0 {
      RunScores(s, c, ds[..|ds| - 1]);
    }
  }

  /**
   Pausing a running game, letting any number of frames pass and resuming
   gives back the game exactly as it was paused.
   */
  lemma PauseResumeRestores(s: Game, c: Canvas, ds: seq<TickDraws>)
    requires s.running && !s.paused
    ensures Pause(Run(Pause(s), c, ds)) == s
  {
    RunFrozen(Pause(s), c, ds);
  }

  /** The paddle stays where the pointer put it while the ticks go by. */
  lemma PointerHoldsPaddle(s: Game, c: Canvas, ds: seq<TickDraws>, pointerY: real)
    ensures Run(MouseMove(s, pointerY), c, ds).playerY + PaddleHeight / 2.0 == pointerY
  {
    RunInvariants(MouseMove(s, pointerY), c, ds);
  }

  /**
   The game loop as a loop: one physics step per frame. It agrees with `Run`,
   and so keeps every invariant `Run` keeps.
   */
  method Simulate(s: Game, c: Canvas, ds: seq<TickDraws>) returns (t: Game)
    ensures t == Run(s, c, ds)
    ensures t.running == s.running && t.paused == s.paused && t.playerY == s.playerY
    ensures Abs(t.speedX) == Abs(s.speedX)
    ensures t.playerScore >= s.playerScore && t.aiScore >= s.aiScore
    ensures t.playerScore + t.aiScore <= s.playerScore + s.aiScore + |ds|
  {
    t := s;
    var i := 0;
    while i < |ds|
      invariant 0 <= i <= |ds|
      invariant t == Run(s, c, ds[..i])
    {
      assert ds[..i + 1][..i] == ds[..i];
      t := Update(t, c, ds[i]);
      i := i + 1;
    }
    assert ds[..i] == ds;
    RunInvariants(s, c, ds);
    RunScores(s, c, ds);
  }

  /**
   The conditions under which a live ball travels straight left without
   touching anything: no vertical speed, inside the top and bottom edges,
   level with a gap beside the human paddle, and clear of the computer
   paddle's zone.
   */
  predicate GlidingLeft(s: Game, c: Canvas) {
    && !Frozen(s)
    && s.speedX < 0.0 && s.speedY == 0.0
    && 0.0 <= s.ballY <= c.Bottom()
    && !(s.playerY < s.ballY < s.playerY + PaddleHeight)
    && s.ballX <= c.Right() - PaddleWidth
  }

  /** One tick of a gliding ball that does not reach the left wall only moves it. */
  lemma GlideStep(p: Game, c: Canvas, d: TickDraws)
    requires GlidingLeft(p, c) && NextX(p) >= 0.0
    ensures var t := Update(p, c, d);
      && GlidingLeft(t, c)
      && t.ballX == NextX(p) && t.ballY == p.ballY && t.speedX == p.speedX
      && t.playerScore == p.playerScore && t.aiScore == p.aiScore
  {
    assert !PlayerHit(NextX(p), NextY(p), p.playerY);
    assert !AiHit(c, NextX(p), NextY(p), p.aiY);
  }

  /** How far a ball moving at speed `v` travels in `n` ticks. */
  function Travel(v: real, n: nat): real {
    if n == 0 then 0.0 else Travel(v, n - 1) + v
  }

  /** Travel is distance = ticks times speed. */
  lemma {:induction false} TravelIsProduct(v: real, n: nat)
    ensures Travel(v, n) == (n as real) * v
  {
    if n > 0 {
      TravelIsProduct(v, n - 1);
    }
  }

  /** While it stays at or right of the left wall, a gliding ball just moves. */
  lemma {:induction false} Glide(s: Game, c: Canvas, ds: seq<TickDraws>)
    requires GlidingLeft(s, c)
    requires s.ballX + Travel(s.speedX, |ds|) >= 0.0
    ensures var t := Run(s, c, ds);
      && GlidingLeft(t, c)
      && t.ballX == s.ballX + Travel(s.speedX, |ds|)
      && t.ballY == s.ballY && t.speedX == s.speedX
      && t.playerScore == s.playerScore && t.aiScore == s.aiScore
    decreases |ds|
  {
    if |ds| > 0 {
      var prefix := ds[..|ds| - 1];
      Glide(s, c, prefix);
      var p := Run(s, c, prefix);
      assert Run(s, c, ds) == Update(p, c, ds[|ds| - 1]);
      GlideStep(p, c, ds[|ds| - 1]);
    }
  }

  /**
   A gliding ball that first crosses the left wall on the last tick scores
   exactly one point for the computer and is served back from the centre the
   other way.
   */
  lemma ServeScores(s: Game, c: Canvas, ds: seq<TickDraws>)
    requires |ds| > 0 && GlidingLeft(s, c)
    requires s.ballX + Travel(s.speedX, |ds| - 1) >= 0.0
    requires s.ballX + Travel(s.speedX, |ds|) < 0.0
    ensures var t := Run(s, c, ds);
      && t.aiScore == s.aiScore + 1 && t.playerScore == s.playerScore
      && t.ballX == c.CentreX() && t.ballY == c.CentreY()
      && t.speedX == -s.speedX
  {
    var prefix := ds[..|ds| - 1];
    Glide(s, c, prefix);
    var p := Run(s, c, prefix);
    assert NextX(p) < 0.0;
    assert !PlayerHit(NextX(p), NextY(p), p.playerY);
  }

  /**
   A concrete game on a 600 by 400 canvas: the human moves the pointer to the
   top and clicks Start (which plays one tick), then Reset with a draw of 0.5
   serves the ball left from the centre at speed 5 with no vertical speed.
   The ball reaches the left wall on the 61st tick after that; the computer
   leads 1 to 0 and the ball is back at the centre moving right.
   */
  lemma FirstPointScenario(d0: TickDraws, ds: seq<TickDraws>)
    requires |ds| == 61
    ensures var c := Canvas(600, 400);
      var s := ResetButton(StartClick(MouseMove(Init(c), 20.0), c, d0), c, 0.5);
      var t := Run(s, c, ds);
      && s.ballX == 300.0 && s.speedX == -5.0 && s.speedY == 0.0
      && t.aiScore == 1 && t.playerScore == 0
      && t.ballX == 300.0 && t.ballY == 200.0 && t.speedX == 5.0
  {
    var c := Canvas(600, 400);
    var s := ResetButton(StartClick(MouseMove(Init(c), 20.0), c, d0), c, 0.5);
    TravelIsProduct(-5.0, 60);
    TravelIsProduct(-5.0, 61);
    ServeScores(s, c, ds);
  }

  /**
   A live ball with no vertical speed, level with the human paddle and inside
   its zone, whose next step also stays inside the zone.
   */
  predicate Trapped(s: Game, c: Canvas) {
    && !Frozen(s) && c.width >= 20
    && s.speedY == 0.0 && 0.0 <= s.ballY <= c.Bottom()
    && s.playerY < s.ballY < s.playerY + PaddleHeight
    && 0.0 <= s.ballX < PaddleWidth && 0.0 <= s.ballX + s.speedX < PaddleWidth
  }

  /**
   The pointer alone can set the trap: a ball moving slowly near the left
   wall is trapped as soon as the paddle is moved over it.
   */
  lemma PointerSetsTrap(s: Game, c: Canvas)
    requires !Frozen(s) && c.width >= 20
    requires s.speedY == 0.0 && 0.0 <= s.ballY <= c.Bottom()
    requires 0.0 <= s.ballX < PaddleWidth && 0.0 <= s.ballX + s.speedX < PaddleWidth
    ensures Trapped(MouseMove(s, s.ballY), c)
  {
  }

  /**
   The hit test does not look at the ball's direction: a trapped ball flips
   its horizontal direction on each of the next two ticks and is then back at
   the same position with the same velocity, still trapped, without scoring.
   */
  lemma PaddleTrap(s: Game, c: Canvas, d1: TickDraws, d2: TickDraws)
    requires Trapped(s, c)
    ensures var u := Update(s, c, d1);
      && u.ballX == s.ballX + s.speedX && u.speedX == -s.speedX
      && Update(u, c, d2).speedX == -u.speedX
    ensures var t := Update(Update(s, c, d1), c, d2);
      && Trapped(t, c)
      && t.ballX == s.ballX && t.ballY == s.ballY
      && t.speedX == s.speedX && t.speedY == s.speedY
      && t.playerScore == s.playerScore && t.aiScore == s.aiScore
  {
    var u := Update(s, c, d1);
    assert PlayerHit(NextX(s), NextY(s), s.playerY);
    assert !AiHit(c, NextX(s), NextY(s), s.aiY);
    assert u.ballX == s.ballX + s.speedX && u.speedX == -s.speedX;
    assert PlayerHit(NextX(u), NextY(u), u.playerY);
    assert !AiHit(c, NextX(u), NextY(u), u.aiY);
  }

  /**
   A trapped ball stays trapped for good: after any even number of ticks it
   is back where it started, with the same velocity, and nobody has scored.
   */
  lemma {:induction false} TrappedForever(s: Game, c: Canvas, ds: seq<TickDraws>)
    requires Trapped(s, c) && |ds| % 2 == 0
    ensures var t := Run(s, c, ds);
      && Trapped(t, c)
      && t.ballX == s.ballX && t.ballY == s.ballY
      && t.speedX == s.speedX && t.speedY == s.speedY
      && t.playerScore == s.playerScore && t.aiScore == s.aiScore
    decreases |ds|
  {
    if |ds| > 0 {
      var n := |ds|;
      var prefix := ds[..n - 2];
      assert ds[..n - 1][..n - 2] == prefix;
      TrappedForever(s, c, prefix);
      var p := Run(s, c, prefix);
      assert Run(s, c, ds) == Update(Update(p, c, ds[n - 2]), c, ds[n - 1]);
      PaddleTrap(p, c, ds[n - 2], ds[n - 1]);
    }
  }
}
