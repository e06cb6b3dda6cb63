/**
 One tick of the game: `resetBall` and `update` as pure transitions on the game
 record. The random value a serve needs is a parameter.
 */
module Physics {
  import opened PongState

  /** Where the ball is after the move that opens a tick. */
  function NextX(s: Game): real { s.ballX + s.speedX }
  function NextY(s: Game): real { s.ballY + s.speedY }

  /** The ball is above the top or below the bottom edge. */
  predicate OffVertical(c: Canvas, y: real) {
    y < 0.0 || y > c.Bottom()
  }

  /** The hit test against the human paddle on the left wall (strict bounds). */
  predicate PlayerHit(x: real, y: real, playerY: real) {
    x < PaddleWidth && y > playerY && y < playerY + PaddleHeight
  }

  /** The hit test against the computer paddle on the right wall (strict bounds). */
  predicate AiHit(c: Canvas, x: real, y: real, aiY: real) {
    x > c.Right() - PaddleWidth && y > aiY && y < aiY + PaddleHeight
  }

  /** The vertical serve speed a draw produces. */
  function ServeSpeed(r: Draw): (v: real)
    ensures -2.0 <= v < 2.0
  {
    r * 4.0 - 2.0
  }

  /** The draw that produces a given serve speed: every speed in [-2, 2) is reachable. */
  function DrawFor(v: real): (r: Draw)
    requires -2.0 <= v < 2.0
    ensures ServeSpeed(r) == v
  {
    (v + 2.0) / 4.0
  }

  /** Two draws that give the same serve speed are the same draw. */
  lemma ServeSpeedInjective(r1: Draw, r2: Draw)
    ensures ServeSpeed(r1) == ServeSpeed(r2) <==> r1 == r2
  {
  }

  /**
   Recentres the ball, sends it back the other way at the same horizontal
   speed, and draws a fresh vertical speed in [-2, 2).
   */
  function ResetBall(s: Game, c: Canvas, r: Draw): (t: Game)
    ensures t.ballX == c.CentreX() && t.ballY == c.CentreY()
    ensures t.speedX == -s.speedX && Abs(t.speedX) == Abs(s.speedX)
    ensures -2.0 <= t.speedY < 2.0 && ServeSpeed(r) == t.speedY
    ensures t.playerY == s.playerY && t.aiY == s.aiY
    ensures t.playerScore == s.playerScore && t.aiScore == s.aiScore
    ensures t.running == s.running && t.paused == s.paused
  {
    s.(ballX := c.CentreX(), ballY := c.CentreY(),
       speedX := -s.speedX, speedY := ServeSpeed(r))
  }

  /** Two serves in a row restore the horizontal velocity, sign included. */
  lemma ResetBallTwice(s: Game, c: Canvas, r1: Draw, r2: Draw)
    ensures ResetBall(ResetBall(s, c, r1), c, r2) == s.(ballX := c.CentreX(), ballY := c.CentreY(), speedY := ServeSpeed(r2))
  {
  }

  /** The scripted controller: where the computer paddle goes given the ball's height. */
  function AiFollow(aiY: real, ballY: real): real {
    var centre := aiY + PaddleHeight / 2.0;
    if centre < ballY - DeadBand then aiY + AiStep
    else if centre > ballY + DeadBand then aiY - AiStep
    else aiY
  }

  /**
   The controller moves exactly one step towards the ball when the paddle's
   centre is outside the dead band around it, and holds still inside it.
   */
  lemma AiFollowCases(aiY: real, ballY: real)
    ensures var d := AiFollow(aiY, ballY) - aiY;
      && (d == AiStep <==> aiY + PaddleHeight / 2.0 < ballY - DeadBand)
      && (d == -AiStep <==> aiY + PaddleHeight / 2.0 > ballY + DeadBand)
      && (d == 0.0 <==> ballY - DeadBand <= aiY + PaddleHeight / 2.0 <= ballY + DeadBand)
  {
  }

  /** The controller never moves the paddle more than one step. */
  lemma AiFollowBounded(aiY: real, ballY: real)
    ensures Abs(AiFollow(aiY, ballY) - aiY) <= AiStep
  {
  }

  /**
   The first half of a tick (no scoring yet): move the ball by its velocity,
   bounce off the top or bottom, then test each paddle in turn.
   */
  function Advance(s: Game, c: Canvas): (m: Game)
    ensures m.ballX == NextX(s) && m.ballY == NextY(s)
    // The vertical speed is negated exactly when the ball left [0, height].
    ensures OffVertical(c, NextY(s)) ==> m.speedY == -s.speedY
    ensures !OffVertical(c, NextY(s)) ==> m.speedY == s.speedY
    // The horizontal speed is negated exactly when one paddle (not both) was hit.
    ensures PlayerHit(NextX(s), NextY(s), s.playerY) != AiHit(c, NextX(s), NextY(s), s.aiY)
      ==> m.speedX == -s.speedX
    ensures PlayerHit(NextX(s), NextY(s), s.playerY) == AiHit(c, NextX(s), NextY(s), s.aiY)
      ==> m.speedX == s.speedX
    ensures m.playerY == s.playerY && m.aiY == s.aiY
    ensures m.playerScore == s.playerScore && m.aiScore == s.aiScore
    ensures m.running == s.running && m.paused == s.paused
  {
    var moved := s.(ballX := s.ballX + s.speedX, ballY := s.ballY + s.speedY);
    var walls := if OffVertical(c, moved.ballY) then moved.(speedY := -moved.speedY) else moved;
    var left := if PlayerHit(walls.ballX, walls.ballY, walls.playerY)
                then walls.(speedX := -walls.speedX) else walls;
    if AiHit(c, left.ballX, left.ballY, left.aiY)
    then left.(speedX := -left.speedX) else left
  }

  /**
   The end of a tick: a ball past the left wall is a point for the computer,
   a ball past the right wall a point for the human, and either re-serves.
   The right-wall test looks at the ball after any left-wall re-serve.
   */
  function Score(a: Game, c: Canvas, d: TickDraws): (t: Game)
    ensures a.ballX < 0.0 ==>
      && t.aiScore == a.aiScore + 1 && t.playerScore == a.playerScore
      && t == ResetBall(a.(aiScore := t.aiScore), c, d.left)
    ensures a.ballX > c.Right() ==>
      && t.playerScore == a.playerScore + 1 && t.aiScore == a.aiScore
      && t == ResetBall(a.(playerScore := t.playerScore), c, d.right)
    ensures 0.0 <= a.ballX <= c.Right() ==> t == a
  {
    var afterLeft := if a.ballX < 0.0
                     then ResetBall(a.(aiScore := a.aiScore + 1), c, d.left) else a;
    if afterLeft.ballX > c.Right()
    then ResetBall(afterLeft.(playerScore := afterLeft.playerScore + 1), c, d.right)
    else afterLeft
  }

  /**
   One tick. When the game is frozen nothing happens; otherwise the ball
   moves and bounces, the computer paddle follows the ball, and a ball that
   left the court scores and is re-served.
   */
  function Update(s: Game, c: Canvas, d: TickDraws): (t: Game)
    // A frozen game does not change at all.
    ensures Frozen(s) ==> t == s
    // Input-owned fields are never touched by the physics step.
    ensures t.running == s.running && t.paused == s.paused && t.playerY == s.playerY
    // The horizontal speed only ever changes sign.
    ensures Abs(t.speedX) == Abs(s.speedX)
    // Scores never go down, and at most one point is scored per tick.
    ensures t.playerScore >= s.playerScore && t.aiScore >= s.aiScore
    ensures t.playerScore + t.aiScore <= s.playerScore + s.aiScore + 1
    // The computer paddle moves one step towards the ball, or holds inside the dead band.
    ensures !Frozen(s) ==> t.aiY == AiFollow(s.aiY, NextY(s))
    // Ball past the left wall: the computer scores and the ball is re-served.
    ensures !Frozen(s) && NextX(s) < 0.0 ==>
      && t.aiScore == s.aiScore + 1 && t.playerScore == s.playerScore
      && t.ballX == c.CentreX() && t.ballY == c.CentreY()
      && t.speedY == ServeSpeed(d.left)
    // Ball past the right wall: the human scores and the ball is re-served.
    ensures !Frozen(s) && NextX(s) > c.Right() ==>
      && t.playerScore == s.playerScore + 1 && t.aiScore == s.aiScore
      && t.ballX == c.CentreX() && t.ballY == c.CentreY()
      && t.speedY == ServeSpeed(d.right)
    // Ball still on the court: it has moved by its velocity and nobody scored.
    ensures !Frozen(s) && 0.0 <= NextX(s) <= c.Right() ==>
      && t.playerScore == s.playerScore && t.aiScore == s.aiScore
      && t.ballX == NextX(s) && t.ballY == NextY(s)
      && t.speedY == (if OffVertical(c, NextY(s)) then -s.speedY else s.speedY)
  {
    if Frozen(s) then s
    else
      var m := Advance(s, c);
      Score(m.(aiY := AiFollow(m.aiY, m.ballY)), c, d)
  }

  /**
   A tick that re-serves reverses the direction the ball had after the
   paddle tests: a ball that scores without touching a paddle comes back the
   other way, while one that grazed the human paddle on its way out of the
   left wall is served on in its original direction.
   */
  lemma ServeDirection(s: Game, c: Canvas, d: TickDraws)
    requires !Frozen(s) && NextX(s) < 0.0
    ensures var t := Update(s, c, d);
      t.speedX == (if PlayerHit(NextX(s), NextY(s), s.playerY) != AiHit(c, NextX(s), NextY(s), s.aiY)
                   then s.speedX else -s.speedX)
  {
  }

  /** Outside the dead band the computer paddle ends a tick closer to the ball's height. */
  lemma AiApproaches(s: Game, c: Canvas, d: TickDraws)
    requires !Frozen(s)
    requires Abs(s.aiY + PaddleHeight / 2.0 - NextY(s)) > DeadBand
    ensures var t := Update(s, c, d);
      Abs(t.aiY + PaddleHeight / 2.0 - NextY(s)) == Abs(s.aiY + PaddleHeight / 2.0 - NextY(s)) - AiStep
  {
  }
}
