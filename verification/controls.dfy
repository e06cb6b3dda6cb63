/**
 The input side of the game: the Start, Pause/Resume and Reset buttons and the
 pointer that steers the human paddle. Button labels and score text are not
 part of the game record and are not modelled.
 */
module Controls {
  import opened PongState
  import opened Physics

  /**
   The flag part of the Start handler: begins an unpaused game; a game
   already running is left alone. `StartClick` adds the tick the handler
   runs before it returns.
   */
  function Start(s: Game): (t: Game)
    ensures t.running
    ensures s.running ==> t == s
    ensures !s.running ==> !t.paused
    ensures SameBoard(s, t)
  {
    if s.running then s else s.(running := true, paused := false)
  }

  /** Starting is idempotent: a second press changes nothing. */
  lemma StartIdempotent(s: Game)
    ensures Start(Start(s)) == Start(s)
  {
  }

  /**
   The whole Start handler: on a game not yet running it sets the flags and
   calls the game loop once, which runs one physics tick before the next
   frame is requested; a second press does nothing at all.
   */
  function StartClick(s: Game, c: Canvas, d: TickDraws): (t: Game)
    ensures t.running
    ensures s.running ==> t == s
    // A fresh start is unpaused and has already played its first tick.
    ensures !s.running ==> !t.paused && t == Update(Start(s), c, d)
    ensures !s.running ==> t.ballX == NextX(s) || t.ballX == c.CentreX()
    ensures t.playerY == s.playerY && Abs(t.speedX) == Abs(s.speedX)
    ensures t.playerScore >= s.playerScore && t.aiScore >= s.aiScore
    ensures t.playerScore + t.aiScore <= s.playerScore + s.aiScore + 1
  {
    if s.running then s else Update(Start(s), c, d)
  }

  /** A second Start click changes nothing, whatever the draws. */
  lemma StartClickIdempotent(s: Game, c: Canvas, d1: TickDraws, d2: TickDraws)
    ensures StartClick(StartClick(s, c, d1), c, d2) == StartClick(s, c, d1)
  {
  }

  /** Pause/Resume: ignored before the game starts, otherwise toggles the pause flag. */
  function Pause(s: Game): (t: Game)
    ensures !s.running ==> t == s
    ensures s.running ==> t.paused != s.paused
    ensures t.running == s.running
    ensures SameBoard(s, t)
  {
    if !s.running then s else s.(paused := !s.paused)
  }

  /** Pausing twice is the identity, whether or not the game has started. */
  lemma PauseInvolution(s: Game)
    ensures Pause(Pause(s)) == s
  {
  }

  /**
   Reset: both scores back to zero and the ball re-served through the same
   procedure a point uses; paddles and the running/paused flags stay.
   */
  function ResetButton(s: Game, c: Canvas, r: Draw): (t: Game)
    ensures t.playerScore == 0 && t.aiScore == 0
    ensures t.ballX == c.CentreX() && t.ballY == c.CentreY()
    ensures t.speedX == -s.speedX && t.speedY == ServeSpeed(r) && -2.0 <= t.speedY < 2.0
    ensures t.playerY == s.playerY && t.aiY == s.aiY
    ensures t.running == s.running && t.paused == s.paused
  {
    ResetBall(s.(playerScore := 0, aiScore := 0), c, r)
  }

  /** The Reset and Pause buttons commute: neither reads what the other writes. */
  lemma ResetPauseCommute(s: Game, c: Canvas, r: Draw)
    ensures Pause(ResetButton(s, c, r)) == ResetButton(Pause(s), c, r)
  {
  }

  /**
   Reset commutes with the flag part of Start. It does not commute with the
   whole click, whose tick moves the ball: see `ResetAfterClickDiffers`.
   */
  lemma ResetStartCommute(s: Game, c: Canvas, r: Draw)
    ensures Start(ResetButton(s, c, r)) == ResetButton(Start(s), c, r)
  {
  }

  /**
   Resetting after the Start click re-serves from the centre, while resetting
   before it leaves the ball one step past the centre: on a 600 by 400
   canvas the ball ends at x = 300 in one order and x = 295 in the other.
   */
  lemma ResetAfterClickDiffers(d: TickDraws)
    ensures var c := Canvas(600, 400);
      && ResetButton(StartClick(Init(c), c, d), c, 0.5).ballX == 300.0
      && StartClick(ResetButton(Init(c), c, 0.5), c, d).ballX == 295.0
  {
  }

  /**
   Pointer move: the human paddle is centred on the pointer's height (relative
   to the canvas top), with no clamping to the canvas.
   */
  function MouseMove(s: Game, pointerY: real): (t: Game)
    ensures t.playerY + PaddleHeight / 2.0 == pointerY
    ensures t == s.(playerY := t.playerY)
  {
    s.(playerY := pointerY - PaddleHeight / 2.0)
  }

  /** Only the latest pointer position matters. */
  lemma MouseMoveLastWins(s: Game, y1: real, y2: real)
    ensures MouseMove(MouseMove(s, y1), y2) == MouseMove(s, y2)
  {
  }

  /** Moving the pointer back to where the paddle's centre was restores the game. */
  lemma MouseMoveRestores(s: Game)
    ensures MouseMove(s, s.playerY + PaddleHeight / 2.0) == s
  {
  }
}
