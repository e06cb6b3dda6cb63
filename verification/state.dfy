/**
 The state of one Pong game: the canvas it is played on, the game record that
 the animation loop mutates, the random draws the ball serve consumes, and the
 fixed paddle and controller constants.

 Positions and speeds are exact reals; the game's own arithmetic on IEEE
 doubles is not modelled.
 */
module PongState {

  /** Paddle size in canvas units (both paddles share it). */
  const PaddleWidth: real := 10.0
  const PaddleHeight: real := 70.0

  /** The computer paddle moves by this much per tick ... */
  const AiStep: real := 6.0
  /** ... unless its centre is within this distance of the ball. */
  const DeadBand: real := 10.0

  /** Speeds of the very first serve, before any reset. */
  const FirstSpeedX: real := 5.0
  const FirstSpeedY: real := 4.0

  /** Canvas size; a canvas element's width and height are unsigned integers. */
  datatype Canvas = Canvas(width: nat, height: nat) {
    function Right(): real { width as real }
    function Bottom(): real { height as real }
    function CentreX(): real { width as real / 2.0 }
    function CentreY(): real { height as real / 2.0 }
  }

  /** A value `Math.random()` can return. */
  type Draw = r: real | 0.0 <= r < 1.0

  /**
   The random values one tick may consume: the serve after a point on the
   left wall and the serve after a point on the right wall.
   */
  datatype TickDraws = TickDraws(left: Draw, right: Draw)

  /** Everything the game loop reads and writes. */
  datatype Game = Game(
    playerY: real,     // top edge of the human paddle (left wall)
    aiY: real,         // top edge of the computer paddle (right wall)
    ballX: real,
    ballY: real,
    speedX: real,
    speedY: real,
    playerScore: nat,
    aiScore: nat,
    running: bool,
    paused: bool
  )

  function Abs(x: real): real {
    if x < 0.0 then -x else x
  }

  /** The physics step is skipped: not started yet, or paused. */
  predicate Frozen(s: Game) {
    !s.running || s.paused
  }

  /** Both games agree on everything the physics step and the renderer use. */
  predicate SameBoard(s: Game, t: Game) {
    && t.playerY == s.playerY && t.aiY == s.aiY
    && t.ballX == s.ballX && t.ballY == s.ballY
    && t.speedX == s.speedX && t.speedY == s.speedY
    && t.playerScore == s.playerScore && t.aiScore == s.aiScore
  }

  /** The state the page loads with: paddles and ball centred, nothing scored. */
  function Init(c: Canvas): (s: Game)
    ensures s.playerY + PaddleHeight / 2.0 == c.CentreY()
    ensures s.aiY + PaddleHeight / 2.0 == c.CentreY()
    ensures s.ballX == c.CentreX() && s.ballY == c.CentreY()
    ensures s.speedX == FirstSpeedX && s.speedY == FirstSpeedY
    ensures s.playerScore == 0 && s.aiScore == 0
    ensures !s.running && !s.paused
  {
    Game(
      playerY := (c.Bottom() - PaddleHeight) / 2.0,
      aiY := (c.Bottom() - PaddleHeight) / 2.0,
      ballX := c.CentreX(), ballY := c.CentreY(),
      speedX := FirstSpeedX, speedY := FirstSpeedY,
      playerScore := 0, aiScore := 0,
      running := false, paused := false)
  }
}
