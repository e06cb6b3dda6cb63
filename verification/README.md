# Pong game step, modelled in Dafny

This project models the game logic of a browser Pong game (`pong.js`): one
human paddle on the left wall steered by the pointer, one scripted computer
paddle on the right wall, a ball that bounces off the top and bottom edges and
off the paddles, and a score for each side. The whole game state is one
immutable record (`PongState.Game`), and every piece of behaviour is a pure
transition on it:

- `Physics.Update` is one animation-frame tick: skipped while the game is
  not started or paused, otherwise move the ball, bounce it, move the
  computer paddle, and score and re-serve a ball that left the court.
- `Physics.ResetBall` is the serve: ball to the centre, horizontal direction
  reversed, a fresh vertical speed from the random draw.
- `Controls.StartClick`, `Controls.Pause`, `Controls.ResetButton` are the
  three buttons; `Controls.Start` is the flag part of the Start handler, and
  `StartClick` adds the tick that the handler's own call of the game loop
  plays before it returns. `Controls.MouseMove` is the pointer handler.
- `Simulation.Run` and `Simulation.Simulate` are any number of ticks in a row.

Positions and speeds are exact `real`s. The canvas is `Canvas(width, height)`
with natural-number sides, as a canvas element's are, so `width >= 0` holds
by construction. The value `Math.random()` would return is a parameter of type
`Draw`, a real in `[0, 1)`. A tick may re-serve on line 82 and again on line
83, so `Update` takes a `TickDraws` pair: the draw used by the left-wall serve
and the draw used by the right-wall serve. With `width >= 0` only one of them
is ever used in a tick.

Two behaviours of the program are kept as written and proved about, not
corrected: a serve reverses whatever horizontal direction the ball had at that
moment (`Physics.ServeDirection`), and the paddle hit test ignores the ball's
direction, so a ball inside the human paddle's zone can flip every tick and
stay trapped there for good (`Simulation.PaddleTrap`,
`Simulation.TrappedForever`).

## Model

| member | source | states |
|---|---|---|
| PongState.Init | pong.js:6-14 | The page starts with both paddles centred on the canvas height, the ball at the canvas centre with speeds 5 (right) and 4 (down), scores 0:0, not running and not paused. |
| Physics.ServeSpeed | pong.js:47 | A serve's vertical speed always lies in [-2, 2). |
| Physics.DrawFor | pong.js:47 | Every vertical speed in [-2, 2) is produced by some random draw in [0, 1) (the inverse of the serve formula). |
| Physics.ServeSpeedInjective | pong.js:47 | Two draws give the same vertical serve speed exactly when they are the same draw. |
| Physics.ResetBall | pong.js:43-48 | The ball ends at (width/2, height/2), its horizontal speed is negated (so its magnitude is kept), its vertical speed is 4r - 2 in [-2, 2), and paddles, scores and flags are unchanged. |
| Physics.ResetBallTwice | pong.js:46 | Two serves in a row restore the original horizontal velocity, sign included. |
| Physics.AiFollowCases | pong.js:77-79 | The computer paddle moves +6 exactly when its centre is more than 10 above the ball, -6 exactly when more than 10 below, and 0 exactly when within the dead band. |
| Physics.AiFollowBounded | pong.js:77-79 | The computer paddle never moves more than 6 units in a tick. |
| Physics.AiApproaches | pong.js:77-79 | Outside the dead band, a tick brings the computer paddle's centre exactly 6 units closer to the ball's new height. |
| Physics.Advance | pong.js:64-74 | The ball moves by its velocity; the vertical speed is negated exactly when the new Y is outside [0, height]; the horizontal speed is negated exactly when one paddle's strict hit test fires and kept when neither or both do. |
| Physics.Score | pong.js:82-83 | A ball left of 0 gives the computer exactly one point and re-serves; a ball right of the width gives the human exactly one point and re-serves; a ball on the court is left alone. |
| Physics.Update | pong.js:61-84 | A paused or unstarted game is unchanged; otherwise flags and the human paddle are untouched, the horizontal speed keeps its magnitude, scores never decrease and rise by at most one point in total, the computer paddle follows the ball, a ball past either wall scores for the other side and is recentred, and a ball still on the court has moved by its velocity with its vertical speed flipped exactly when it left [0, height]. |
| Physics.ServeDirection | pong.js:71-83 | After a point on the left wall the ball's horizontal speed is the opposite of its direction after the paddle tests: reversed if neither or both paddle tests fired, kept if exactly one did. |
| Controls.Start | pong.js:94 | The flag part of the Start handler: afterwards the game is running; a game already running is unchanged; a game that was not running is unpaused; ball, paddles and scores are unchanged by this part. |
| Controls.StartIdempotent | pong.js:94 | Setting the Start flags twice is the same as once. |
| Controls.StartClick | pong.js:93-95 | A Start click on a running game changes nothing; on a game not yet running it sets running and unpaused and then plays one physics tick through the game loop (pong.js:110-114), so the ball has moved or been re-served, scores rise by at most one, and the human paddle and the horizontal speed's magnitude are kept. |
| Controls.StartClickIdempotent | pong.js:93-95 | A second Start click changes nothing, whatever random draws it would have had. |
| Controls.Pause | pong.js:97-101 | Pause does nothing before the game starts; once running it flips the paused flag and changes nothing else. |
| Controls.PauseInvolution | pong.js:98-99 | Pressing Pause twice is the identity. |
| Controls.ResetButton | pong.js:103-107 | Reset sets both scores to 0 and re-serves the ball from the centre with its horizontal speed negated and vertical speed 4r - 2 for the draw r, leaving both paddles and the running and paused flags unchanged. |
| Controls.ResetPauseCommute | pong.js:97-107 | Reset and Pause give the same game in either order. |
| Controls.ResetStartCommute | pong.js:94-107 | Reset and the flag part of Start give the same game in either order. |
| Controls.ResetAfterClickDiffers | pong.js:93-111 | Reset does not commute with the whole Start click: on a 600 by 400 canvas from the initial state, Reset after the click leaves the ball at x = 300 and Reset before it at x = 295, because the click plays a tick. |
| Controls.MouseMove | pong.js:87-90 | The human paddle's centre is placed exactly at the pointer's height, unclamped, and nothing else changes. |
| Controls.MouseMoveLastWins | pong.js:89 | Two pointer moves leave the game as the second alone would. |
| Controls.MouseMoveRestores | pong.js:89 | Moving the pointer to the paddle's current centre leaves the game unchanged. |
| Simulation.RunFrozen | pong.js:62 | Any number of ticks on a paused or unstarted game leave it exactly as it was. |
| Simulation.RunInvariants | pong.js:61-84 | Over any number of ticks the flags and the human paddle are unchanged and the horizontal speed keeps its magnitude. |
| Simulation.RunScores | pong.js:82-83 | Over n ticks neither score decreases and the two together rise by at most n. |
| Simulation.PauseResumeRestores | pong.js:97-101 | Pausing a running game, letting any frames pass and resuming gives back exactly the game that was paused. |
| Simulation.PointerHoldsPaddle | pong.js:87-90 | The human paddle stays centred on the last pointer position however many ticks follow. |
| Simulation.Simulate | pong.js:110-114 | Ticking once per frame in a loop gives the same game as the recursive run, and keeps the flags, the human paddle, the horizontal speed's magnitude, and the score bounds. |
| Simulation.GlideStep | pong.js:64-83 | A live ball moving straight left, level with a gap beside the human paddle and clear of the computer paddle, only moves one step per tick until it crosses the left wall. |
| Simulation.Glide | pong.js:64-83 | Such a ball is, after n ticks short of the wall, exactly n steps further left with the same speed and no score change. |
| Simulation.ServeScores | pong.js:82 | When such a ball first crosses the left wall, the computer gains exactly one point, the human none, and the ball is back at the centre moving right. |
| Simulation.FirstPointScenario | pong.js:6-14 | On a 600 by 400 canvas, after the pointer moves near the top, Start is clicked and Reset draws 0.5, the ball is served left from the centre at speed 5 with no vertical speed; 61 ticks later the score is 0:1 and the ball is recentred moving right. |
| Simulation.PointerSetsTrap | pong.js:71 | Moving the pointer so the human paddle covers a slow ball near the left wall traps it. |
| Simulation.PaddleTrap | pong.js:71 | A trapped ball flips its horizontal direction on each of the next two ticks and is then at the same position with the same velocity, still trapped, with no score change. |
| Simulation.TrappedForever | pong.js:71 | After any even number of ticks a trapped ball is still trapped, back at its position with its velocity, and nobody has scored. |

## Left out

- Drawing (`drawRect`, `drawCircle`, `drawNet`, `draw`, pong.js:24-58): rendering only, no game state changes.
- DOM lookups, the score text and the button labels (pong.js:2-3, 17-21, and the `textContent` writes on lines 82, 83, 94, 100, 105): the model keeps the numeric scores and the two flags only.
- `gameLoop` and `requestAnimationFrame` (pong.js:110-114): the later frames are scheduled by the host, so a run is modelled as the sequence of ticks it performs (`Simulation.Run`); the first, synchronous tick of a Start click is `Controls.StartClick`.
- Controls.Start: states only the flag part of the Start handler; the tick the handler plays is in `Controls.StartClick`.
- Controls.ResetStartCommute: commutes Reset with the flag part of Start only; with the click's tick the two orders differ (`Controls.ResetAfterClickDiffers`).
- `Math.random()` (pong.js:47): replaced by a `Draw` parameter in [0, 1). The value is used as written, `4r - 2`, so the vertical serve speed lies in [-2, 2), not the closed interval [-2, 2].
- `getBoundingClientRect` (pong.js:88): the pointer's height relative to the canvas top is the `MouseMove` parameter.
- Dark-mode toggle (pong.js:121-125): cosmetic, no game state.
- Canvas resize (pong.js:129-137): it resizes a different canvas element (`pongCanvas`, not the game's `pong`), so the game's canvas size is a fixed parameter.
- IEEE double rounding: positions and speeds are exact reals.
