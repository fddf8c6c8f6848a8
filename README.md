# Flappy-bird game state machine in Dafny

This project models the game logic of a browser "Flappy Bird" variant written
as one React component (`App` in `src/App.js`). The bird is moved up and down
with the keys `w` and `s`. An obstacle pair scrolls from right to left every
24 ms tick. The player scores a point each time the obstacle leaves the field
and is recycled. A collision with a wall or an obstacle ends the round,
updates the best score and re-centres the bird. A click starts the next round.

Layout:

- `config.dfy`, module `Config`: the geometry constants (`src/App.js:5-15`),
  the gap formula `NextGap`, the speed formula `ObjectSpeed` and the per-tick
  obstacle step `ObjStep`.
- `game.dfy`, module `Game`: the `State` datatype holds the component's state
  fields. Each handler has a pure function giving the state after that handler
  has run: `TickSpec`, `Collides`/`EndRound`, `Click`, `KeyDown`, `KeyUp` and
  `ClearWhiteScreen`. The module also holds the invariant `Inv` of every
  reachable state and the lemmas that each handler keeps it.
- `app.dfy`, module `Component`: class `App` holds the same fields. Its
  methods change them step by step, as the interval body, `checkCollision`,
  `handleClick` and the key handlers do. Each method is proved to produce
  exactly the state its pure function describes, and to keep `Valid()`.
- `session.dfy`, module `Session`: a session is any sequence of ticks, clicks,
  key events and white-screen timeouts. It holds the lemmas about whole
  sessions (the invariant, the best score never decreasing, idle ticks) and the
  scenario lemmas.

Modelling decisions:

- Each random draw `Math.floor(Math.random() * N)` is an integer parameter
  `draw` with `0 <= draw < N`. The interval body and the click handler state
  these ranges as preconditions.
- All of a handler's guards read the state that handler saw, that is, the
  render's values. This includes the tick's collision test, its recycle test
  and its bird-step guards. The updates the handler queues are applied in the
  order it queues them. The obstacle moves first. On a collision, the bird is
  reset to 275. The bird's functional step (`prev => prev ± 10`) is applied on
  top of that reset. So a tick that ends a round leaves the bird at 265, 275 or
  285, and leaves the obstacle moved by 25.
- Each tick is applied to the full result of the previous tick. This assumes
  that all the updates queued by one firing of the interval are committed in
  one render, and that the effect at `src/App.js:69-99` is re-created from
  that render before the next firing. React 18's automatic batching does
  this. Every tick changes the obstacle position, a dependency of that
  effect, so the effect is re-created after every tick. Rendering without
  batching is not modelled (see "## Left out").
- A tick while no round runs does nothing, because no interval exists then.

Behaviours of the code worth knowing:

- A recycled obstacle re-enters at `WALL_WIDTH - 480 = 920`, not at the
  initial position 1400 (`RECYCLE_POS`).
- An obstacle at exactly `MIN_OBJ_POS` (-52) still moves, to -77. It is
  recycled on the next tick (`Session.AtMinPosMovesOnceMore`).
- The bird is not clamped to `[0, 550]`. A step is taken whenever the bird is
  strictly inside, so the bird can reach -5 or 555 (`Game.BirdInBand`).
- Because of that, "up takes priority" holds only while the bird is below the
  ceiling. At -5 with both keys held, up cannot be taken and the bird steps
  down by 10, whereas with only up held it stays put
  (`Game.BothKeysAtCeilingStepDown`).
- The collision test runs on the positions from before the tick, not on the
  moved ones. It runs only on ticks where the obstacle moves. On a recycle tick
  a bird beyond a wall is not caught and can step back inside
  (`Session.RecycleTickSkipsWallTest`).
- The gap never shrinks. Its floor equals its initial value, so `NextGap` is
  80 for every score of 0 or more. The speed ignores the score. Both are kept
  as written.

## Model

| member | source | states |
|---|---|---|
| Config.NextGap | src/App.js:17-20 | the gap is at least `MIN_OBJ_GAP` and at least `80 - 5·score`; it is one of the two; it is exactly 80 for every score of 0 or more |
| Config.NextGapNonIncreasing | src/App.js:17-20 | a higher score never gives a wider gap |
| Config.ObjectSpeed | src/App.js:35 | the speed is `BASE_OBJ_SPEED * 10` whatever the score |
| Config.ObjStep | src/App.js:77 | the per-tick step times 10 is the speed exactly (so the source's division is exact), and the step is 25 |
| Config.BottomObjHeight | src/App.js:169 | top obstacle, gap and bottom obstacle fill the wall height; for a valid top height the bottom one is in (0, 520] |
| Config.BottomThreshold | src/App.js:105 | the literal bottom-obstacle bound equals the gap's top edge plus 80 minus the bird height, i.e. `objHeight + 30` |
| Game.Collides | src/App.js:101-110 | the literal test holds iff the bird touches a wall, or the obstacle is in [160, 240] and the bird is in `[0, objHeight)` or in `(objHeight + 30, 600]` |
| Game.EndRound | src/App.js:112-122 | the round stops; the best score is the larger of the best and the score, so it never drops; bird at 275, score 0, white screen on; obstacle and keys unchanged |
| Game.BirdStep | src/App.js:86-91 | the step is -10, 0 or +10; -10 iff up is held and the bird is below the ceiling; +10 iff up was not taken, down is held and the bird is above the floor |
| Game.UpTakesPriority | src/App.js:87-90 | with both keys held and the bird below the ceiling, the step is the up-only step |
| Game.BothKeysAtCeilingStepDown | src/App.js:87-90 | at -5 with both keys held the step is +10, while with only up held it is 0 |
| Game.TickSpec | src/App.js:73-91 | idle: no change; move tick: obstacle -25, height kept, the round ends iff the pre-tick state collides, with the reset and best-score update; recycle tick: obstacle at 920, height = draw, score + 1, no collision test; the bird step from the pre-tick guards applies in every case; keys kept; best never drops |
| Game.Click | src/App.js:126-138 | while running nothing changes; while idle the round starts with bird 275, score 0 and the drawn obstacle height and position; best score and keys kept |
| Game.KeyDown | src/App.js:38-44 | the up flag is set iff it was set or the key is `w`; the down flag likewise with `s`; nothing else changes |
| Game.KeyUp | src/App.js:46-52 | the up flag stays set iff it was set and the key is not `w`; likewise `s` for down; nothing else changes |
| Game.KeyUpAfterKeyDown | src/App.js:38-52 | pressing then releasing a key is the same as releasing it |
| Game.ClearWhiteScreen | src/App.js:120-122 | the white-screen flag is cleared and nothing else changes |
| Game.StepStaysInBand | src/App.js:86-91 | a bird step keeps the bird in [-5, 555] on the grid 275 + 10k |
| Game.InitialInv | src/App.js:23-32 | the mount state satisfies the invariant |
| Game.TickKeepsInv | src/App.js:76-91 | a tick with a valid draw keeps the invariant: bird in band, obstacle in [-77, 1400], height in [0, 520), scores non-negative |
| Game.ClickKeepsInv | src/App.js:126-137 | a click with valid draws keeps the invariant: height in [0, 520), position in [0, 1348) |
| Component.App.constructor | src/App.js:23-32 | the fields start as the mount state |
| Component.App.Tick | src/App.js:74-92 | the in-place interval body yields exactly `TickSpec` of the pre-tick state and keeps `Valid()` |
| Component.App.CheckCollision | src/App.js:101-124 | on a hit of the seen state: round stopped, best raised to the seen score if higher, bird 275, score 0, white screen; otherwise and for all other fields nothing changes |
| Component.App.HandleClick | src/App.js:126-138 | the in-place click handler yields exactly `Click` and keeps `Valid()` |
| Component.App.HandleKeyDown | src/App.js:38-44 | the in-place key-down handler yields exactly `KeyDown` |
| Component.App.HandleKeyUp | src/App.js:46-52 | the in-place key-up handler yields exactly `KeyUp` |
| Component.App.HideWhiteScreen | src/App.js:120-122 | the timer callback yields exactly `ClearWhiteScreen` |
| Session.StepKeepsInv | src/App.js:37-138 | every handler with in-range draws keeps the invariant |
| Session.RunKeepsInv | src/App.js:69-99 | every state reached by any sequence of events satisfies the invariant |
| Session.RunNeverLowersBest | src/App.js:113-116 | over any sequence of events the best score never decreases |
| Session.IdleTicksChangeNothing | src/App.js:73 | without a running round, any number of ticks leaves the state unchanged |
| Session.EndedRoundScoreIsCovered | src/App.js:112-118 | when a tick ends a round, the new best covers the round's score and the score is 0 |
| Session.WallEndsRound | src/App.js:107-108 | a move tick with the bird at or beyond a wall ends the round, whatever the obstacle |
| Session.RecycleTickSkipsWallTest | src/App.js:76-84 | a bird at -5 survives a recycle tick and steps back to 5 with down held |
| Session.AtMinPosMovesOnceMore | src/App.js:76-83 | an obstacle at exactly -52 moves to -77; the next tick recycles it to 920 with score + 1 |
| Session.HoldingUpClimbs | src/App.js:76-91 | for every running state with up held, the bird kept clear of both walls and the obstacle kept right of the hit window, `n` ticks raise the bird by 10n and move the obstacle by 25n; the round keeps running and height, scores and keys are unchanged |
| Session.ClickStartsRound | src/App.js:126-137 | a click while idle starts a round with score 0 and a top height below `600 - NextGap(0)` |

## Left out

- Rendering and styling (`src/App.js:150-296`). Only the bottom-obstacle height is kept, as `BottomObjHeight`.
- Cookie persistence of the best score (`src/App.js:31, 63-67, 115`). The write is modelled as the update of `highestScore`. Loading a stored value on mount is not modelled, because it is an external store. The cookie's string-vs-number typing is also left out, so the comparison `score > highestScore` is on integers.
- Interval scheduling and effect re-subscription (`src/App.js:69-99`). These are timers; one `Tick` models one firing.
- The random video selection (`src/App.js:140-148`). It is media with no game logic. The 3-second timer is modelled only as an event that clears `whiteScreen`.
- Rendering without automatic batching (React 17, or `ReactDOM.render`). There, `setObjPos` at `src/App.js:77` could render on its own. The effect would then be re-created before the bird update at `src/App.js:88`/`90` lands, and `birdPos` is not among its dependencies. The next firing would then read a bird position one step stale, so the bird could pass -5 or 555. The model assumes one render per firing, and `Game.BirdInBand` holds only under that assumption.
- Listener registration and teardown (`src/App.js:54-60`). This is browser I/O; only the key-to-flag mapping is kept.
- `Math.random` itself. Each draw is a parameter with its range as a precondition.
