/** The per-tick game state machine as pure functions over a snapshot of the
    component's state. Each function gives the state after one handler has
    run and all the updates it queued have been applied, computed from the
    state the handler saw. */
module Game {
  import opened Config

  /** One snapshot of the component's state. */
  datatype State = State(
    isStart: bool,
    birdPos: int,
    objHeight: int,
    objPos: int,
    score: int,
    highestScore: int,
    moveUp: bool,
    moveDown: bool,
    whiteScreen: bool)

  /** The state on mount (the stored best score is not loaded in this model). */
  const Initial: State := State(false, BIRD_START, 0, INITIAL_OBJ_POS, 0, 0, false, false, false)

  /** The bird touches the ceiling or the floor. */
  predicate HitsWall(birdPos: int) {
    birdPos <= 0 || birdPos >= BIRD_FLOOR
  }

  /** The obstacle is in the horizontal window where it can hit the bird. */
  predicate InHitWindow(objPos: int) {
    BIRD_WIDTH <= objPos <= BIRD_WIDTH + 80
  }

  /** The bird overlaps the top obstacle. */
  predicate HitsTop(birdPos: int, objHeight: int) {
    0 <= birdPos < objHeight
  }

  /** The bird overlaps the bottom obstacle. */
  predicate HitsBottom(birdPos: int, objHeight: int) {
    objHeight + 30 < birdPos <= WALL_HEIGHT
  }

  /** The collision test, written as the source writes it. Either the wall
      test holds, whatever the obstacle is doing, or the obstacle is in the
      hit window and the bird overlaps its top or its bottom part. */
  predicate Collides(v: State)
    ensures Collides(v) <==>
      HitsWall(v.birdPos) ||
      (InHitWindow(v.objPos) &&
       (HitsTop(v.birdPos, v.objHeight) || HitsBottom(v.birdPos, v.objHeight)))
  {
    var topObj := v.birdPos >= 0 && v.birdPos < v.objHeight;
    var bottomObj := v.birdPos <= WALL_HEIGHT && v.birdPos >= BottomThreshold(v.objHeight);
    (v.birdPos <= 0 || v.birdPos >= WALL_HEIGHT - BIRD_HEIGHT) ||
    ((v.objPos >= BIRD_WIDTH && v.objPos <= BIRD_WIDTH + 80) &&
     ((topObj && v.birdPos < v.objHeight) || (bottomObj && v.birdPos > BottomThreshold(v.objHeight))))
  }

  /** The effect of a collision: the round stops, the best score becomes the
      larger of itself and the score, the bird is re-centred, the score is
      cleared and the white screen is shown. The obstacle and the keys are
      untouched. */
  function EndRound(v: State): (e: State)
    ensures !e.isStart && e.whiteScreen
    ensures e.highestScore >= v.highestScore && e.highestScore >= v.score
    ensures e.highestScore == v.highestScore || e.highestScore == v.score
    ensures e.birdPos == BIRD_START && e.score == 0
    ensures e.objPos == v.objPos && e.objHeight == v.objHeight
    ensures e.moveUp == v.moveUp && e.moveDown == v.moveDown
  {
    var best := if v.score > v.highestScore then v.score else v.highestScore;
    v.(isStart := false, highestScore := best, birdPos := BIRD_START, score := 0, whiteScreen := true)
  }

  /** Vertical displacement of the bird in one tick, decided by the keys and
      the position the tick saw: up wins over down, up stops at the ceiling,
      down stops at the floor. */
  function BirdStep(birdPos: int, moveUp: bool, moveDown: bool): (d: int)
    ensures d == -MOVE_STEP || d == 0 || d == MOVE_STEP
    ensures d == -MOVE_STEP <==> moveUp && birdPos > 0
    ensures d == MOVE_STEP <==> !(moveUp && birdPos > 0) && moveDown && birdPos < BIRD_FLOOR
  {
    if moveUp && birdPos > 0 then -MOVE_STEP
    else if moveDown && birdPos < WALL_HEIGHT - BIRD_HEIGHT then MOVE_STEP
    else 0
  }

  /** Holding both keys moves the bird exactly as holding only up does,
      whenever up can be taken. */
  lemma UpTakesPriority(birdPos: int)
    requires birdPos > 0
    ensures BirdStep(birdPos, true, true) == BirdStep(birdPos, true, false) == -MOVE_STEP
  {
  }

  /** At or above the ceiling, up cannot be taken, so holding both keys is
      not the up-only result: the bird steps down instead of staying. */
  lemma BothKeysAtCeilingStepDown()
    ensures BirdStep(-5, true, true) == MOVE_STEP
    ensures BirdStep(-5, true, false) == 0
  {
  }

  /** One tick of the game loop. `draw` stands for the random draw of the
      new obstacle height, used only when the obstacle is recycled. Every
      guard and the collision test read `v`, the state the tick saw; the
      bird step is applied after (on top of) a collision's reset. */
  function TickSpec(v: State, draw: int): (r: State)
    ensures !v.isStart ==> r == v
    ensures r.moveUp == v.moveUp && r.moveDown == v.moveDown
    ensures r.highestScore >= v.highestScore
    ensures v.isStart && v.objPos >= MIN_OBJ_POS ==>
      r.objPos == v.objPos - BASE_OBJ_SPEED && r.objHeight == v.objHeight &&
      (r.isStart <==> !Collides(v))
    ensures v.isStart && v.objPos >= MIN_OBJ_POS && Collides(v) ==>
      r.score == 0 && r.whiteScreen &&
      r.highestScore >= v.score && (r.highestScore == v.highestScore || r.highestScore == v.score) &&
      r.birdPos == BIRD_START + BirdStep(v.birdPos, v.moveUp, v.moveDown)
    ensures v.isStart && v.objPos >= MIN_OBJ_POS && !Collides(v) ==>
      r.score == v.score && r.highestScore == v.highestScore && r.whiteScreen == v.whiteScreen &&
      r.birdPos == v.birdPos + BirdStep(v.birdPos, v.moveUp, v.moveDown)
    ensures v.isStart && v.objPos < MIN_OBJ_POS ==>
      r.isStart && r.objPos == RECYCLE_POS && r.objHeight == draw &&
      r.score == v.score + 1 && r.highestScore == v.highestScore && r.whiteScreen == v.whiteScreen &&
      r.birdPos == v.birdPos + BirdStep(v.birdPos, v.moveUp, v.moveDown)
  {
    if !v.isStart then v
    else
      var afterObstacle :=
        if v.objPos >= MIN_OBJ_POS then
          var moved := v.(objPos := v.objPos - ObjStep(v.score));
          if Collides(v) then EndRound(moved) else moved
        else
          v.(objPos := RECYCLE_POS, objHeight := draw, score := v.score + 1);
      afterObstacle.(birdPos := afterObstacle.birdPos + BirdStep(v.birdPos, v.moveUp, v.moveDown))
  }

  /** A click: only while idle, it starts a round with a centred bird, a
      zero score and a randomly placed obstacle (`heightDraw` and `posDraw`
      stand for the two random draws). */
  function Click(v: State, heightDraw: int, posDraw: int): (r: State)
    ensures v.isStart ==> r == v
    ensures !v.isStart ==>
      r.isStart && r.birdPos == BIRD_START && r.score == 0 &&
      r.objHeight == heightDraw && r.objPos == posDraw
    ensures r.highestScore == v.highestScore && r.whiteScreen == v.whiteScreen
    ensures r.moveUp == v.moveUp && r.moveDown == v.moveDown
  {
    if v.isStart then v
    else v.(isStart := true, birdPos := BIRD_START, score := 0, objPos := posDraw, objHeight := heightDraw)
  }

  /** Key press: "w" sets the up flag, "s" the down flag, any other key is
      ignored. */
  function KeyDown(v: State, key: string): (r: State)
    ensures r.moveUp <==> v.moveUp || key == "w"
    ensures r.moveDown <==> v.moveDown || key == "s"
    ensures r.(moveUp := v.moveUp, moveDown := v.moveDown) == v
  {
    if key == "w" then v.(moveUp := true)
    else if key == "s" then v.(moveDown := true)
    else v
  }

  /** Key release: "w" clears the up flag, "s" the down flag, any other key
      is ignored. */
  function KeyUp(v: State, key: string): (r: State)
    ensures r.moveUp <==> v.moveUp && key != "w"
    ensures r.moveDown <==> v.moveDown && key != "s"
    ensures r.(moveUp := v.moveUp, moveDown := v.moveDown) == v
  {
    if key == "w" then v.(moveUp := false)
    else if key == "s" then v.(moveDown := false)
    else v
  }

  /** Releasing a key undoes pressing it: the flag ends up cleared whatever
      it was before. */
  lemma KeyUpAfterKeyDown(v: State, key: string)
    ensures KeyUp(KeyDown(v, key), key) == KeyUp(v, key)
  {
  }

  /** The white-screen timer firing clears the flag and nothing else. */
  function ClearWhiteScreen(v: State): (r: State)
    ensures !r.whiteScreen && r.(whiteScreen := v.whiteScreen) == v
  {
    v.(whiteScreen := false)
  }

  /** The bird positions a game can reach: steps of 10 from the centre 275,
      at most one step beyond the ceiling or the floor (the wall test runs
      only before a step, and not at all on a recycle tick). */
  predicate BirdInBand(birdPos: int) {
    -MOVE_STEP / 2 <= birdPos <= BIRD_FLOOR + MOVE_STEP / 2 && birdPos % MOVE_STEP == MOVE_STEP / 2
  }

  /** What holds of every reachable state. */
  predicate Inv(v: State) {
    BirdInBand(v.birdPos) &&
    MIN_OBJ_POS - BASE_OBJ_SPEED <= v.objPos <= INITIAL_OBJ_POS &&
    0 <= v.objHeight < WALL_HEIGHT - INITIAL_OBJ_GAP &&
    v.score >= 0 && v.highestScore >= 0
  }

  /** A bird step keeps the bird in the band. */
  lemma StepStaysInBand(birdPos: int, moveUp: bool, moveDown: bool)
    requires BirdInBand(birdPos)
    ensures BirdInBand(birdPos + BirdStep(birdPos, moveUp, moveDown))
  {
  }

  lemma InitialInv()
    ensures Inv(Initial)
  {
  }

  /** A tick with a valid height draw keeps the invariant. */
  lemma TickKeepsInv(v: State, draw: int)
    requires Inv(v)
    requires 0 <= draw < WALL_HEIGHT - NextGap(v.score)
    ensures Inv(TickSpec(v, draw))
  {
  }

  /** A click with valid draws keeps the invariant; the obstacle lands
      anywhere in the wall width minus one obstacle width. */
  lemma ClickKeepsInv(v: State, heightDraw: int, posDraw: int)
    requires Inv(v)
    requires 0 <= heightDraw < WALL_HEIGHT - NextGap(0)
    requires 0 <= posDraw < WALL_WIDTH - OBJ_WIDTH
    ensures Inv(Click(v, heightDraw, posDraw))
  {
  }
}
