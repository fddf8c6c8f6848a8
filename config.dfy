/** Geometry and tuning constants of the playfield, and the two pure
    difficulty formulas (obstacle gap and obstacle speed). All lengths are
    in pixels. */
module Config {

  const BIRD_HEIGHT: int := 50
  const BIRD_WIDTH: int := 160
  const WALL_HEIGHT: int := 600
  const WALL_WIDTH: int := 1400
  const OBJ_WIDTH: int := 52
  /** Gap between the top and the bottom obstacle at score 0. */
  const INITIAL_OBJ_GAP: int := 80
  /** Floor of the gap formula (equal to the initial gap). */
  const MIN_OBJ_GAP: int := 80
  const INITIAL_OBJ_POS: int := WALL_WIDTH
  /** Once the obstacle is left of this position it is recycled. */
  const MIN_OBJ_POS: int := -OBJ_WIDTH
  const BASE_OBJ_SPEED: int := 25
  /** Vertical displacement of the bird per tick while a key is held. */
  const MOVE_STEP: int := 10

  /** Horizontal position an obstacle re-enters at after a recycle. */
  const RECYCLE_POS: int := WALL_WIDTH - 480
  /** Vertical position the bird is centred at on start and on round end. */
  const BIRD_START: int := WALL_HEIGHT / 2 - BIRD_HEIGHT / 2
  /** The bird position at which "down" steps stop, and at or beyond which
      the bird touches the floor. */
  const BIRD_FLOOR: int := WALL_HEIGHT - BIRD_HEIGHT

  /** The gap for the next obstacle: shrinks by 5 per point but never below
      MIN_OBJ_GAP. Since the floor equals the initial gap, the gap is the
      constant 80 for every reachable (non-negative) score. */
  function NextGap(score: int): (gap: int)
    ensures gap >= MIN_OBJ_GAP
    ensures gap >= INITIAL_OBJ_GAP - score * 5
    ensures gap == MIN_OBJ_GAP || gap == INITIAL_OBJ_GAP - score * 5
    ensures score >= 0 ==> gap == INITIAL_OBJ_GAP
  {
    var nextGap := INITIAL_OBJ_GAP - score * 5;
    if MIN_OBJ_GAP >= nextGap then MIN_OBJ_GAP else nextGap
  }

  /** A higher score never widens the gap. */
  lemma NextGapNonIncreasing(lo: int, hi: int)
    requires lo <= hi
    ensures NextGap(hi) <= NextGap(lo)
  {
  }

  /** Obstacle speed; the score argument is ignored. */
  function ObjectSpeed(score: int): (speed: int)
    ensures speed == BASE_OBJ_SPEED * 10
  {
    BASE_OBJ_SPEED * 10
  }

  /** Horizontal distance the obstacle moves in one tick: the speed divided
      by 10. The division is exact, so the floating-point quotient of the
      source and this integer quotient agree. */
  function ObjStep(score: int): (step: int)
    ensures step * 10 == ObjectSpeed(score)
    ensures step == BASE_OBJ_SPEED
  {
    ObjectSpeed(score) / 10
  }

  /** Height of the bottom obstacle as drawn: whatever is left of the wall
      below the top obstacle and the gap. */
  function BottomObjHeight(objHeight: int): (h: int)
    ensures objHeight + INITIAL_OBJ_GAP + h == WALL_HEIGHT
    ensures 0 <= objHeight < WALL_HEIGHT - INITIAL_OBJ_GAP ==> 0 < h <= WALL_HEIGHT - INITIAL_OBJ_GAP
  {
    WALL_HEIGHT - INITIAL_OBJ_GAP - objHeight
  }

  /** The bird position the bottom-obstacle test compares against: the top
      edge of the bottom obstacle minus the bird's height, written as the
      collision test writes it. */
  function BottomThreshold(objHeight: int): (t: int)
    ensures t == objHeight + INITIAL_OBJ_GAP - BIRD_HEIGHT
    ensures t == objHeight + 30
  {
    WALL_HEIGHT - BottomObjHeight(objHeight) - BIRD_HEIGHT
  }
}
