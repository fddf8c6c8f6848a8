/** A play session: the interleaving of interval ticks, clicks, key events
    and the white-screen timer, each applied to the state the previous one
    left. Random draws are carried by the events. */
module Session {
  import opened Config
  import opened Game

  datatype Event =
    | TickEvent(draw: int)
    | ClickEvent(heightDraw: int, posDraw: int)
    | KeyDownEvent(key: string)
    | KeyUpEvent(key: string)
    | WhiteScreenTimeout

  /** The draws an event carries are in the ranges the random calls can
      produce for every reachable score. */
  predicate DrawsInRange(e: Event) {
    match e
    case TickEvent(d) => 0 <= d < WALL_HEIGHT - INITIAL_OBJ_GAP
    case ClickEvent(h, p) => 0 <= h < WALL_HEIGHT - INITIAL_OBJ_GAP && 0 <= p < WALL_WIDTH - OBJ_WIDTH
    case _ => true
  }

  function Step(v: State, e: Event): State {
    match e
    case TickEvent(d) => TickSpec(v, d)
    case ClickEvent(h, p) => Click(v, h, p)
    case KeyDownEvent(k) => KeyDown(v, k)
    case KeyUpEvent(k) => KeyUp(v, k)
    case WhiteScreenTimeout => ClearWhiteScreen(v)
  }

  /** The state after the events, in order. */
  function Run(v: State, es: seq<Event>): State
    decreases |es|
  {
    if es == [] then v else Run(Step(v, es[0]), es[1..])
  }

  /** Every event with in-range draws keeps the invariant. */
  lemma StepKeepsInv(v: State, e: Event)
    requires Inv(v) && DrawsInRange(e)
    ensures Inv(Step(v, e))
  {
  }

  /** Every state reached by any session satisfies the invariant: the bird
      stays within one step of the walls, the obstacle within its track,
      the obstacle height within the wall minus the gap, and both scores
      are non-negative. */
  lemma {:induction false} RunKeepsInv(v: State, es: seq<Event>)
    requires Inv(v)
    requires forall i :: 0 <= i < |es| ==> DrawsInRange(es[i])
    ensures Inv(Run(v, es))
    decreases |es|
  {
    if es != [] {
      StepKeepsInv(v, es[0]);
      RunKeepsInv(Step(v, es[0]), es[1..]);
    }
  }

  /** The best score never decreases, whatever happens. */
  lemma {:induction false} RunNeverLowersBest(v: State, es: seq<Event>)
    ensures Run(v, es).highestScore >= v.highestScore
    decreases |es|
  {
    if es != [] {
      RunNeverLowersBest(Step(v, es[0]), es[1..]);
    }
  }

  /** While no round runs there is no interval: ticks change nothing
      until a click starts a round. */
  lemma {:induction false} IdleTicksChangeNothing(v: State, es: seq<Event>)
    requires !v.isStart
    requires forall i :: 0 <= i < |es| ==> es[i].TickEvent?
    ensures Run(v, es) == v
    decreases |es|
  {
    if es != [] {
      assert Step(v, es[0]) == v;
      IdleTicksChangeNothing(v, es[1..]);
    }
  }

  /** When a round ends on a tick, the best score covers the score the
      round had reached. */
  lemma EndedRoundScoreIsCovered(v: State, draw: int)
    requires v.isStart && !TickSpec(v, draw).isStart
    ensures TickSpec(v, draw).highestScore >= v.score
    ensures TickSpec(v, draw).score == 0
  {
  }

  /** Touching a wall ends the round on the next move tick, wherever the
      obstacle is and whatever its height. */
  lemma WallEndsRound(v: State, draw: int)
    requires v.isStart && v.objPos >= MIN_OBJ_POS && HitsWall(v.birdPos)
    ensures !TickSpec(v, draw).isStart
  {
  }

  /** A recycle tick runs no collision test: a bird above the ceiling
      survives it and, with "down" held, gets back inside. */
  lemma RecycleTickSkipsWallTest()
    ensures var v := State(true, -5, 100, MIN_OBJ_POS - 1, 3, 7, false, true, false);
            var r := TickSpec(v, 200);
            HitsWall(v.birdPos) && r.isStart && r.birdPos == 5 && r.score == 4 &&
            r.objPos == RECYCLE_POS && r.objHeight == 200
  {
  }

  /** An obstacle at exactly the minimum position is still moved, not yet
      recycled; the recycle happens on the following tick. */
  lemma AtMinPosMovesOnceMore(v: State, d1: int, d2: int)
    requires v.isStart && v.objPos == MIN_OBJ_POS && !Collides(v)
    ensures Run(v, [TickEvent(d1)]).objPos == MIN_OBJ_POS - BASE_OBJ_SPEED
    ensures var w := Run(v, [TickEvent(d1), TickEvent(d2)]);
            w.isStart && w.objPos == RECYCLE_POS && w.objHeight == d2 && w.score == v.score + 1
  {
    var u := Step(v, TickEvent(d1));
    assert u.isStart && u.objPos == MIN_OBJ_POS - BASE_OBJ_SPEED;
    assert [TickEvent(d1), TickEvent(d2)][1..] == [TickEvent(d2)];
    assert Run(v, [TickEvent(d1), TickEvent(d2)]) == Run(u, [TickEvent(d2)]);
    assert Run(u, [TickEvent(d2)]) == Run(Step(u, TickEvent(d2)), []);
  }

  /** `n` interval firings with the same draw. */
  function Ticks(n: nat, draw: int): (es: seq<Event>)
    ensures |es| == n && forall i :: 0 <= i < n ==> es[i] == TickEvent(draw)
  {
    seq(n, i => TickEvent(draw))
  }

  /** Holding "up" for `n` ticks while the bird stays clear of the ceiling
      and the floor and the obstacle stays right of the hit window raises
      the bird by 10 per tick and moves the obstacle by 25 per tick; the
      round keeps running and the scores are unchanged. */
  lemma {:induction false} HoldingUpClimbs(v: State, n: nat, draw: int)
    requires v.isStart && v.moveUp
    requires MOVE_STEP * (n - 1) < v.birdPos < BIRD_FLOOR
    requires v.objPos - BASE_OBJ_SPEED * (n - 1) > BIRD_WIDTH + 80
    ensures var w := Run(v, Ticks(n, draw));
            w.isStart && w.moveUp == v.moveUp && w.moveDown == v.moveDown &&
            w.birdPos == v.birdPos - MOVE_STEP * n &&
            w.objPos == v.objPos - BASE_OBJ_SPEED * n &&
            w.objHeight == v.objHeight &&
            w.score == v.score && w.highestScore == v.highestScore
    decreases n
  {
    if n > 0 {
      var u := Step(v, TickEvent(draw));
      assert !Collides(v);
      assert Ticks(n, draw)[1..] == Ticks(n - 1, draw);
      HoldingUpClimbs(u, n - 1, draw);
    }
  }

  /** A click while idle starts a round with score 0 and a top obstacle
      shorter than the wall minus the initial gap. */
  lemma ClickStartsRound(v: State, h: int, p: int)
    requires !v.isStart && Inv(v)
    requires DrawsInRange(ClickEvent(h, p))
    ensures var w := Step(v, ClickEvent(h, p));
            w.isStart && w.score == 0 && w.birdPos == BIRD_START &&
            0 <= w.objHeight < WALL_HEIGHT - NextGap(0) && w.highestScore == v.highestScore
  {
  }
}
