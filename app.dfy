/** The game component: its state fields, updated in place by the interval
    body, the collision check, the click handler and the key handlers. Each
    handler first takes the snapshot it reads its guards from (the render's
    values), then applies its updates in the order the source queues them. */
module Component {
  import opened Config
  import opened Game

  class App {
    var isStart: bool
    var birdPos: int
    var objHeight: int
    var objPos: int
    var score: int
    var highestScore: int
    var moveUp: bool
    var moveDown: bool
    var whiteScreen: bool

    /** The fields as one value. */
    function Snapshot(): State
      reads this
    {
      State(isStart, birdPos, objHeight, objPos, score, highestScore, moveUp, moveDown, whiteScreen)
    }

    /** Every reachable state satisfies the game invariant. */
    predicate Valid()
      reads this
    {
      Inv(Snapshot())
    }

    constructor ()
      ensures Snapshot() == Initial && Valid()
    {
      isStart := false;
      birdPos := BIRD_START;
      objHeight := 0;
      objPos := INITIAL_OBJ_POS;
      score := 0;
      highestScore := 0;
      moveUp := false;
      moveDown := false;
      whiteScreen := false;
    }

    /** One firing of the 24 ms interval. `draw` is the random obstacle
        height, used only if the obstacle is recycled. */
    method Tick(draw: int)
      requires Valid()
      requires 0 <= draw < WALL_HEIGHT - NextGap(score)
      modifies this
      ensures Snapshot() == TickSpec(old(Snapshot()), draw)
      ensures Valid()
    {
      var view := Snapshot();
      TickKeepsInv(view, draw);
      if !view.isStart {
        return;
      }
      if view.objPos >= MIN_OBJ_POS {
        objPos := objPos - ObjStep(view.score);
        CheckCollision(view);
      } else {
        objPos := RECYCLE_POS;
        objHeight := draw;
        score := score + 1;
      }
      if view.moveUp && view.birdPos > 0 {
        birdPos := birdPos - MOVE_STEP;
      } else if view.moveDown && view.birdPos < WALL_HEIGHT - BIRD_HEIGHT {
        birdPos := birdPos + MOVE_STEP;
      }
    }

    /** The collision check, reading the snapshot `view`. On a hit it stops
        the round, raises the best score to the seen score if that is
        higher, re-centres the bird, clears the score and shows the white
        screen; otherwise nothing changes. */
    method CheckCollision(view: State)
      modifies this
      ensures Collides(view) ==>
        !isStart && birdPos == BIRD_START && score == 0 && whiteScreen &&
        highestScore == (if view.score > view.highestScore then view.score else old(highestScore))
      ensures !Collides(view) ==>
        isStart == old(isStart) && birdPos == old(birdPos) && score == old(score) &&
        whiteScreen == old(whiteScreen) && highestScore == old(highestScore)
      ensures objPos == old(objPos) && objHeight == old(objHeight)
      ensures moveUp == old(moveUp) && moveDown == old(moveDown)
    {
      if Collides(view) {
        isStart := false;
        if view.score > view.highestScore {
          highestScore := view.score;
        }
        birdPos := BIRD_START;
        score := 0;
        whiteScreen := true;
      }
    }

    /** A click on the playfield. `heightDraw` and `posDraw` are the random
        obstacle height and position. */
    method HandleClick(heightDraw: int, posDraw: int)
      requires Valid()
      requires 0 <= heightDraw < WALL_HEIGHT - NextGap(0)
      requires 0 <= posDraw < WALL_WIDTH - OBJ_WIDTH
      modifies this
      ensures Snapshot() == Click(old(Snapshot()), heightDraw, posDraw)
      ensures Valid()
    {
      ClickKeepsInv(Snapshot(), heightDraw, posDraw);
      if !isStart {
        isStart := true;
        birdPos := BIRD_START;
        score := 0;
        objPos := posDraw;
        objHeight := heightDraw;
      }
    }

    method HandleKeyDown(key: string)
      requires Valid()
      modifies this
      ensures Snapshot() == KeyDown(old(Snapshot()), key)
      ensures Valid()
    {
      if key == "w" {
        moveUp := true;
      } else if key == "s" {
        moveDown := true;
      }
    }

    method HandleKeyUp(key: string)
      requires Valid()
      modifies this
      ensures Snapshot() == KeyUp(old(Snapshot()), key)
      ensures Valid()
    {
      if key == "w" {
        moveUp := false;
      } else if key == "s" {
        moveDown := false;
      }
    }

    /** The 3-second timer that hides the white screen again. */
    method HideWhiteScreen()
      requires Valid()
      modifies this
      ensures Snapshot() == ClearWhiteScreen(old(Snapshot()))
      ensures Valid()
    {
      whiteScreen := false;
    }
  }
}
