/** The game's mutable state and the bodies of its timers and handlers. The
    module-level variables of the game (`enemyList`, `playerList`, `gameStats`
    and `lastCollision`) become the fields of one `Game` object; each timer body
    is a method that changes them in place, proved against the pure
    definitions of Field, Collision and Scoring. */
module Watchout {
  import opened Field
  import opened Collision
  import opened Scoring

  class Game {
    var enemies: seq<Circle>
    var players: seq<Circle>
    var score: int
    var bestScore: int
    var collisions: int
    var lastCollision: int

    /** The scoreboard counters and the debounce timestamp as one value. */
    ghost function Snapshot(): Counters
      reads this
    {
      Counters(score, bestScore, collisions, lastCollision)
    }

    /** Twenty black enemies inside the margin rectangle, exactly one player
        with its own style (its centre is wherever it was last dragged), and
        no negative counter. */
    ghost predicate Valid()
      reads this
    {
      |enemies| == Options.nEnemies &&
      (forall e <- enemies :: IsEnemyStyle(e) && InField(Options, e.cx, e.cy)) &&
      |players| == 1 && IsPlayerStyle(players[0]) &&
      WellFormed(Snapshot())
    }

    /** Page load: the population loop pushes one enemy per draw, then the
        single player is created; every counter starts at zero. */
    constructor (enemyDraws: seq<Draw>, playerDraw: Draw)
      requires |enemyDraws| == Options.nEnemies
      requires forall d <- enemyDraws :: IsDraw(d)
      requires IsDraw(playerDraw)
      ensures Valid()
      ensures |enemies| == |enemyDraws|
      ensures forall i :: 0 <= i < |enemies| ==> enemies[i] == CreateEnemy(Options, enemyDraws[i])
      ensures players == [CreatePlayer(Options, playerDraw)]
      ensures Snapshot() == Initial
    {
      var list: seq<Circle> := [];
      var i := 0;
      while i < Options.nEnemies
        invariant 0 <= i <= Options.nEnemies
        invariant |list| == i
        invariant forall j :: 0 <= j < i ==> list[j] == CreateEnemy(Options, enemyDraws[j])
      {
        list := list + [CreateEnemy(Options, enemyDraws[i])];
        i := i + 1;
      }
      enemies := list;
      players := [CreatePlayer(Options, playerDraw)];
      score, bestScore, collisions := 0, 0, 0;
      lastCollision := 0;
    }

    /** The static scan: is any enemy closer to the player than twice the
        player's radius? Stops at the first such enemy. */
    method CheckCollisions() returns (hit: bool)
      requires players != []
      ensures hit <==> AnyStaticHit(enemies, players[0])
    {
      var player := players[0];
      var i := 0;
      while i < |enemies|
        invariant 0 <= i <= |enemies|
        invariant forall j :: 0 <= j < i ==> !StaticHit(enemies[j], player)
      {
        var dheight := enemies[i].cx - player.cx;
        var dwidth := enemies[i].cy - player.cy;
        if SqrtLess(dheight * dheight + dwidth * dwidth, 2 * player.r) {
          return true;
        }
        i := i + 1;
      }
      return false;
    }

    /** The enemy interval: every enemy jumps to a freshly generated centre,
        in list order, keeping its radius and style. */
    method RepositionEnemies(draws: seq<Draw>)
      requires Valid()
      requires |draws| == |enemies| && forall d <- draws :: IsDraw(d)
      modifies this
      ensures Valid()
      ensures |enemies| == |old(enemies)|
      ensures forall i :: 0 <= i < |enemies| ==>
                Position(enemies[i].cx, enemies[i].cy) == FindRandomPosition(Options, draws[i]) &&
                SameStyle(enemies[i], old(enemies[i]))
      ensures players == old(players) && Snapshot() == old(Snapshot())
    {
      var i := 0;
      while i < |enemies|
        invariant 0 <= i <= |enemies| == |old(enemies)|
        invariant forall j :: 0 <= j < i ==>
                    Position(enemies[j].cx, enemies[j].cy) == FindRandomPosition(Options, draws[j]) &&
                    SameStyle(enemies[j], old(enemies[j]))
        invariant forall j :: i <= j < |enemies| ==> enemies[j] == old(enemies[j])
        invariant players == old(players) && Snapshot() == old(Snapshot())
      {
        var newPosition := FindRandomPosition(Options, draws[i]);
        enemies := enemies[i := enemies[i].(cx := newPosition.cx, cy := newPosition.cy)];
        i := i + 1;
      }
    }

    /** The scoreboard interval: bump the score, then on a static collision
        offer it to bestScore and reset it. */
    method ScoreboardTick()
      requires Valid()
      modifies this
      ensures Valid()
      ensures Snapshot() == ScoreboardStep(old(Snapshot()), AnyStaticHit(enemies, players[0]))
      ensures enemies == old(enemies) && players == old(players)
    {
      score := score + 1;
      var hit := CheckCollisions();
      if hit {
        if score > bestScore {
          bestScore := score;
        }
        score := 0;
      }
    }

    /** One animation frame of enemy `i`'s transition, at the interpolated
        point (x, y), with the clock reading `now`: a hit closer than the sum
        of the radii is counted unless it falls within the debounce window. */
    method TweenFrame(i: nat, x: int, y: int, now: int)
      requires Valid() && i < |enemies|
      modifies this
      ensures Valid()
      ensures Snapshot() == CollisionFrame(old(Snapshot()), FrameHit(x, y, enemies[i], players[0]), now)
      ensures enemies == old(enemies) && players == old(players)
    {
      var enemyData := enemies[i];
      var player := players[0];
      var diffX := x - player.cx;
      var diffY := y - player.cy;
      if SqrtLess(diffX * diffX + diffY * diffY, enemyData.r + player.r) {
        if now - lastCollision > DebounceMs {
          lastCollision := now;
          collisions := collisions + 1;
        }
      }
    }

    /** The data effect of a drag event: the player's centre becomes the
        pointer's coordinates, without clamping. */
    method DragMove(x: int, y: int)
      requires Valid()
      modifies this
      ensures Valid()
      ensures |players| == 1 && players[0].cx == x && players[0].cy == y
      ensures SameStyle(players[0], old(players[0]))
      ensures enemies == old(enemies) && Snapshot() == old(Snapshot())
    {
      players := [players[0].(cx := x, cy := y)];
    }
  }
}
