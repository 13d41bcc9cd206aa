/** The scoreboard bookkeeping as a pure state machine. `Counters` is the
    `gameStats` record together with the module-level `lastCollision`
    timestamp; the two timer bodies that change them are ScoreboardStep (the
    30 ms interval) and CollisionFrame (one animation frame of an enemy's
    transition). Events interleave freely, so the lemmas are about any run. */
module Scoring {

  datatype Counters = Counters(score: int, bestScore: int, collisions: int, lastCollision: int)

  /** The state at page load: every counter and the timestamp are zero. */
  const Initial: Counters := Counters(0, 0, 0, 0)

  /** Minimum gap, in milliseconds, that must be EXCEEDED between two accepted collisions. */
  const DebounceMs: int := 1000

  predicate WellFormed(c: Counters) {
    0 <= c.score && 0 <= c.bestScore && 0 <= c.collisions
  }

  function Max(a: int, b: int): int {
    if a < b then b else a
  }

  /** One firing of the scoreboard interval, given whether the static scan
      found a collision: the score is bumped first; on a collision the bumped
      score is offered to bestScore and then discarded. */
  function ScoreboardStep(c: Counters, hit: bool): (r: Counters)
    ensures r.collisions == c.collisions && r.lastCollision == c.lastCollision
    ensures !hit ==> r.score == c.score + 1 && r.bestScore == c.bestScore
    ensures hit ==> r.score == 0 && r.bestScore == Max(c.bestScore, c.score + 1)
  {
    var bumped := c.(score := c.score + 1);
    if !hit then bumped
    else if bumped.score > bumped.bestScore then bumped.(bestScore := bumped.score, score := 0)
    else bumped.(score := 0)
  }

  /** A hit reported at time `now` is accepted when strictly more than
      DebounceMs have passed since the last accepted one. */
  predicate Accepts(c: Counters, now: int) {
    now - c.lastCollision > DebounceMs
  }

  /** The collision branch of one tween frame, given whether the frame's
      distance test fired and the clock reading. An accepted hit is counted and
      restarts the window; the score and bestScore are never touched here. */
  function CollisionFrame(c: Counters, hit: bool, now: int): (r: Counters)
    ensures r.score == c.score && r.bestScore == c.bestScore
    ensures hit && Accepts(c, now) ==> r.collisions == c.collisions + 1 && r.lastCollision == now
    ensures !(hit && Accepts(c, now)) ==> r == c
  {
    if hit then
      if Accepts(c, now) then c.(lastCollision := now, collisions := c.collisions + 1) else c
    else c
  }

  /** One timer body firing: a scoreboard tick or a tween frame. */
  datatype Event = Tick(hit: bool) | Frame(hit: bool, now: int)

  function Step(c: Counters, e: Event): Counters {
    match e
    case Tick(hit) => ScoreboardStep(c, hit)
    case Frame(hit, now) => CollisionFrame(c, hit, now)
  }

  /** The counters after the events fire in order. */
  function Run(c: Counters, events: seq<Event>): Counters
    decreases |events|
  {
    if events == [] then c else Run(Step(c, events[0]), events[1..])
  }

  lemma {:induction false} RunAppend(c: Counters, a: seq<Event>, b: seq<Event>)
    ensures Run(c, a + b) == Run(Run(c, a), b)
    decreases |a|
  {
    if a == [] {
      assert a + b == b;
    } else {
      assert (a + b)[0] == a[0];
      assert (a + b)[1..] == a[1..] + b;
      RunAppend(Step(c, a[0]), a[1..], b);
    }
  }

  /** Well-formed counters stay well-formed: no counter goes negative. */
  lemma {:induction false} RunKeepsWellFormed(c: Counters, events: seq<Event>)
    requires WellFormed(c)
    ensures WellFormed(Run(c, events))
    decreases |events|
  {
    if events != [] {
      RunKeepsWellFormed(Step(c, events[0]), events[1..]);
    }
  }

  /** Neither bestScore nor the collision count ever decreases. */
  lemma {:induction false} RunNeverDecreases(c: Counters, events: seq<Event>)
    ensures c.bestScore <= Run(c, events).bestScore
    ensures c.collisions <= Run(c, events).collisions
    decreases |events|
  {
    if events != [] {
      RunNeverDecreases(Step(c, events[0]), events[1..]);
    }
  }

  /** bestScore is monotone along every run: a later prefix never has a
      smaller bestScore than an earlier one. */
  lemma BestScoreMonotone(c: Counters, events: seq<Event>, j: nat, k: nat)
    requires j <= k <= |events|
    ensures Run(c, events[..j]).bestScore <= Run(c, events[..k]).bestScore
  {
    assert events[..k] == events[..j] + events[j..k];
    RunAppend(c, events[..j], events[j..k]);
    RunNeverDecreases(Run(c, events[..j]), events[j..k]);
  }

  /** A scoreboard tick that collides at position k resets the score, and the
      value it discarded (the score it had just reached) is never above the
      bestScore at that point or at any later point. */
  lemma DiscardedScoreKept(c: Counters, events: seq<Event>, k: nat)
    requires k < |events| && events[k] == Tick(true)
    ensures Run(c, events[..k + 1]).score == 0
    ensures Run(c, events[..k]).score + 1 <= Run(c, events[..k + 1]).bestScore
    ensures Run(c, events[..k]).score + 1 <= Run(c, events).bestScore
  {
    assert events[..k + 1] == events[..k] + [events[k]];
    RunAppend(c, events[..k], [events[k]]);
    var before := Run(c, events[..k]);
    assert Run(before, [events[k]]) == Run(Step(before, events[k]), []);
    BestScoreMonotone(c, events, k + 1, |events|);
    assert events[..|events|] == events;
  }

  /** No tween frame in the events reports a hit later than DebounceMs after
      t: they are scoreboard ticks, frames whose distance test did not fire, and
      hit frames that the debounce window opened at t rejects. */
  predicate InsideWindow(events: seq<Event>, t: int) {
    forall e <- events :: e.Tick? || !e.hit || e.now - t <= DebounceMs
  }

  /** Scoreboard ticks, frames without a hit and hits inside the current
      debounce window leave the collision count and the timestamp alone. */
  lemma {:induction false} WindowKeepsCollisionClock(c: Counters, events: seq<Event>)
    requires InsideWindow(events, c.lastCollision)
    ensures Run(c, events).collisions == c.collisions
    ensures Run(c, events).lastCollision == c.lastCollision
    decreases |events|
  {
    if events != [] {
      assert events[0] in events;
      assert forall e <- events[1..] :: e in events;
      WindowKeepsCollisionClock(Step(c, events[0]), events[1..]);
    }
  }

  /** Debounce: after an accepted hit at t1, a later hit at t2 is counted
      exactly when t2 - t1 > DebounceMs, whatever fires in between: scoreboard
      ticks, hit-free frames, and the burst of hits within 1000 ms of t1 that
      an enemy crossing the player produces, all of which are rejected. */
  lemma Debounce(c: Counters, t1: int, ticks: seq<Event>, t2: int)
    requires Accepts(c, t1) && InsideWindow(ticks, t1)
    ensures Run(c, [Frame(true, t1)] + ticks + [Frame(true, t2)]).collisions
            == c.collisions + (if t2 - t1 > DebounceMs then 2 else 1)
  {
    var first := Step(c, Frame(true, t1));
    assert first.collisions == c.collisions + 1 && first.lastCollision == t1;
    assert Run(c, [Frame(true, t1)]) == first by {
      assert Run(c, [Frame(true, t1)]) == Run(first, []);
    }
    RunAppend(c, [Frame(true, t1)], ticks);
    WindowKeepsCollisionClock(first, ticks);
    var mid := Run(first, ticks);
    RunAppend(c, [Frame(true, t1)] + ticks, [Frame(true, t2)]);
    assert Run(mid, [Frame(true, t2)]) == Run(Step(mid, Frame(true, t2)), []);
  }

  /** Five quiet ticks, an accepted tween hit, then a colliding tick: the tween
      hit only counts (score stays 5); the colliding tick records 6 and resets. */
  lemma TweenHitThenStaticHit()
    ensures Run(Initial, [Tick(false), Tick(false), Tick(false), Tick(false), Tick(false),
                          Frame(true, 5000)]) == Counters(5, 0, 1, 5000)
    ensures Run(Initial, [Tick(false), Tick(false), Tick(false), Tick(false), Tick(false),
                          Frame(true, 5000), Tick(true)]) == Counters(0, 6, 1, 5000)
  {
  }
}
