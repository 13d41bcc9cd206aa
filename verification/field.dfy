/** The play field: the start-up configuration, the random position generator
    and the two entity factories. Every member here is pure; the two values that
    Math.random() supplies for one position arrive as a `Draw`. */
module Field {

  /** The configuration fixed at start-up. `padding` is declared by the game
      but no operation reads it. */
  datatype GameOptions = GameOptions(height: int, width: int, nEnemies: nat, padding: int)

  /** The game's own configuration: a 700 x 450 field with 20 enemies. */
  const Options: GameOptions := GameOptions(450, 700, 20, 20)

  /** The two uniform draws consumed by one position: `x` for cx, then `y` for cy. */
  datatype Draw = Draw(x: real, y: real)

  /** Math.random() returns a value in [0, 1). */
  predicate IsDraw(d: Draw) {
    0.0 <= d.x < 1.0 && 0.0 <= d.y < 1.0
  }

  datatype Position = Position(cx: int, cy: int)

  /** An enemy or the player: centre, radius and the SVG style attributes. */
  datatype Circle = Circle(cx: int, cy: int, r: int, stroke: string, strokeWidth: int, fill: string)

  /** The margin-respecting rectangle the generator fills: 50 pixels on the
      low side and 51 on the high side, because the floor of the scaled draw
      never reaches the span itself. */
  predicate InField(opts: GameOptions, cx: int, cy: int) {
    50 <= cx <= opts.width - 51 && 50 <= cy <= opts.height - 51
  }

  /** A field large enough for the margins; the game never checks this. */
  predicate Roomy(opts: GameOptions) {
    opts.width > 100 && opts.height > 100
  }

  /** Math.floor(Math.random() * span): a uniform integer in [0, span) when
      the span is positive, and a value in [span, 0] when it is not. */
  function ScaledDraw(u: real, span: int): (k: int)
    requires 0.0 <= u < 1.0
    ensures span > 0 ==> 0 <= k < span
    ensures span <= 0 ==> span <= k <= 0
  {
    ProductBounds(u, span);
    (u * span as real).Floor
  }

  /** Scaling by a draw in [0, 1) keeps the product between 0 and the span. */
  lemma ProductBounds(u: real, span: int)
    requires 0.0 <= u < 1.0
    ensures span > 0 ==> 0.0 <= u * span as real < span as real
    ensures span <= 0 ==> span as real <= u * span as real <= 0.0
  {
  }

  /** findRandomPosition: a centre with a 50-pixel margin on both axes. */
  function FindRandomPosition(opts: GameOptions, d: Draw): (p: Position)
    requires IsDraw(d)
    ensures opts.width > 100 ==> 50 <= p.cx <= opts.width - 51
    ensures opts.height > 100 ==> 50 <= p.cy <= opts.height - 51
    ensures Roomy(opts) ==> InField(opts, p.cx, p.cy)
  {
    Position(ScaledDraw(d.x, opts.width - 100) + 50, ScaledDraw(d.y, opts.height - 100) + 50)
  }

  /** Every centre of the margin rectangle is produced by some draw, so the
      generator's range is exactly that rectangle. */
  lemma EveryCentreReachable(opts: GameOptions, cx: int, cy: int)
    requires InField(opts, cx, cy)
    ensures exists d :: IsDraw(d) && FindRandomPosition(opts, d) == Position(cx, cy)
  {
    var u := DrawFor(cx - 50, opts.width - 100);
    var v := DrawFor(cy - 50, opts.height - 100);
    assert FindRandomPosition(opts, Draw(u, v)) == Position(cx, cy);
  }

  /** The draw k/span scales back to exactly k. */
  lemma DrawFor(k: int, span: int) returns (u: real)
    requires 0 <= k < span
    ensures 0.0 <= u < 1.0 && ScaledDraw(u, span) == k
  {
    var s := span as real;
    u := k as real / s;
    assert u * s == k as real by { assert s > 0.0; }
    assert u < 1.0 by { assert k as real < s; }
    assert (u * s).Floor == k;
  }

  /** On a field narrower than 100 pixels the margin is not kept: a draw of
      one half puts the centre left of x = 50. */
  lemma NarrowFieldBreaksMargin(opts: GameOptions)
    requires opts.width < 100
    ensures FindRandomPosition(opts, Draw(0.5, 0.0)).cx < 50
  {
  }

  predicate IsEnemyStyle(c: Circle) {
    c.r == 7 && c.stroke == "black" && c.strokeWidth == 1 && c.fill == "black"
  }

  predicate IsPlayerStyle(c: Circle) {
    c.r == 7 && c.stroke == "red" && c.strokeWidth == 1 && c.fill == "blue"
  }

  /** The two circles differ at most in their centres. */
  predicate SameStyle(a: Circle, b: Circle) {
    a.r == b.r && a.stroke == b.stroke && a.strokeWidth == b.strokeWidth && a.fill == b.fill
  }

  /** createEnemy: a black circle of radius 7 at a generated centre. */
  function CreateEnemy(opts: GameOptions, d: Draw): (e: Circle)
    requires IsDraw(d)
    ensures IsEnemyStyle(e) && !IsPlayerStyle(e)
    ensures Position(e.cx, e.cy) == FindRandomPosition(opts, d)
    ensures Roomy(opts) ==> InField(opts, e.cx, e.cy)
  {
    var p := FindRandomPosition(opts, d);
    Circle(p.cx, p.cy, 7, "black", 1, "black")
  }

  /** createPlayer: a blue circle with a red stroke, radius 7, at a generated centre. */
  function CreatePlayer(opts: GameOptions, d: Draw): (p: Circle)
    requires IsDraw(d)
    ensures IsPlayerStyle(p) && !IsEnemyStyle(p)
    ensures Position(p.cx, p.cy) == FindRandomPosition(opts, d)
    ensures Roomy(opts) ==> InField(opts, p.cx, p.cy)
  {
    var c := FindRandomPosition(opts, d);
    Circle(c.cx, c.cy, 7, "red", 1, "blue")
  }

  /** With the game's own options every centre lies in [50, 649] x [50, 399]. */
  lemma DefaultFieldBounds(d: Draw)
    requires IsDraw(d)
    ensures var p := FindRandomPosition(Options, d); 50 <= p.cx <= 649 && 50 <= p.cy <= 399
  {
  }
}
