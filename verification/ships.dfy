/** The falling ships: 40x40 rectangles that appear above the top edge at a
    random column and drift straight down at a random, fixed speed. */
module Ships {
  import opened Rects
  import opened Penguins

  const ShipSize: nat := 40
  const MinSpeed := 3
  const MaxSpeed := 6
  const MinSpawnY := -120
  const MaxSpawnY := -40

  /** The three random draws that make a ship, in the order the constructor
      takes them: speed, then column, then height. */
  datatype ShipDraw = ShipDraw(speed: int, x: int, y: int)

  /** The ranges `randint` guarantees for each draw on a screen `width` wide. */
  predicate ValidDraw(width: ScreenDim, d: ShipDraw)
  {
    && MinSpeed <= d.speed <= MaxSpeed
    && 0 <= d.x <= width - ShipSize
    && MinSpawnY <= d.y <= MaxSpawnY
  }

  /** `id` stands for the identity of the ship object: two ships with
      different ids are different objects even if they sit at the same place. */
  datatype Ship = Ship(id: nat, rect: Rect, speed: int)

  /** A ship as its constructor and `spawn` leave it: horizontally on screen,
      entirely above the top edge, falling at 3 to 6 pixels per frame. */
  function NewShip(width: ScreenDim, id: nat, d: ShipDraw): (s: Ship)
    requires ValidDraw(width, d)
    ensures s.id == id
    ensures s.speed == d.speed && s.rect.x == d.x && s.rect.y == d.y
    ensures s.rect.w == ShipSize && s.rect.h == ShipSize
    ensures MinSpeed <= s.speed <= MaxSpeed
    ensures 0 <= s.rect.Left() && s.rect.Right() <= width
    ensures MinSpawnY <= s.rect.Top() && s.rect.Bottom() <= 0
  {
    Ship(id, Rect(d.x, d.y, ShipSize, ShipSize), d.speed)
  }

  /** `move` (and `update`): the ship falls by its own speed, nothing else
      about it changes. */
  function Move(s: Ship): (t: Ship)
    ensures t.rect.Top() - s.rect.Top() == s.speed
    ensures t.rect.x == s.rect.x && t.rect.w == s.rect.w && t.rect.h == s.rect.h
    ensures t.speed == s.speed && t.id == s.id
  {
    s.(rect := s.rect.Shift(0, s.speed))
  }

  /** Off screen once the top edge is below the bottom of the screen. */
  predicate IsOffScreen(s: Ship, height: int)
  {
    s.rect.Top() > height
  }

  /** `check_collision`: the ship's rectangle and the penguin's overlap in a
      region of positive area. */
  predicate CheckCollision(s: Ship, penguinRect: Rect): (c: bool)
    ensures c <==> OverlapArea(s.rect, penguinRect) > 0
  {
    CollidesIffPositiveOverlap(s.rect, penguinRect);
    Collides(s.rect, penguinRect)
  }

  /** A ship advanced `n` frames. */
  function MoveN(s: Ship, n: nat): Ship
  {
    if n == 0 then s else Move(MoveN(s, n - 1))
  }

  // ----------------------------------------------------------------- lemmas

  /** A new ship is never off screen. */
  lemma NewShipOnScreen(width: ScreenDim, height: ScreenDim, id: nat, d: ShipDraw)
    requires ValidDraw(width, d)
    ensures !IsOffScreen(NewShip(width, id, d), height)
  {
  }

  /** After `n` frames the ship has fallen exactly `n` times its speed and
      kept its column, size, speed and identity. */
  lemma {:induction false} MoveNFalls(s: Ship, n: nat)
    ensures MoveN(s, n).rect.y == s.rect.y + n * s.speed
    ensures MoveN(s, n).rect.x == s.rect.x
    ensures MoveN(s, n).rect.w == s.rect.w && MoveN(s, n).rect.h == s.rect.h
    ensures MoveN(s, n).speed == s.speed && MoveN(s, n).id == s.id
  {
    if n > 0 {
      MoveNFalls(s, n - 1);
      assert n * s.speed == (n - 1) * s.speed + s.speed;
    }
  }

  /** Every ship with a positive speed leaves the screen: after
      `height - top + 1` frames its top is below the bottom edge. */
  lemma EventuallyOffScreen(s: Ship, height: int)
    requires s.speed >= 1 && s.rect.Top() <= height
    ensures IsOffScreen(MoveN(s, height - s.rect.Top() + 1), height)
  {
    var n: nat := height - s.rect.Top() + 1;
    MoveNFalls(s, n);
    assert n * s.speed >= n;
  }

  /** Once off screen, a ship that does not climb stays off screen. */
  lemma OffScreenStays(s: Ship, height: int)
    requires s.speed >= 0 && IsOffScreen(s, height)
    ensures IsOffScreen(Move(s), height)
  {
  }

  /** A ship that has left the screen cannot hit a penguin that is on it. */
  lemma OffScreenMissesPenguin(s: Ship, p: Penguin)
    requires IsOffScreen(s, p.screenHeight)
    requires Within(p.rect, p.screenWidth, p.screenHeight)
    ensures !CheckCollision(s, p.rect)
  {
  }

  /** A ship moved onto the penguin's top-left corner collides with it;
      moved one pixel beyond the penguin's width to the right it does not. */
  lemma CornerCollisionAndMiss(s: Ship, p: Penguin)
    requires s.rect.w == ShipSize && s.rect.h == ShipSize && Sized(p)
    ensures CheckCollision(s.(rect := s.rect.(x := p.rect.x, y := p.rect.y)), p.rect)
    ensures !CheckCollision(s.(rect := s.rect.(x := p.rect.x + p.rect.w + 1, y := p.rect.y)), p.rect)
  {
  }

  /** The fixture ship of speed 3 at (400, -80) on an 800-wide screen is on
      screen for height 600 and is at -77 after one frame. */
  lemma FixtureShip()
    ensures NewShip(800, 0, ShipDraw(3, 400, -80)).rect.x == 400
    ensures NewShip(800, 0, ShipDraw(3, 400, -80)).rect.y == -80
    ensures !IsOffScreen(NewShip(800, 0, ShipDraw(3, 400, -80)), 600)
    ensures Move(NewShip(800, 0, ShipDraw(3, 400, -80))).rect.y == -77
  {
  }
}
