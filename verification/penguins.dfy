/** The player's penguin: a 50x50 rectangle steered by the arrow keys, kept on
    screen by a hard clamp, with an integer health that damage lowers. */
module Penguins {
  import opened Rects

  const PenguinSize: nat := 50
  const Speed := 5
  const StartHealth := 50
  /** The constructor centres the penguin this far above the bottom edge. */
  const StartCenterLift := 80
  /** `reset` puts the penguin's bottom edge this far above the bottom edge. */
  const ResetBottomLift := 40

  /** Screen dimensions; every screen is at least as large as the penguin. */
  type ScreenDim = n: int | n >= PenguinSize witness PenguinSize

  /** The arrow keys the penguin listens to. */
  datatype Arrow = LeftArrow | RightArrow | UpArrow | DownArrow

  datatype Penguin = Penguin(rect: Rect, health: int, screenWidth: ScreenDim, screenHeight: ScreenDim)

  /** A freshly built penguin: centred horizontally, centre 80 pixels above the
      bottom of the screen. */
  function NewPenguin(width: ScreenDim, height: ScreenDim, startHealth: int): (p: Penguin)
    ensures p.rect.w == PenguinSize && p.rect.h == PenguinSize
    ensures p.rect.CenterX() == width / 2 && p.rect.CenterY() == height - StartCenterLift
    ensures p.health == startHealth
    ensures p.screenWidth == width && p.screenHeight == height
  {
    Penguin(AtCenter(PenguinSize, PenguinSize, width / 2, height - StartCenterLift), startHealth, width, height)
  }

  /** Signed horizontal and vertical step for a set of pressed arrows:
      opposite arrows cancel. */
  function StepX(keys: set<Arrow>): int
  {
    (if RightArrow in keys then Speed else 0) - (if LeftArrow in keys then Speed else 0)
  }

  function StepY(keys: set<Arrow>): int
  {
    (if DownArrow in keys then Speed else 0) - (if UpArrow in keys then Speed else 0)
  }

  /** The four edge assignments of `keep_in_bounds`, in order. For a penguin
      no larger than the screen this is a clamp of each coordinate. */
  function KeepInBounds(p: Penguin): (q: Penguin)
    ensures q.rect.w == p.rect.w && q.rect.h == p.rect.h
    ensures q.health == p.health
    ensures q.screenWidth == p.screenWidth && q.screenHeight == p.screenHeight
    ensures p.rect.w <= p.screenWidth ==> q.rect.x == Clamp(p.rect.x, 0, p.screenWidth - p.rect.w)
    ensures p.rect.h <= p.screenHeight ==> q.rect.y == Clamp(p.rect.y, 0, p.screenHeight - p.rect.h)
    ensures p.rect.w <= p.screenWidth && p.rect.h <= p.screenHeight ==> Within(q.rect, p.screenWidth, p.screenHeight)
  {
    var r1 := p.rect.SetLeft(Max(0, p.rect.Left()));
    var r2 := r1.SetRight(Min(p.screenWidth, r1.Right()));
    var r3 := r2.SetTop(Max(0, r2.Top()));
    var r4 := r3.SetBottom(Min(p.screenHeight, r3.Bottom()));
    p.(rect := r4)
  }

  /** `handle_input`: one `speed` step per pressed arrow, in the order left,
      right, up, down, then the clamp. `Penguin.update` is exactly this. */
  function HandleInput(p: Penguin, keys: set<Arrow>): (q: Penguin)
    ensures q.rect.w == p.rect.w && q.rect.h == p.rect.h
    ensures q.health == p.health
    ensures q.screenWidth == p.screenWidth && q.screenHeight == p.screenHeight
    ensures p.rect.w <= p.screenWidth ==> q.rect.x == Clamp(p.rect.x + StepX(keys), 0, p.screenWidth - p.rect.w)
    ensures p.rect.h <= p.screenHeight ==> q.rect.y == Clamp(p.rect.y + StepY(keys), 0, p.screenHeight - p.rect.h)
    ensures p.rect.w <= p.screenWidth && p.rect.h <= p.screenHeight ==> Within(q.rect, p.screenWidth, p.screenHeight)
  {
    var r1 := if LeftArrow in keys then p.rect.Shift(-Speed, 0) else p.rect;
    var r2 := if RightArrow in keys then r1.Shift(Speed, 0) else r1;
    var r3 := if UpArrow in keys then r2.Shift(0, -Speed) else r2;
    var r4 := if DownArrow in keys then r3.Shift(0, Speed) else r3;
    KeepInBounds(p.(rect := r4))
  }

  /** `take_damage`: health drops by exactly `amount`, with no floor. */
  function TakeDamage(p: Penguin, amount: int): (q: Penguin)
    ensures p.health - q.health == amount
    ensures q.rect == p.rect
    ensures q.screenWidth == p.screenWidth && q.screenHeight == p.screenHeight
  {
    p.(health := p.health - amount)
  }

  predicate IsAlive(p: Penguin)
  {
    p.health > 0
  }

  /** `reset`: full health, centred horizontally, bottom edge 40 pixels above
      the bottom of the screen, whatever came before. */
  function Reset(p: Penguin): (q: Penguin)
    ensures q.health == StartHealth
    ensures q.rect.CenterX() == p.screenWidth / 2
    ensures q.rect.Bottom() == p.screenHeight - ResetBottomLift
    ensures q.rect.w == p.rect.w && q.rect.h == p.rect.h
    ensures q.screenWidth == p.screenWidth && q.screenHeight == p.screenHeight
  {
    var r := p.rect.SetCenterX(p.screenWidth / 2).SetBottom(p.screenHeight - ResetBottomLift);
    p.(health := StartHealth, rect := r)
  }

  /** A penguin the size the game uses. */
  predicate Sized(p: Penguin)
  {
    p.rect.w == PenguinSize && p.rect.h == PenguinSize
  }

  // ---------------------------------------------------------------- movement

  /** After any input the penguin is entirely on screen and keeps its size. */
  lemma HandleInputStaysOnScreen(p: Penguin, keys: set<Arrow>)
    requires Sized(p)
    ensures Sized(HandleInput(p, keys))
    ensures Within(HandleInput(p, keys).rect, p.screenWidth, p.screenHeight)
  {
  }

  /** The clamp leaves an on-screen penguin where it is. */
  lemma KeepInBoundsIdle(p: Penguin)
    requires Within(p.rect, p.screenWidth, p.screenHeight)
    ensures KeepInBounds(p) == p
  {
  }

  /** With no arrow held, an on-screen penguin does not move. */
  lemma NoKeysNoMove(p: Penguin)
    requires Within(p.rect, p.screenWidth, p.screenHeight)
    ensures HandleInput(p, {}) == p
  {
  }

  /** Holding both arrows of one axis is the same as holding neither. */
  lemma OppositeArrowsCancel(p: Penguin, keys: set<Arrow>)
    requires LeftArrow in keys && RightArrow in keys
    ensures HandleInput(p, keys) == HandleInput(p, keys - {LeftArrow, RightArrow})
  {
  }

  /** UP alone, with room above, moves the penguin up by exactly `speed` and
      nowhere else. */
  lemma UpMovesBySpeed(p: Penguin)
    requires Within(p.rect, p.screenWidth, p.screenHeight)
    requires p.rect.Top() >= Speed
    ensures HandleInput(p, {UpArrow}).rect.y == p.rect.y - Speed
    ensures HandleInput(p, {UpArrow}).rect.x == p.rect.x
  {
  }

  /** RIGHT two pixels short of the right edge ends flush with the edge. */
  lemma RightStopsAtEdge(p: Penguin)
    requires Within(p.rect, p.screenWidth, p.screenHeight)
    requires p.rect.Right() == p.screenWidth - 2
    ensures HandleInput(p, {RightArrow}).rect.Right() == p.screenWidth
  {
  }

  // ------------------------------------------------------------------ health

  /** Damage adds up: two hits are one hit of the sum. */
  lemma DamageAdds(p: Penguin, a: int, b: int)
    ensures TakeDamage(TakeDamage(p, a), b) == TakeDamage(p, a + b)
  {
  }

  /** After a hit of `amount` the penguin is alive exactly when its health
      was above `amount`. */
  lemma AliveAfterDamage(p: Penguin, amount: int)
    ensures IsAlive(TakeDamage(p, amount)) <==> p.health > amount
  {
  }

  /** From 50, a hit of 49 leaves 1 and the penguin alive; one more point
      leaves 0 and it is dead. */
  lemma DeathAtZero(p: Penguin)
    requires p.health == StartHealth
    ensures TakeDamage(p, 49).health == 1 && IsAlive(TakeDamage(p, 49))
    ensures TakeDamage(TakeDamage(p, 49), 1).health == 0 && !IsAlive(TakeDamage(TakeDamage(p, 49), 1))
  {
  }

  // ------------------------------------------------------------------- reset

  /** Reset forgets health and position: two penguins on the same screen with
      the same size reset to the same penguin. */
  lemma ResetForgetsHistory(p: Penguin, q: Penguin)
    requires p.screenWidth == q.screenWidth && p.screenHeight == q.screenHeight
    requires p.rect.w == q.rect.w && p.rect.h == q.rect.h
    ensures Reset(p) == Reset(q)
  {
  }

  /** Reset is not a return to the start: it leaves the penguin 15 pixels
      lower than the constructor placed it. */
  lemma ResetIsLowerThanStart(width: ScreenDim, height: ScreenDim, health: int)
    ensures Reset(NewPenguin(width, height, health)).rect.Bottom()
         == NewPenguin(width, height, health).rect.Bottom() + 15
    ensures Reset(NewPenguin(width, height, health)).rect.x == NewPenguin(width, height, health).rect.x
  {
  }

  /** The 800x600 numbers: the penguin starts centred at (400, 520) with full
      health and its bottom at 545; after reset its bottom is at 560. */
  lemma StartAndResetOn800x600()
    ensures NewPenguin(800, 600, StartHealth).rect.CenterX() == 400
    ensures NewPenguin(800, 600, StartHealth).rect.CenterY() == 520
    ensures NewPenguin(800, 600, StartHealth).rect.Bottom() == 545
    ensures IsAlive(NewPenguin(800, 600, StartHealth))
    ensures Reset(NewPenguin(800, 600, StartHealth)).rect.Bottom() == 560
  {
  }
}
