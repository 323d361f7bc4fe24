# Save the Penguin — a Dafny model of the game simulation

"Save the Penguin" is a one-screen arcade game: the player steers a penguin
with the arrow keys while ships fall from above the top edge. Each time a
ship overlaps the penguin, the penguin loses 10 health and the whole wave of
ships is replaced. When health reaches 0 the game is over. R then restarts
the game and Q quits it.

This project models the simulation in `SaveThePenguin.py` as pure functions
over immutable records:

- `rects.dfy` (`Rects`): the part of pygame's `Rect` the game uses. Edge and
  centre setters move a rectangle without resizing it. `colliderect` is a
  strict, positive-area overlap test.
- `penguins.dfy` (`Penguins`): the `Penguin` class. It covers input, the
  on-screen clamp, damage, `is_alive` and `reset`.
- `ships.dfy` (`Ships`): the `Ship` class. It covers spawning, falling, the
  off-screen test and the collision test.
- `games.dfy` (`Games`): the `Game` controller. It covers wave spawning, ship
  updates, collision handling, the game-over check, restart, event handling
  and the per-frame `update`.
- `game_properties.dfy` (`GameProperties`): properties that span several
  operations. These are the state invariant, the event state machine, and
  the scenario of five hits followed by a restart.

Modelling choices:

- Screen width and height come from the background image in the source.
  Here they are values of the subset type `ScreenDim`, which is at least 50,
  the penguin's size.
- Python's `random.randint` calls become explicit draw records.
  - `ShipDraw(speed, x, y)` holds one ship's three draws, in the order the
    constructor takes them.
  - `WaveDraw(ships)` holds one wave. Its length is the wave-size draw.
  - `FrameDraws(refill, respawn)` holds the draws for the spawns a frame may
    need: the refill of an emptied wave, or the respawn after a hit. A frame
    makes at most one of them (`RefillFrameHasNoHit`). The two slots only
    spare threading one draw sequence through the frame.
  - `ValidDraw` and `ValidWave` state the ranges `randint` guarantees.
- Keyboard polling becomes a `set<Arrow>` of held arrows. The event queue
  becomes a `seq<Event>` of `Quit`, `KeyDown(KeyR | KeyQ | OtherKey)` and
  `OtherEvent`.
- Python object identity becomes a ship `id`. `Game.nextId` is the id the
  next constructed ship gets. So "the new wave keeps none of the old ships"
  becomes "every new id is at least the old `nextId`".
- Python integers are unbounded, and so are Dafny's. `//` by 2 on screen
  sizes and pygame's halving of rectangle sizes agree with Dafny's `/` for
  the values involved.

Some behaviours of the code are easy to misread. The model keeps them as written:

- `reset` does not put the penguin back where the constructor placed it.
  The constructor centres it at `height - 80`, so its bottom edge is at
  `height - 55`. `reset` sets the bottom edge to `height - 40`.
  `ResetIsLowerThanStart` states the 15-pixel difference.
- In a frame, ships are advanced, culled and refilled before collisions are
  checked. A refilled wave lies entirely above the top edge, so it cannot
  hit the penguin in the frame it appears, and a frame spawns at most one
  wave.
- Health has no floor at 0; it can go below 0 before the game-over check.
- A window close request stops the game in any state. R and Q act only
  while the game is over.

## Model

| member | source | states |
|---|---|---|
| Rects.Rect.SetLeft | SaveThePenguin.py:43 | assigning the left edge moves the rectangle to that left edge, keeps its top and never resizes it |
| Rects.Rect.SetRight | SaveThePenguin.py:44 | assigning the right edge moves the rectangle so that its right edge is the value, keeps its top and never resizes it |
| Rects.Rect.SetTop | SaveThePenguin.py:45 | assigning the top edge moves the rectangle to that top edge, keeps its left edge and never resizes it |
| Rects.Rect.SetBottom | SaveThePenguin.py:46 | assigning the bottom edge moves the rectangle so that its bottom edge is the value, keeps its left edge and never resizes it |
| Rects.Rect.SetCenterX | SaveThePenguin.py:63 | assigning the horizontal centre moves the rectangle so that its centre x is the value, keeps its top and never resizes it |
| Rects.Collides | SaveThePenguin.py:115 | `colliderect` holds exactly when the rectangles overlap by a positive amount on both axes |
| Rects.AtCenter | SaveThePenguin.py:17-19 | the rectangle built around a centre has the requested size and its centre exactly at the requested point |
| Rects.CollidesIffPositiveOverlap | SaveThePenguin.py:113-115 | `colliderect` holds exactly when the intersection of the two rectangles has positive area, so touching edges and zero-size rectangles never collide |
| Rects.CollidesSymmetric | SaveThePenguin.py:113-115 | overlap does not depend on which rectangle asks |
| Rects.SameCornerCollides | SaveThePenguin.py:113-115 | two non-degenerate rectangles with the same top-left corner collide |
| Rects.RightOfIsApart | SaveThePenguin.py:113-115 | a rectangle starting at or beyond another's right edge collides with it in neither order |
| Penguins.NewPenguin | SaveThePenguin.py:12-24 | a new penguin is 50x50 with its centre at (width // 2, height - 80), carries the given start health and knows the screen size |
| Penguins.KeepInBounds | SaveThePenguin.py:41-46 | the four edge assignments never resize the penguin; when it fits on the screen, each coordinate is clamped into its on-screen range and the rectangle ends up inside [0,width]x[0,height] |
| Penguins.HandleInput | SaveThePenguin.py:26-46 | each held arrow adds plus or minus 5 on its axis, so opposite arrows cancel, and the result is then clamped; size, health and screen are unchanged and the penguin ends on screen |
| Penguins.HandleInputStaysOnScreen | SaveThePenguin.py:26-46 | whatever arrows are held, a 50x50 penguin stays 50x50 and lies inside the screen afterwards |
| Penguins.KeepInBoundsIdle | SaveThePenguin.py:41-46 | the clamp leaves an on-screen penguin exactly where it is |
| Penguins.NoKeysNoMove | test_entities.py:135-142 | with no arrow held, an on-screen penguin is unchanged |
| Penguins.OppositeArrowsCancel | SaveThePenguin.py:30-33 | holding LEFT and RIGHT together gives the same penguin as holding neither |
| Penguins.UpMovesBySpeed | test_entities.py:123-130 | UP alone, with at least 5 pixels above, lowers y by exactly the speed and leaves x alone |
| Penguins.RightStopsAtEdge | test_entities.py:114-121 | RIGHT from two pixels short of the right edge ends flush with the edge |
| Penguins.TakeDamage | SaveThePenguin.py:52-54 | health drops by exactly the amount, with no floor at 0, and position and screen are untouched |
| Penguins.DamageAdds | SaveThePenguin.py:52-54 | two hits equal one hit of their sum |
| Penguins.AliveAfterDamage | SaveThePenguin.py:52-58 | after a hit of n the penguin is alive exactly when its health was above n |
| Penguins.IsAlive | SaveThePenguin.py:56-58 | the penguin is alive exactly when its health is above 0 (a definition; `AliveAfterDamage` and `DeathAtZero` relate it to damage) |
| Penguins.DeathAtZero | test_entities.py:104-112 | from 50, a hit of 49 leaves 1 and alive; one more point leaves 0 and dead |
| Penguins.Reset | SaveThePenguin.py:60-64 | reset gives health 50, centre x at width // 2 and bottom edge at height - 40, and keeps the size and screen |
| Penguins.ResetForgetsHistory | SaveThePenguin.py:60-64 | two penguins that differ only in health and position reset to the same penguin |
| Penguins.ResetIsLowerThanStart | SaveThePenguin.py:17-64 | reset does not restore the starting place: it leaves a new penguin 15 pixels lower in the same column |
| Penguins.StartAndResetOn800x600 | test_entities.py:97-133 | on 800x600 the penguin starts centred at (400, 520) with bottom 545 and alive; after reset its bottom is 560 |
| Ships.NewShip | SaveThePenguin.py:80-95 | a new ship takes its speed, column and height from the three draws in that order; it is 40x40, falls at 3 to 6 pixels per frame, lies horizontally on screen and entirely above the top edge, with its top between -120 and -40 |
| Ships.NewShipOnScreen | SaveThePenguin.py:90-111 | a newly spawned ship is never off screen |
| Ships.Move | SaveThePenguin.py:97-103 | one frame lowers the ship by exactly its speed; column, size, speed and identity are unchanged |
| Ships.MoveNFalls | SaveThePenguin.py:97-103 | after n frames the ship has fallen exactly n times its speed, keeping column, size, speed and identity |
| Ships.EventuallyOffScreen | SaveThePenguin.py:97-111 | a ship with positive speed is off screen after height - top + 1 frames |
| Ships.OffScreenStays | SaveThePenguin.py:97-111 | an off-screen ship that does not climb stays off screen after moving |
| Ships.OffScreenMissesPenguin | SaveThePenguin.py:109-115 | a ship that is off screen never collides with a penguin that lies inside the screen |
| Ships.IsOffScreen | SaveThePenguin.py:109-111 | a ship is off screen exactly when its top edge is below the screen's bottom edge (a definition; `NewShipOnScreen`, `OffScreenStays` and `EventuallyOffScreen` relate it to spawning and movement) |
| Ships.CheckCollision | SaveThePenguin.py:113-115 | a ship hits the penguin exactly when the intersection of their rectangles has positive area |
| Ships.CornerCollisionAndMiss | test_entities.py:160-166 | a ship on the penguin's top-left corner collides; moved right by the penguin's width + 1 it does not |
| Ships.FixtureShip | test_entities.py:147-158 | the ship drawn as (3, 400, -80) sits at (400, -80), is not off an 800x600 screen, and is at y = -77 after one frame |
| Games.MakeWave | SaveThePenguin.py:174-175 | the i-th ship of a wave is built from the i-th draw with id firstId + i |
| Games.SpawnWave | SaveThePenguin.py:171-175 | the list becomes 1 to 3 ships, one per draw and in draw order; all of them are newly built, have increasing ids, and are live and not off screen; nothing else changes |
| Games.AdvanceAll | SaveThePenguin.py:203-204 | every ship moves one frame, in the same order |
| Games.Cull | SaveThePenguin.py:206-209 | a ship is kept exactly when it is in the list and not off screen; increasing ids stay increasing |
| Games.UpdateShips | SaveThePenguin.py:201-212 | afterwards the list is non-empty and holds no off-screen ship; if a moved ship survives, the list is exactly the moved survivors and nothing is spawned; otherwise it is a fresh wave of 1 to 3, one ship per refill draw |
| Games.FirstCollision | SaveThePenguin.py:195-199 | returns the least index of a ship overlapping the penguin, or none exactly when no ship overlaps |
| Games.HandleCollisions | SaveThePenguin.py:193-199 | on any overlap, health drops by 10 exactly once and the wave is replaced by 1 to 3 new ships, one per draw; with no overlap the game is unchanged |
| Games.CheckGameOver | SaveThePenguin.py:214-217 | the flag becomes set exactly when it was set or the penguin is dead; it is never cleared, and nothing else changes |
| Games.ResetGame | SaveThePenguin.py:233-237 | after restart the game is not over, the penguin is reset to 50 health, and `running` is unchanged; the wave is 1 to 3 ships, one built from each draw in draw order, each live and not off screen, and the id counter has advanced past them |
| Games.NewGame | SaveThePenguin.py:127-160 | the initial game is playing and running on the given screen, the penguin is new with 50 health, the wave is 1 to 3 ships built from the draws in order with ids 0, 1, 2, and the invariant holds |
| Games.HandleEvent | SaveThePenguin.py:239-249 | a close request always stops the game; while playing only that has an effect; once over, R restarts and Q stops |
| Games.HandleEvents | SaveThePenguin.py:239-249 | the queue is handled event by event and never changes the screen size (its behaviour is stated by the GameProperties event lemmas) |
| Games.AfterMovement | SaveThePenguin.py:253-255 | the penguin follows the arrows, then the ships are updated: if a moved ship survives, the wave is exactly the moved survivors and no id is issued; otherwise it is a fresh wave built from the refill draws; either way it is non-empty |
| Games.Update | SaveThePenguin.py:251-257 | a finished game is frozen; otherwise the game is over afterwards exactly when health is 0 or below, health drops by exactly 10 when a ship overlaps after movement and is unchanged when none does, and `running` is untouched; the penguin is where the arrows and the clamp put it; with no hit the ships are those after movement, and after a hit they are a fresh wave built from the respawn draws |
| GameProperties.SpawnWaveKeepsNothing | SaveThePenguin.py:171-175 | no ship of the old list is in the new wave |
| GameProperties.SpawnWaveIgnoresOldShips | SaveThePenguin.py:171-175 | the new wave depends only on the draws and the id counter, not on the old list |
| GameProperties.SpawnWavePreservesInv | SaveThePenguin.py:171-175 | a spawned wave satisfies the game invariant: non-empty, distinct, live ships, none of them off screen |
| GameProperties.UpdateShipsPreservesInv | SaveThePenguin.py:201-212 | advancing, culling and refilling keeps the game invariant |
| GameProperties.HandleCollisionsPreservesInv | SaveThePenguin.py:193-199 | collision handling keeps the game invariant |
| GameProperties.UpdatePreservesInv | SaveThePenguin.py:251-257 | every frame keeps the game invariant |
| GameProperties.RefillFrameHasNoHit | SaveThePenguin.py:193-212 | in a frame whose moved ships have all left the screen, no ship of the refilled wave overlaps the penguin, so the frame spawns only one wave |
| GameProperties.UpdateKeepsPenguinOnScreen | SaveThePenguin.py:251-257 | after a frame of play the penguin lies inside the screen |
| GameProperties.UpdateWaveNeverEmpty | SaveThePenguin.py:201-257 | after any frame the wave is non-empty and holds no off-screen ship |
| GameProperties.EventsWhilePlaying | SaveThePenguin.py:239-249 | while playing, R and Q do nothing; the queue only clears `running` when it contains a close request |
| GameProperties.QuitStops | SaveThePenguin.py:242-243 | a close request anywhere in the queue stops the game |
| GameProperties.StoppedStaysStopped | SaveThePenguin.py:239-249 | no event sets `running` back to true |
| GameProperties.RestartFromGameOver | SaveThePenguin.py:245-247 | once the game is over, an R in the queue ends with the game playing at 50 health |
| GameProperties.GameOverWithoutRestart | SaveThePenguin.py:239-249 | once the game is over and no R arrives, the game is unchanged except that a close request or Q stops it |
| GameProperties.HandleEventsPreservesInv | SaveThePenguin.py:239-249 | event handling, including restart, keeps the game invariant |
| GameProperties.HitFrame | SaveThePenguin.py:251-257 | a frame of play with a hit lowers health by exactly 10 and ends over exactly when health is then 0 or below |
| GameProperties.HealthAlongRun | SaveThePenguin.py:251-257 | along a run of frames that each have a hit, with health above 10(n - 1) at the start, the k-th state has lost exactly 10k health, is still playing before the last frame, and after any frame is over exactly when health is 0 or below |
| GameProperties.HitsWearDown | SaveThePenguin.py:251-257 | when each of n frames has a hit and the penguin survives the first n - 1, health ends exactly 10n lower, play continues through every earlier frame, and the game ends over exactly when health is 0 or below |
| GameProperties.FiveHitsThenRestart | SaveThePenguin.py:193-257 | from 50 health, five frames with hits end the game at 0 health; R then restores 50 health and play |

## Left out

- Image loading, scaling, `convert`/`convert_alpha`, window creation and caption (`SaveThePenguin.py:14-15, 82-83, 129-143`): foreign I/O. The screen size is a parameter instead.
- Drawing: `draw`, `draw_background`, `draw_health` (with its red colour at 20 health or less), `draw_game_over`, fonts and `display.flip`. These are rendering only and change no game state.
- Music and mixer setup, the `run` loop's clock, `pygame.quit` and `sys.exit`: timing and process I/O. The scenario lemmas in `GameProperties` relate a sequence of states by `Update` only to state multi-frame properties.
- pygame's key and event polling: replaced by the held-arrow set and the event sequence.
- Python's global random generator: replaced by explicit draw records. Only the ranges `randint` guarantees are assumed, not its distribution.
- The first of the two initial waves in `Game.__init__` (`SaveThePenguin.py:155-157`): the second wave replaces it at once, so the model spawns one.
- `Penguin.update` and `Ship.update` only delegate to `handle_input` and `move`, so the model uses `HandleInput` and `Move` directly. `get_rect` is the `rect` field.
- pygame stores rectangle coordinates as 32-bit C integers. The model uses unbounded integers, because positions in this game stay far from those limits: ships are removed soon after leaving the screen.
- Games.HandleEvents: its own contract only says that the screen size is kept. Its behaviour is stated by the event lemmas in `GameProperties` rather than in the function's ensures.
