/** The game controller: the live wave of ships, collision handling, the
    game-over flag, restart and quit. Randomness enters only through explicit
    draw records, one per spawn the frame may need. */
module Games {
  import opened Rects
  import opened Penguins
  import opened Ships

  const HitDamage := 10
  const MinWave := 1
  const MaxWave := 3

  datatype Option<T> = None | Some(value: T)

  /** The draws for one wave. The wave-size draw (1 to 3) is the number of
      ship draws; the ship draws follow it in the order the ships are built. */
  datatype WaveDraw = WaveDraw(ships: seq<ShipDraw>)

  predicate ValidWave(width: ScreenDim, wd: WaveDraw)
  {
    && MinWave <= |wd.ships| <= MaxWave
    && forall i :: 0 <= i < |wd.ships| ==> ValidDraw(width, wd.ships[i])
  }

  /** The draws for the spawns a frame may need: `refill` for an emptied
      wave, `respawn` for the wave that replaces it after a hit. A frame uses
      at most one of them (`GameProperties.RefillFrameHasNoHit`); keeping two
      slots spares threading one draw sequence through the frame. */
  datatype FrameDraws = FrameDraws(refill: WaveDraw, respawn: WaveDraw)

  predicate ValidFrameDraws(width: ScreenDim, fd: FrameDraws)
  {
    ValidWave(width, fd.refill) && ValidWave(width, fd.respawn)
  }

  /** The window events the game reacts to; everything else is `OtherEvent`
      or a key press of `OtherKey`. */
  datatype Key = KeyR | KeyQ | OtherKey
  datatype Event = Quit | KeyDown(key: Key) | OtherEvent

  /** `nextId` is the id the next constructed ship receives. */
  datatype Game = Game(
    width: ScreenDim,
    height: ScreenDim,
    penguin: Penguin,
    ships: seq<Ship>,
    nextId: nat,
    gameOver: bool,
    running: bool)

  // -------------------------------------------------------------- invariant

  predicate IdsIncreasing(ships: seq<Ship>)
  {
    forall i, j :: 0 <= i < j < |ships| ==> ships[i].id < ships[j].id
  }

  /** A live ship: the size and speed range it was built with, still in its
      spawn column, not yet off screen, and built before `nextId` was issued. */
  predicate LiveShip(width: ScreenDim, height: ScreenDim, nextId: nat, s: Ship)
  {
    && s.rect.w == ShipSize && s.rect.h == ShipSize
    && MinSpeed <= s.speed <= MaxSpeed
    && 0 <= s.rect.Left() && s.rect.Right() <= width
    && !IsOffScreen(s, height)
    && s.id < nextId
  }

  /** What holds of every game between frames: the penguin knows the screen
      and has its size, and the wave is a non-empty list of distinct live
      ships. */
  predicate Inv(g: Game)
  {
    && g.penguin.screenWidth == g.width && g.penguin.screenHeight == g.height
    && Sized(g.penguin)
    && |g.ships| >= 1
    && IdsIncreasing(g.ships)
    && forall i :: 0 <= i < |g.ships| ==> LiveShip(g.width, g.height, g.nextId, g.ships[i])
  }

  // ------------------------------------------------------------------- waves

  /** One new ship per draw, with consecutive ids from `firstId`. */
  function MakeWave(width: ScreenDim, draws: seq<ShipDraw>, firstId: nat): (ws: seq<Ship>)
    requires forall i :: 0 <= i < |draws| ==> ValidDraw(width, draws[i])
    ensures |ws| == |draws|
    ensures forall i :: 0 <= i < |ws| ==> ws[i] == NewShip(width, firstId + i, draws[i])
    decreases |draws|
  {
    if |draws| == 0 then []
    else [NewShip(width, firstId, draws[0])] + MakeWave(width, draws[1..], firstId + 1)
  }

  /** `spawn_wave`: the old list is dropped and 1 to 3 newly built ships take
      its place. */
  function SpawnWave(g: Game, wd: WaveDraw): (r: Game)
    requires ValidWave(g.width, wd)
    ensures |r.ships| == |wd.ships| && MinWave <= |r.ships| <= MaxWave
    ensures r.nextId == g.nextId + |r.ships|
    ensures forall i :: 0 <= i < |r.ships| ==> r.ships[i] == NewShip(g.width, g.nextId + i, wd.ships[i])
    ensures forall i :: 0 <= i < |r.ships| ==> g.nextId <= r.ships[i].id
    ensures IdsIncreasing(r.ships)
    ensures forall i :: 0 <= i < |r.ships| ==> LiveShip(r.width, r.height, r.nextId, r.ships[i])
    ensures r.width == g.width && r.height == g.height && r.penguin == g.penguin
    ensures r.gameOver == g.gameOver && r.running == g.running
  {
    var ws := MakeWave(g.width, wd.ships, g.nextId);
    var r := g.(ships := ws, nextId := g.nextId + |ws|);
    assert forall i :: 0 <= i < |ws| ==> LiveShip(r.width, r.height, r.nextId, ws[i]) by {
      forall i | 0 <= i < |ws|
        ensures LiveShip(r.width, r.height, r.nextId, ws[i])
      {
        NewShipOnScreen(g.width, g.height, g.nextId + i, wd.ships[i]);
      }
    }
    r
  }

  /** Every ship advanced one frame, in the same order. */
  function AdvanceAll(ships: seq<Ship>): (ms: seq<Ship>)
    ensures |ms| == |ships|
    ensures forall i :: 0 <= i < |ms| ==> ms[i] == Move(ships[i])
    decreases |ships|
  {
    if |ships| == 0 then [] else [Move(ships[0])] + AdvanceAll(ships[1..])
  }

  /** The ships still on screen, in their original order. */
  function Cull(ships: seq<Ship>, height: int): (cs: seq<Ship>)
    ensures |cs| <= |ships|
    ensures forall s :: s in cs <==> s in ships && !IsOffScreen(s, height)
    ensures IdsIncreasing(ships) ==> IdsIncreasing(cs)
    decreases |ships|
  {
    if |ships| == 0 then []
    else
      var rest := Cull(ships[1..], height);
      if IsOffScreen(ships[0], height) then
        assert forall s :: s in ships[1..] ==> s in ships;
        rest
      else
        assert IdsIncreasing(ships) ==> forall s :: s in rest ==> ships[0].id < s.id by {
          if IdsIncreasing(ships) {
            forall s | s in rest
              ensures ships[0].id < s.id
            {
              var k :| 0 <= k < |ships[1..]| && ships[1..][k] == s;
              assert ships[k + 1] == s;
            }
          }
        }
        [ships[0]] + rest
  }

  /** `update_ships`: advance every ship, drop those now off screen, and if
      none is left spawn a new wave. */
  function UpdateShips(g: Game, wd: WaveDraw): (r: Game)
    requires ValidWave(g.width, wd)
    ensures |r.ships| >= 1
    ensures forall i :: 0 <= i < |r.ships| ==> !IsOffScreen(r.ships[i], g.height)
    ensures (exists t :: t in g.ships && !IsOffScreen(Move(t), g.height)) ==>
      && r.nextId == g.nextId
      && forall s :: s in r.ships <==> exists t :: t in g.ships && s == Move(t) && !IsOffScreen(s, g.height)
    ensures (forall t :: t in g.ships ==> IsOffScreen(Move(t), g.height)) ==>
      && MinWave <= |r.ships| <= MaxWave
      && |r.ships| == |wd.ships|
      && (forall i :: 0 <= i < |r.ships| ==> r.ships[i] == NewShip(g.width, g.nextId + i, wd.ships[i]))
      && forall i :: 0 <= i < |r.ships| ==> g.nextId <= r.ships[i].id
    ensures r.width == g.width && r.height == g.height && r.penguin == g.penguin
    ensures r.gameOver == g.gameOver && r.running == g.running
  {
    var moved := AdvanceAll(g.ships);
    var kept := Cull(moved, g.height);
    assert forall s :: s in moved <==> exists t :: t in g.ships && s == Move(t) by {
      forall s
        ensures s in moved <==> exists t :: t in g.ships && s == Move(t)
      {
        if s in moved {
          var k :| 0 <= k < |moved| && moved[k] == s;
          assert g.ships[k] in g.ships;
        }
        if t :| t in g.ships && s == Move(t) {
          var k :| 0 <= k < |g.ships| && g.ships[k] == t;
          assert moved[k] == s;
        }
      }
    }
    if |kept| == 0 then SpawnWave(g.(ships := kept), wd)
    else
      assert forall i :: 0 <= i < |kept| ==> kept[i] in kept;
      assert exists t :: t in g.ships && !IsOffScreen(Move(t), g.height) by {
        var t :| t in g.ships && kept[0] == Move(t);
      }
      g.(ships := kept)
  }

  /** The index of the first ship, in list order, that overlaps the penguin. */
  function FirstCollision(ships: seq<Ship>, penguinRect: Rect): (k: Option<nat>)
    ensures k.Some? ==>
      && k.value < |ships|
      && CheckCollision(ships[k.value], penguinRect)
      && forall j :: 0 <= j < k.value ==> !CheckCollision(ships[j], penguinRect)
    ensures k.None? ==> forall j :: 0 <= j < |ships| ==> !CheckCollision(ships[j], penguinRect)
    decreases |ships|
  {
    if |ships| == 0 then None
    else if CheckCollision(ships[0], penguinRect) then Some(0)
    else
      match FirstCollision(ships[1..], penguinRect)
      case None => None
      case Some(k) => Some(k + 1)
  }

  /** Some ship of the wave overlaps the penguin. */
  predicate AnyCollision(g: Game)
  {
    exists i :: 0 <= i < |g.ships| && CheckCollision(g.ships[i], g.penguin.rect)
  }

  /** `handle_collisions`: the first overlapping ship costs the penguin 10
      health (once, however many overlap) and the whole wave is replaced; with
      no overlap nothing changes. */
  function HandleCollisions(g: Game, wd: WaveDraw): (r: Game)
    requires ValidWave(g.width, wd)
    ensures AnyCollision(g) ==>
      && r.penguin == TakeDamage(g.penguin, HitDamage)
      && MinWave <= |r.ships| <= MaxWave
      && |r.ships| == |wd.ships|
      && (forall i :: 0 <= i < |r.ships| ==> r.ships[i] == NewShip(g.width, g.nextId + i, wd.ships[i]))
      && forall i :: 0 <= i < |r.ships| ==> g.nextId <= r.ships[i].id
    ensures !AnyCollision(g) ==> r == g
    ensures r.width == g.width && r.height == g.height
    ensures r.gameOver == g.gameOver && r.running == g.running
  {
    match FirstCollision(g.ships, g.penguin.rect)
    case Some(_) => SpawnWave(g.(penguin := TakeDamage(g.penguin, HitDamage)), wd)
    case None => g
  }

  /** `check_game_over`: raises the flag when the penguin is dead; never
      lowers it. */
  function CheckGameOver(g: Game): (r: Game)
    ensures r.gameOver <==> g.gameOver || !IsAlive(g.penguin)
    ensures r.(gameOver := g.gameOver) == g
  {
    if !IsAlive(g.penguin) then g.(gameOver := true) else g
  }

  /** `reset_game`: penguin reset, a new wave, and play resumes. */
  function ResetGame(g: Game, wd: WaveDraw): (r: Game)
    requires ValidWave(g.width, wd)
    ensures !r.gameOver && r.running == g.running
    ensures r.penguin == Reset(g.penguin) && r.penguin.health == StartHealth
    ensures MinWave <= |r.ships| <= MaxWave && |r.ships| == |wd.ships|
    ensures forall i :: 0 <= i < |r.ships| ==> r.ships[i] == NewShip(g.width, g.nextId + i, wd.ships[i])
    ensures forall i :: 0 <= i < |r.ships| ==> g.nextId <= r.ships[i].id
    ensures r.nextId == g.nextId + |r.ships|
    ensures forall i :: 0 <= i < |r.ships| ==> LiveShip(r.width, r.height, r.nextId, r.ships[i])
    ensures r.width == g.width && r.height == g.height
  {
    SpawnWave(g.(penguin := Reset(g.penguin)), wd).(gameOver := false)
  }

  /** The game as `Game.__init__` leaves it: a fresh penguin with 50 health,
      one wave, playing and running. */
  function NewGame(width: ScreenDim, height: ScreenDim, wd: WaveDraw): (g: Game)
    requires ValidWave(width, wd)
    ensures Inv(g)
    ensures g.penguin == NewPenguin(width, height, StartHealth)
    ensures !g.gameOver && g.running
    ensures g.width == width && g.height == height
    ensures MinWave <= |g.ships| <= MaxWave && |g.ships| == |wd.ships|
    ensures forall i :: 0 <= i < |g.ships| ==> g.ships[i] == NewShip(width, i, wd.ships[i])
    ensures g.nextId == |g.ships|
  {
    SpawnWave(Game(width, height, NewPenguin(width, height, StartHealth), [], 0, false, true), wd)
  }

  // ------------------------------------------------------------------ events

  /** One event of `handle_events`: the window's close request always stops
      the game; R and Q act only once the game is over. */
  function HandleEvent(g: Game, e: Event, wd: WaveDraw): (r: Game)
    requires ValidWave(g.width, wd)
    ensures e == Quit ==> !r.running
    ensures !g.gameOver ==> r == g.(running := g.running && e != Quit)
    ensures g.gameOver && e == KeyDown(KeyR) ==> r == ResetGame(g, wd)
    ensures g.gameOver && e == KeyDown(KeyQ) ==> r == g.(running := false)
    ensures r.width == g.width && r.height == g.height
  {
    var g1 := if e == Quit then g.(running := false) else g;
    if g1.gameOver && e.KeyDown? then
      if e.key == KeyR then ResetGame(g1, wd)
      else if e.key == KeyQ then g1.(running := false)
      else g1
    else g1
  }

  /** `handle_events` over one frame's event queue, in order. The restart
      draws serve the (at most one) restart in the queue. */
  function HandleEvents(g: Game, events: seq<Event>, wd: WaveDraw): (r: Game)
    requires ValidWave(g.width, wd)
    ensures r.width == g.width && r.height == g.height
    decreases |events|
  {
    if |events| == 0 then g
    else HandleEvents(HandleEvent(g, events[0], wd), events[1..], wd)
  }

  // ------------------------------------------------------------------ update

  /** The first half of a frame: the penguin follows the arrows, then the
      ships advance, are culled and refilled. */
  function AfterMovement(g: Game, keys: set<Arrow>, fd: FrameDraws): (r: Game)
    requires ValidFrameDraws(g.width, fd)
    ensures r.penguin == HandleInput(g.penguin, keys)
    ensures |r.ships| >= 1
    ensures (exists t :: t in g.ships && !IsOffScreen(Move(t), g.height)) ==>
      && r.nextId == g.nextId
      && forall s :: s in r.ships <==> exists t :: t in g.ships && s == Move(t) && !IsOffScreen(s, g.height)
    ensures (forall t :: t in g.ships ==> IsOffScreen(Move(t), g.height)) ==>
      && MinWave <= |r.ships| <= MaxWave
      && |r.ships| == |fd.refill.ships|
      && (forall i :: 0 <= i < |r.ships| ==> r.ships[i] == NewShip(g.width, g.nextId + i, fd.refill.ships[i]))
      && forall i :: 0 <= i < |r.ships| ==> g.nextId <= r.ships[i].id
    ensures r.width == g.width && r.height == g.height
    ensures r.gameOver == g.gameOver && r.running == g.running
  {
    UpdateShips(g.(penguin := HandleInput(g.penguin, keys)), fd.refill)
  }

  /** A ship overlaps the penguin once both have moved this frame. */
  predicate HitThisFrame(g: Game, keys: set<Arrow>, fd: FrameDraws)
    requires ValidFrameDraws(g.width, fd)
  {
    AnyCollision(AfterMovement(g, keys, fd))
  }

  /** `update`: frozen while the game is over; otherwise input, ships,
      collisions and the game-over check, in that order. */
  function Update(g: Game, keys: set<Arrow>, fd: FrameDraws): (r: Game)
    requires ValidFrameDraws(g.width, fd)
    ensures g.gameOver ==> r == g
    ensures !g.gameOver ==> (r.gameOver <==> r.penguin.health <= 0)
    ensures !g.gameOver && HitThisFrame(g, keys, fd) ==> r.penguin.health == g.penguin.health - HitDamage
    ensures !g.gameOver && !HitThisFrame(g, keys, fd) ==> r.penguin.health == g.penguin.health
    ensures !g.gameOver ==> r.penguin.rect == HandleInput(g.penguin, keys).rect
    ensures !g.gameOver && !HitThisFrame(g, keys, fd) ==> r.ships == AfterMovement(g, keys, fd).ships
    ensures !g.gameOver && HitThisFrame(g, keys, fd) ==>
      && |r.ships| == |fd.respawn.ships|
      && forall i :: 0 <= i < |r.ships| ==>
           r.ships[i] == NewShip(g.width, AfterMovement(g, keys, fd).nextId + i, fd.respawn.ships[i])
    ensures r.running == g.running && r.width == g.width && r.height == g.height
  {
    if g.gameOver then g
    else CheckGameOver(HandleCollisions(AfterMovement(g, keys, fd), fd.respawn))
  }
}
