/** Properties of the game controller that span several operations or
    several frames: the state invariant, the event state machine, and the
    play-until-game-over scenario. */
module GameProperties {
  import opened Rects
  import opened Penguins
  import opened Ships
  import opened Games

  // ------------------------------------------------------------------ waves

  /** A new wave keeps none of the ships it replaces: every old ship was built
      before `nextId` was issued, every new one after. */
  lemma SpawnWaveKeepsNothing(g: Game, wd: WaveDraw)
    requires ValidWave(g.width, wd)
    requires forall i :: 0 <= i < |g.ships| ==> g.ships[i].id < g.nextId
    ensures forall s :: s in g.ships ==> s !in SpawnWave(g, wd).ships
  {
  }

  /** The ships of a wave depend only on the draws and the next id, never on
      what was on screen before. */
  lemma SpawnWaveIgnoresOldShips(g: Game, ships: seq<Ship>, wd: WaveDraw)
    requires ValidWave(g.width, wd)
    ensures SpawnWave(g, wd).ships == SpawnWave(g.(ships := ships), wd).ships
  {
  }

  // -------------------------------------------------------------- invariant

  lemma SpawnWavePreservesInv(g: Game, wd: WaveDraw)
    requires ValidWave(g.width, wd)
    requires g.penguin.screenWidth == g.width && g.penguin.screenHeight == g.height
    requires Sized(g.penguin)
    ensures Inv(SpawnWave(g, wd))
  {
  }

  /** Advancing and culling keep the wave valid; an emptied wave is refilled. */
  lemma UpdateShipsPreservesInv(g: Game, wd: WaveDraw)
    requires Inv(g) && ValidWave(g.width, wd)
    ensures Inv(UpdateShips(g, wd))
  {
    var moved := AdvanceAll(g.ships);
    var kept := Cull(moved, g.height);
    if |kept| == 0 {
      SpawnWavePreservesInv(g.(ships := kept), wd);
    } else {
      assert IdsIncreasing(moved) by {
        forall i, j | 0 <= i < j < |moved|
          ensures moved[i].id < moved[j].id
        {
          assert moved[i].id == g.ships[i].id && moved[j].id == g.ships[j].id;
        }
      }
      forall i | 0 <= i < |kept|
        ensures LiveShip(g.width, g.height, g.nextId, kept[i])
      {
        assert kept[i] in kept;
        var k :| 0 <= k < |moved| && moved[k] == kept[i];
        assert LiveShip(g.width, g.height, g.nextId, g.ships[k]);
      }
    }
  }

  lemma HandleCollisionsPreservesInv(g: Game, wd: WaveDraw)
    requires Inv(g) && ValidWave(g.width, wd)
    ensures Inv(HandleCollisions(g, wd))
  {
  }

  /** Every frame keeps the invariant. */
  lemma UpdatePreservesInv(g: Game, keys: set<Arrow>, fd: FrameDraws)
    requires Inv(g) && ValidFrameDraws(g.width, fd)
    ensures Inv(Update(g, keys, fd))
  {
    if !g.gameOver {
      var g1 := g.(penguin := HandleInput(g.penguin, keys));
      UpdateShipsPreservesInv(g1, fd.refill);
      HandleCollisionsPreservesInv(AfterMovement(g, keys, fd), fd.respawn);
    }
  }

  /** A frame that refills an emptied wave cannot also hit: the refilled
      ships lie entirely above the top edge, and the penguin has just been
      clamped below it. So a frame spawns at most one wave. */
  lemma RefillFrameHasNoHit(g: Game, keys: set<Arrow>, fd: FrameDraws)
    requires Inv(g) && ValidFrameDraws(g.width, fd)
    requires forall t :: t in g.ships ==> IsOffScreen(Move(t), g.height)
    ensures !HitThisFrame(g, keys, fd)
  {
    var a := AfterMovement(g, keys, fd);
    HandleInputStaysOnScreen(g.penguin, keys);
    assert 0 <= a.penguin.rect.Top();
    forall i | 0 <= i < |a.ships|
      ensures !CheckCollision(a.ships[i], a.penguin.rect)
    {
      assert a.ships[i].rect.Bottom() <= 0;
    }
  }

  /** After a frame of play the penguin is entirely on screen. */
  lemma UpdateKeepsPenguinOnScreen(g: Game, keys: set<Arrow>, fd: FrameDraws)
    requires Inv(g) && ValidFrameDraws(g.width, fd) && !g.gameOver
    ensures Within(Update(g, keys, fd).penguin.rect, g.width, g.height)
  {
  }

  /** A frame of play never leaves the wave empty or holding an off-screen
      ship. */
  lemma UpdateWaveNeverEmpty(g: Game, keys: set<Arrow>, fd: FrameDraws)
    requires Inv(g) && ValidFrameDraws(g.width, fd)
    ensures |Update(g, keys, fd).ships| >= 1
    ensures forall s :: s in Update(g, keys, fd).ships ==> !IsOffScreen(s, g.height)
  {
    UpdatePreservesInv(g, keys, fd);
  }

  // ------------------------------------------------------------------ events

  /** While playing, R and Q do nothing: the queue only stops the game if it
      holds a close request. */
  lemma {:induction false} EventsWhilePlaying(g: Game, events: seq<Event>, wd: WaveDraw)
    requires ValidWave(g.width, wd) && !g.gameOver
    ensures HandleEvents(g, events, wd) == g.(running := g.running && Quit !in events)
    decreases |events|
  {
    if |events| > 0 {
      var g1 := HandleEvent(g, events[0], wd);
      EventsWhilePlaying(g1, events[1..], wd);
      assert events == [events[0]] + events[1..];
    }
  }

  /** A close request anywhere in the queue stops the game. */
  lemma {:induction false} QuitStops(g: Game, events: seq<Event>, wd: WaveDraw)
    requires ValidWave(g.width, wd) && Quit in events
    ensures !HandleEvents(g, events, wd).running
    decreases |events|
  {
    var g1 := HandleEvent(g, events[0], wd);
    if events[0] == Quit {
      StoppedStaysStopped(g1, events[1..], wd);
    } else {
      QuitStops(g1, events[1..], wd);
    }
  }

  /** Nothing restarts a stopped game loop. */
  lemma {:induction false} StoppedStaysStopped(g: Game, events: seq<Event>, wd: WaveDraw)
    requires ValidWave(g.width, wd) && !g.running
    ensures !HandleEvents(g, events, wd).running
    decreases |events|
  {
    if |events| > 0 {
      StoppedStaysStopped(HandleEvent(g, events[0], wd), events[1..], wd);
    }
  }

  /** Once the game is over, an R in the queue resumes play at full health. */
  lemma {:induction false} RestartFromGameOver(g: Game, events: seq<Event>, wd: WaveDraw)
    requires ValidWave(g.width, wd) && g.gameOver && KeyDown(KeyR) in events
    ensures !HandleEvents(g, events, wd).gameOver
    ensures HandleEvents(g, events, wd).penguin.health == StartHealth
    decreases |events|
  {
    var g1 := HandleEvent(g, events[0], wd);
    if events[0] == KeyDown(KeyR) {
      EventsWhilePlaying(g1, events[1..], wd);
    } else {
      assert g1.gameOver;
      RestartFromGameOver(g1, events[1..], wd);
    }
  }

  /** Once the game is over and no R arrives, the game stays over and
      frozen; a close request or Q stops it. */
  lemma {:induction false} GameOverWithoutRestart(g: Game, events: seq<Event>, wd: WaveDraw)
    requires ValidWave(g.width, wd) && g.gameOver && KeyDown(KeyR) !in events
    ensures HandleEvents(g, events, wd)
         == g.(running := g.running && Quit !in events && KeyDown(KeyQ) !in events)
    decreases |events|
  {
    if |events| > 0 {
      var g1 := HandleEvent(g, events[0], wd);
      GameOverWithoutRestart(g1, events[1..], wd);
      assert events == [events[0]] + events[1..];
    }
  }

  /** Event handling keeps the invariant. */
  lemma {:induction false} HandleEventsPreservesInv(g: Game, events: seq<Event>, wd: WaveDraw)
    requires Inv(g) && ValidWave(g.width, wd)
    ensures Inv(HandleEvents(g, events, wd))
    decreases |events|
  {
    if |events| > 0 {
      var g1 := HandleEvent(g, events[0], wd);
      if g.gameOver && events[0] == KeyDown(KeyR) {
        SpawnWavePreservesInv(g.(penguin := Reset(g.penguin)), wd);
      }
      HandleEventsPreservesInv(g1, events[1..], wd);
    }
  }

  // ---------------------------------------------------------------- scenario

  /** One frame of input: the arrows held and the draws its spawns use. */
  datatype Frame = Frame(keys: set<Arrow>, draws: FrameDraws)

  /** `next` is `g` after frame `f`, and in that frame some ship overlaps the
      penguin once both have moved. */
  predicate HitStep(g: Game, f: Frame, next: Game)
  {
    && ValidFrameDraws(g.width, f.draws)
    && HitThisFrame(g, f.keys, f.draws)
    && next == Update(g, f.keys, f.draws)
  }

  /** A run of frames, each of them a hit: `gs[i + 1]` follows `gs[i]`. */
  predicate HitRun(gs: seq<Game>, frames: seq<Frame>)
  {
    && |gs| == |frames| + 1
    && forall i {:trigger frames[i]} :: 0 <= i < |frames| ==> HitStep(gs[i], frames[i], gs[i + 1])
  }

  /** One frame of play with a hit. */
  lemma HitFrame(g: Game, keys: set<Arrow>, fd: FrameDraws)
    requires ValidFrameDraws(g.width, fd) && !g.gameOver && HitThisFrame(g, keys, fd)
    ensures Update(g, keys, fd).penguin.health == g.penguin.health - HitDamage
    ensures Update(g, keys, fd).gameOver <==> Update(g, keys, fd).penguin.health <= 0
  {
  }

  /** One step of a run of hits, stated on the step alone. */
  lemma HitStepCosts(g: Game, f: Frame, next: Game)
    requires HitStep(g, f, next) && !g.gameOver
    ensures next.penguin.health == g.penguin.health - HitDamage
    ensures next.gameOver <==> next.penguin.health <= 0
  {
    HitFrame(g, f.keys, f.draws);
  }

  /** Along a run of hits that the penguin survives until the last frame,
      state k has lost exactly 10k health and is still playing before the end. */
  lemma {:induction false} HealthAlongRun(gs: seq<Game>, frames: seq<Frame>, k: nat)
    requires HitRun(gs, frames) && k <= |frames|
    requires !gs[0].gameOver && gs[0].penguin.health > HitDamage * (|frames| - 1)
    ensures gs[k].penguin.health == gs[0].penguin.health - HitDamage * k
    ensures k < |frames| ==> !gs[k].gameOver
    ensures k > 0 ==> (gs[k].gameOver <==> gs[k].penguin.health <= 0)
    decreases k
  {
    if k > 0 {
      HealthAlongRun(gs, frames, k - 1);
      HitStepCosts(gs[k - 1], frames[k - 1], gs[k]);
    }
  }

  /** Each hit costs exactly 10 health, play continues through every frame
      but the last, and the game is over at the end exactly when health is 0
      or below. */
  lemma HitsWearDown(gs: seq<Game>, frames: seq<Frame>)
    requires HitRun(gs, frames) && |frames| >= 1
    requires !gs[0].gameOver && gs[0].penguin.health > HitDamage * (|frames| - 1)
    ensures gs[|frames|].penguin.health == gs[0].penguin.health - HitDamage * |frames|
    ensures gs[|frames|].gameOver <==> gs[|frames|].penguin.health <= 0
    ensures forall i :: 0 <= i < |frames| ==> !gs[i].gameOver
  {
    HealthAlongRun(gs, frames, |frames|);
    forall i | 0 <= i < |frames|
      ensures !gs[i].gameOver
    {
      HealthAlongRun(gs, frames, i);
    }
  }

  /** From full health, five frames with hits end the game at exactly 0
      health, and pressing R then restores 50 health and resumes play. */
  lemma FiveHitsThenRestart(gs: seq<Game>, frames: seq<Frame>, wd: WaveDraw)
    requires HitRun(gs, frames) && |frames| == 5
    requires !gs[0].gameOver && gs[0].penguin.health == StartHealth
    requires ValidWave(gs[5].width, wd)
    ensures gs[5].penguin.health == 0 && gs[5].gameOver
    ensures HandleEvents(gs[5], [KeyDown(KeyR)], wd).penguin.health == StartHealth
    ensures !HandleEvents(gs[5], [KeyDown(KeyR)], wd).gameOver
  {
    HitsWearDown(gs, frames);
    RestartFromGameOver(gs[5], [KeyDown(KeyR)], wd);
  }
}
