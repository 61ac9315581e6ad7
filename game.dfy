/** The game component's mutable state and its event handlers: the accelerometer
    listener, the spawn timer's callback, the main-loop tick, the tap handler and
    restart. Each handler is one serialized step; its effect is the matching
    function of `Session` applied to the state before it. */
module App {
  import opened Entities
  import opened Motion
  import opened Collisions
  import Session

  class Game {
    const screen: Screen
    var playerX: real
    var bullets: seq<Entity>
    var enemies: seq<Entity>
    var score: nat
    var gameOver: bool
    // Stands in for the timestamp-and-random identifiers: the next one to hand out.
    var nextId: nat

    function Snapshot(): Session.State
      reads this
    {
      Session.State(playerX, bullets, enemies, score, gameOver)
    }

    ghost predicate Valid()
      reads this
    {
      && PLAYER_WIDTH <= screen.width
      && Session.Inv(screen, Snapshot())
      && AllBelow(Ids(bullets), nextId)
      && AllBelow(Ids(enemies), nextId)
    }

    constructor (screen: Screen)
      requires PLAYER_WIDTH <= screen.width
      ensures Valid()
      ensures this.screen == screen && Snapshot() == Session.Initial(screen)
    {
      this.screen := screen;
      playerX := (screen.width - PLAYER_WIDTH) / 2.0;
      bullets := [];
      enemies := [];
      score := 0;
      gameOver := false;
      nextId := 0;
    }

    /** The accelerometer listener. */
    method OnTilt(tilt: real)
      requires Valid()
      modifies this
      ensures Valid()
      ensures Snapshot() == Session.Tilt(screen, old(Snapshot()), tilt) && nextId == old(nextId)
    {
      if gameOver {
        return;
      }
      var newX := playerX + tilt * TILT_SENSITIVITY;
      playerX := Session.Clamp(newX, screen.width - PLAYER_WIDTH);
    }

    /** The spawn timer's callback; `rand` is the sample of `Math.random()` it draws. */
    method SpawnMeteor(rand: real)
      requires Valid() && 0.0 <= rand < 1.0
      modifies this
      ensures Valid()
      ensures Snapshot() == Session.Spawn(screen, old(Snapshot()), old(nextId), rand)
      ensures nextId == if old(gameOver) then old(nextId) else old(nextId) + 1
    {
      if gameOver {
        return;
      }
      ghost var before := Snapshot();
      var enemy := Entity(nextId, Session.SpawnX(screen, rand), -ENEMY_SIZE);
      Session.SpawnInv(screen, before, nextId, rand);
      assert Ids(enemies + [enemy]) == Ids(enemies) + [nextId];
      enemies := enemies + [enemy];
      nextId := nextId + 1;
    }

    /** A tap: restart when the game is over, fire otherwise. */
    method HandlePress()
      requires Valid()
      modifies this
      ensures Valid()
      ensures Snapshot() == Session.Press(screen, old(Snapshot()), old(nextId))
      ensures nextId == if old(gameOver) then old(nextId) else old(nextId) + 1
    {
      if gameOver {
        RestartGame();
        return;
      }
      ghost var before := Snapshot();
      var bullet := Entity(nextId, playerX + PLAYER_WIDTH / 2.0 - BULLET_WIDTH / 2.0, screen.height - PLAYER_HEIGHT - MUZZLE_OFFSET);
      Session.PressInv(screen, before, nextId);
      assert Ids(bullets + [bullet]) == Ids(bullets) + [nextId];
      bullets := bullets + [bullet];
      nextId := nextId + 1;
    }

    /** Back to the opening state, whatever the state before. */
    method RestartGame()
      requires Valid()
      modifies this
      ensures Valid()
      ensures Snapshot() == Session.Initial(screen) && nextId == old(nextId)
    {
      bullets := [];
      enemies := [];
      score := 0;
      gameOver := false;
      playerX := (screen.width - PLAYER_WIDTH) / 2.0;
    }

    /** One tick of the main loop. */
    method Tick()
      requires Valid()
      modifies this
      ensures Valid()
      ensures Snapshot() == Session.Tick(screen, old(Snapshot())) && nextId == old(nextId)
    {
      if gameOver {
        return;
      }
      ghost var before := Snapshot();
      Session.TickInv(screen, before);
      Session.TickKeepsIdentities(screen, before);
      SubseqAllBelow(Ids(Session.Tick(screen, before).bullets), Ids(bullets), nextId);
      SubseqAllBelow(Ids(Session.Tick(screen, before).enemies), Ids(enemies), nextId);

      var movedBullets := MoveBullets(bullets);
      var movedEnemies := Fall(enemies);

      var grounded := FindGrounded(screen.height, movedEnemies);
      if grounded {
        gameOver := true;
        bullets := [];
        enemies := [];
        return;
      }

      var filteredEnemies := DropPastBottom(screen.height, movedEnemies);
      var remainingBullets, remainingEnemies, hits := ResolveHits(movedBullets, filteredEnemies);

      var struck := FindStrike(screen.height, playerX, remainingEnemies);
      if struck {
        gameOver := true;
        bullets := [];
        enemies := [];
        return;
      }

      bullets := remainingBullets;
      enemies := remainingEnemies;
      score := score + hits;
    }
  }
}
