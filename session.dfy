/** The game session as a value: the cannon's position, the bullets and meteors on
    screen, the score and the game-over flag, and one function per event that can
    change them (a tilt sample, a meteor spawn, a tap, a restart, a tick). */
module Session {
  import opened Entities
  import opened Sequences
  import opened Motion
  import opened Collisions

  datatype State = State(playerX: real, bullets: seq<Entity>, enemies: seq<Entity>, score: nat, gameOver: bool)

  /** The session at start and after a restart: cannon centred, nothing on screen, score 0. */
  function Initial(screen: Screen): (s: State)
    ensures s.bullets == [] && s.enemies == [] && s.score == 0 && !s.gameOver
    ensures s.playerX + PLAYER_WIDTH / 2.0 == screen.width / 2.0
  {
    State((screen.width - PLAYER_WIDTH) / 2.0, [], [], 0, false)
  }

  /** `Math.max(0, Math.min(v, hi))`. */
  function Clamp(v: real, hi: real): (r: real)
    ensures 0.0 <= r
    ensures 0.0 <= hi ==> r <= hi
    ensures 0.0 <= v <= hi ==> r == v
    ensures r == v || r == 0.0 || r == hi
    ensures v < 0.0 ==> r == 0.0
    ensures 0.0 <= hi <= v ==> r == hi
  {
    var m := if v < hi then v else hi;
    if m < 0.0 then 0.0 else m
  }

  /** A tilt sample moves the cannon by the scaled tilt, kept on screen; ignored once
      the game is over. */
  function Tilt(screen: Screen, s: State, tilt: real): (t: State)
    ensures s.gameOver ==> t == s
    ensures t == s.(playerX := t.playerX)
    ensures !s.gameOver ==> 0.0 <= t.playerX && (PLAYER_WIDTH <= screen.width ==> t.playerX <= MaxPlayerX(screen))
    ensures !s.gameOver && 0.0 <= s.playerX + tilt * TILT_SENSITIVITY <= MaxPlayerX(screen)
      ==> t.playerX == s.playerX + tilt * TILT_SENSITIVITY
    ensures !s.gameOver && s.playerX + tilt * TILT_SENSITIVITY < 0.0 ==> t.playerX == 0.0
    ensures !s.gameOver && PLAYER_WIDTH <= screen.width && MaxPlayerX(screen) <= s.playerX + tilt * TILT_SENSITIVITY
      ==> t.playerX == MaxPlayerX(screen)
  {
    if s.gameOver then s
    else s.(playerX := Clamp(s.playerX + tilt * TILT_SENSITIVITY, MaxPlayerX(screen)))
  }

  /** The horizontal position of a new meteor for a sample `rand` of `Math.random()`:
      anywhere from the left edge to where the meteor just touches the right edge. */
  function SpawnX(screen: Screen, rand: real): (x: real)
    requires 0.0 <= rand < 1.0
    ensures ENEMY_SIZE <= screen.width ==> 0.0 <= x <= screen.width - ENEMY_SIZE
    ensures ENEMY_SIZE < screen.width ==> x < screen.width - ENEMY_SIZE
  {
    var d := screen.width - ENEMY_SIZE;
    assert 0.0 <= d ==> 0.0 <= rand * d <= d && (0.0 < d ==> rand * d < d) by {
      if 0.0 <= d {
        assert d - rand * d == (1.0 - rand) * d;
      }
    }
    rand * d
  }

  /** A meteor spawn appends one meteor just above the top edge; nothing spawns once
      the game is over. */
  function Spawn(screen: Screen, s: State, id: nat, rand: real): (t: State)
    requires 0.0 <= rand < 1.0
    ensures s.gameOver ==> t == s
    ensures t == s.(enemies := t.enemies)
    ensures !s.gameOver ==> |t.enemies| == |s.enemies| + 1 && t.enemies[..|s.enemies|] == s.enemies
    ensures !s.gameOver ==> var e := t.enemies[|s.enemies|];
      && e.id == id
      && e.y == -ENEMY_SIZE
      && (ENEMY_SIZE <= screen.width ==> 0.0 <= e.x <= screen.width - ENEMY_SIZE)
  {
    if s.gameOver then s
    else s.(enemies := s.enemies + [Entity(id, SpawnX(screen, rand), -ENEMY_SIZE)])
  }

  /** Firing appends one bullet, centred on the cannon, just above it. */
  function Fire(screen: Screen, s: State, id: nat): (t: State)
    ensures t == s.(bullets := t.bullets)
    ensures |t.bullets| == |s.bullets| + 1 && t.bullets[..|s.bullets|] == s.bullets
    ensures var b := t.bullets[|s.bullets|];
      && b.id == id
      && b.x + BULLET_WIDTH / 2.0 == s.playerX + PLAYER_WIDTH / 2.0
      && b.y == screen.height - PLAYER_HEIGHT - MUZZLE_OFFSET
  {
    var b := Entity(id, s.playerX + PLAYER_WIDTH / 2.0 - BULLET_WIDTH / 2.0, screen.height - PLAYER_HEIGHT - MUZZLE_OFFSET);
    s.(bullets := s.bullets + [b])
  }

  /** A tap restarts a finished game and fires in a running one. */
  function Press(screen: Screen, s: State, id: nat): (t: State)
    ensures s.gameOver ==> t == Initial(screen)
    ensures !s.gameOver ==> t == Fire(screen, s, id)
  {
    if s.gameOver then Initial(screen) else Fire(screen, s, id)
  }

  /** The session after a terminal tick: flagged over, both lists cleared. */
  function Ended(s: State): State {
    s.(bullets := [], enemies := [], gameOver := true)
  }

  /** One tick of the main loop. Its phase-by-phase outcome is stated by the `Tick*`
      lemmas below. */
  function Tick(screen: Screen, s: State): (t: State)
    ensures s.gameOver ==> t == s
    ensures !s.gameOver && t.gameOver ==> t.bullets == [] && t.enemies == []
    ensures t.playerX == s.playerX && t.score >= s.score
  {
    if s.gameOver then s
    else
      var movedBullets := MoveBullets(s.bullets);
      var movedEnemies := Fall(s.enemies);
      if AnyGrounded(screen.height, movedEnemies) then Ended(s)
      else
        var r := Scan(movedBullets, DropPastBottom(screen.height, movedEnemies));
        if AnyStrike(screen.height, s.playerX, r.remaining) then Ended(s)
        else State(s.playerX, r.survivors, r.remaining, s.score + r.hits, false)
  }

  /** What the bullet scan of a running tick yields, the off-screen filter being a no-op there. */
  function TickScan(s: State): Resolution {
    Scan(MoveBullets(s.bullets), Fall(s.enemies))
  }

  /** No tick runs while the game is over. */
  lemma TickWhileOver(screen: Screen, s: State)
    requires s.gameOver
    ensures Tick(screen, s) == s
  {
  }

  /** A meteor reaching the ground ends the game: both lists are emptied, the score
      and the cannon stay as they were. */
  lemma TickGroundReached(screen: Screen, s: State)
    requires !s.gameOver && AnyGrounded(screen.height, Fall(s.enemies))
    ensures Tick(screen, s) == s.(bullets := [], enemies := [], gameOver := true)
  {
  }

  /** A meteor left after the bullet scan that overlaps the cannon ends the game. */
  lemma TickPlayerStruck(screen: Screen, s: State)
    requires !s.gameOver && !AnyGrounded(screen.height, Fall(s.enemies))
    requires AnyStrike(screen.height, s.playerX, TickScan(s).remaining)
    ensures Tick(screen, s) == s.(bullets := [], enemies := [], gameOver := true)
  {
    DropPastBottomAfterGroundCheck(screen.height, Fall(s.enemies));
  }

  /** A tick that ends in neither way commits what the scan left and adds its hits to
      the score. */
  lemma TickCommits(screen: Screen, s: State)
    requires !s.gameOver && !AnyGrounded(screen.height, Fall(s.enemies))
    requires !AnyStrike(screen.height, s.playerX, TickScan(s).remaining)
    ensures !Tick(screen, s).gameOver && Tick(screen, s).playerX == s.playerX
    ensures Tick(screen, s).bullets == TickScan(s).survivors
    ensures Tick(screen, s).enemies == TickScan(s).remaining
    ensures Tick(screen, s).score == s.score + TickScan(s).hits
  {
    DropPastBottomAfterGroundCheck(screen.height, Fall(s.enemies));
  }

  /** The score never decreases; on a tick that commits, it grows by exactly the number
      of bullets and, equally, of meteors that disappeared in collisions. */
  lemma TickScore(screen: Screen, s: State)
    ensures Tick(screen, s).score >= s.score
    ensures var t := Tick(screen, s);
      !s.gameOver && !t.gameOver ==>
        && t.score == s.score + TickScan(s).hits
        && |t.bullets| + (t.score - s.score) == |MoveBullets(s.bullets)|
        && |t.enemies| + (t.score - s.score) == |s.enemies|
  {
    if !s.gameOver && !AnyGrounded(screen.height, Fall(s.enemies)) {
      DropPastBottomAfterGroundCheck(screen.height, Fall(s.enemies));
      ScanConserves(MoveBullets(s.bullets), Fall(s.enemies));
    }
  }

  /** After any tick no bullet on screen overlaps a meteor on screen. */
  lemma TickLeavesNoOverlap(screen: Screen, s: State)
    requires !s.gameOver
    ensures var t := Tick(screen, s);
      forall b, e :: b in t.bullets && e in t.enemies ==> !Collides(b, e)
  {
    if !AnyGrounded(screen.height, Fall(s.enemies)) {
      DropPastBottomAfterGroundCheck(screen.height, Fall(s.enemies));
      ScanLeavesNoOverlap(MoveBullets(s.bullets), Fall(s.enemies));
    }
  }

  /** A tick never creates, reorders or duplicates an entity: the identifiers left in
      each list are a subsequence of those before, and the cannon does not move. */
  lemma TickKeepsIdentities(screen: Screen, s: State)
    ensures var t := Tick(screen, s);
      && Subseq(Ids(t.bullets), Ids(s.bullets))
      && Subseq(Ids(t.enemies), Ids(s.enemies))
      && t.playerX == s.playerX
  {
    var t := Tick(screen, s);
    if s.gameOver {
      SubseqRefl(Ids(s.bullets));
      SubseqRefl(Ids(s.enemies));
    } else if t.gameOver {
      assert t.bullets == [] && t.enemies == [];
    } else {
      var moved := MoveBullets(s.bullets);
      var fallen := Fall(s.enemies);
      DropPastBottomAfterGroundCheck(screen.height, fallen);
      ScanKeepsOrder(moved, fallen);
      SubseqTrans(t.bullets, moved, Rise(s.bullets));
      SubseqIds(t.bullets, Rise(s.bullets));
      SubseqIds(t.enemies, fallen);
      MovingKeepsIds(s.bullets);
      MovingKeepsIds(s.enemies);
    }
  }

  /** What holds of every reachable session: the cannon is on screen, no identifier
      occurs twice in a list, and a finished game shows nothing. */
  predicate Inv(screen: Screen, s: State) {
    && 0.0 <= s.playerX <= MaxPlayerX(screen)
    && NoDuplicates(Ids(s.bullets))
    && NoDuplicates(Ids(s.enemies))
    && (s.gameOver ==> s.bullets == [] && s.enemies == [])
  }

  lemma InitialInv(screen: Screen)
    requires PLAYER_WIDTH <= screen.width
    ensures Inv(screen, Initial(screen))
  {
  }

  lemma TiltInv(screen: Screen, s: State, tilt: real)
    requires Inv(screen, s)
    ensures Inv(screen, Tilt(screen, s, tilt))
  {
  }

  /** Appending an entity with a fresh identifier keeps the identifiers distinct. */
  lemma {:induction false} AppendFresh(s: seq<Entity>, x: Entity)
    requires NoDuplicates(Ids(s)) && x.id !in Ids(s)
    ensures NoDuplicates(Ids(s + [x]))
  {
    assert Ids(s + [x]) == Ids(s) + [x.id];
  }

  lemma SpawnInv(screen: Screen, s: State, id: nat, rand: real)
    requires Inv(screen, s) && 0.0 <= rand < 1.0 && id !in Ids(s.enemies)
    ensures Inv(screen, Spawn(screen, s, id, rand))
  {
    if !s.gameOver {
      var t := Spawn(screen, s, id, rand);
      assert t.enemies == s.enemies + [t.enemies[|s.enemies|]];
      AppendFresh(s.enemies, t.enemies[|s.enemies|]);
    }
  }

  lemma PressInv(screen: Screen, s: State, id: nat)
    requires Inv(screen, s) && PLAYER_WIDTH <= screen.width && id !in Ids(s.bullets)
    ensures Inv(screen, Press(screen, s, id))
  {
    if !s.gameOver {
      var t := Fire(screen, s, id);
      assert t.bullets == s.bullets + [t.bullets[|s.bullets|]];
      AppendFresh(s.bullets, t.bullets[|s.bullets|]);
    }
  }

  lemma TickInv(screen: Screen, s: State)
    requires Inv(screen, s)
    ensures Inv(screen, Tick(screen, s))
  {
    var t := Tick(screen, s);
    TickKeepsIdentities(screen, s);
    SubseqNoDuplicates(Ids(t.bullets), Ids(s.bullets));
    SubseqNoDuplicates(Ids(t.enemies), Ids(s.enemies));
  }

  /** A fireball at (100, 100) against a meteor at (100, 110): the boxes overlap, the
      meteor is destroyed and one hit is counted. */
  lemma DirectHitScenario()
    ensures Scan([Entity(0, 100.0, 100.0)], [Entity(1, 100.0, 110.0)]) == Resolution([], [], 1)
  {
  }

  /** A meteor that lands one pixel past the ground line on a tick ends the game on
      that tick with both lists empty. */
  lemma GroundScenario(screen: Screen, b: Entity, x: real)
    requires screen.width == 400.0 && screen.height == 800.0
    ensures var s := State(170.0, [b], [Entity(7, x, 800.0 - GROUND_MARGIN - ENEMY_SIZE + 1.0 - ENEMY_SPEED)], 3, false);
      var t := Tick(screen, s);
      t.gameOver && t.bullets == [] && t.enemies == [] && t.score == 3
  {
  }
}
