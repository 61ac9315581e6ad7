/** Bullet-against-meteor collisions (first match wins, each bullet destroys
    at most one meteor) and the meteor-against-cannon test. */
module Collisions {
  import opened Entities
  import opened Sequences

  datatype Option<T> = None | Some(value: T)

  /** Axis-aligned box overlap of a bullet and a meteor (strict on every side). */
  predicate Collides(b: Entity, e: Entity) {
    && b.x < e.x + ENEMY_SIZE
    && b.x + BULLET_WIDTH > e.x
    && b.y < e.y + ENEMY_SIZE
    && b.y + BULLET_HEIGHT > e.y
  }

  /** The index of the first meteor, in list order, that the bullet overlaps. */
  function FirstHit(b: Entity, es: seq<Entity>): (r: Option<nat>)
    ensures r.Some? ==> r.value < |es| && Collides(b, es[r.value])
    ensures r.Some? ==> forall j :: 0 <= j < r.value ==> !Collides(b, es[j])
    ensures r.None? <==> forall j :: 0 <= j < |es| ==> !Collides(b, es[j])
  {
    if es == [] then None
    else if Collides(b, es[0]) then Some(0)
    else match FirstHit(b, es[1..])
      case None => None
      case Some(k) => Some(k + 1)
  }

  /** What the scan leaves: the bullets that hit nothing, the meteors nothing hit,
      and the number of hits. */
  datatype Resolution = Resolution(survivors: seq<Entity>, remaining: seq<Entity>, hits: nat)

  /** The bullets, oldest first, each take out the first meteor they overlap among
      those still standing. */
  function Scan(bs: seq<Entity>, es: seq<Entity>): (r: Resolution)
    ensures r.hits <= |bs| && r.hits <= |es|
    decreases |bs|
  {
    if bs == [] then Resolution([], es, 0)
    else match FirstHit(bs[0], es)
      case Some(i) =>
        var rest := Scan(bs[1..], RemoveAt(es, i));
        Resolution(rest.survivors, rest.remaining, rest.hits + 1)
      case None =>
        var rest := Scan(bs[1..], es);
        Resolution([bs[0]] + rest.survivors, rest.remaining, rest.hits)
  }

  /** Every hit consumes exactly one bullet and one meteor; nothing else disappears. */
  lemma {:induction false} ScanConserves(bs: seq<Entity>, es: seq<Entity>)
    ensures |Scan(bs, es).survivors| + Scan(bs, es).hits == |bs|
    ensures |Scan(bs, es).remaining| + Scan(bs, es).hits == |es|
    decreases |bs|
  {
    if bs != [] {
      match FirstHit(bs[0], es)
      case Some(i) => ScanConserves(bs[1..], RemoveAt(es, i));
      case None => ScanConserves(bs[1..], es);
    }
  }

  /** Both lists that come out of the scan keep the order of the lists that went in. */
  lemma {:induction false} ScanKeepsOrder(bs: seq<Entity>, es: seq<Entity>)
    ensures Subseq(Scan(bs, es).survivors, bs)
    ensures Subseq(Scan(bs, es).remaining, es)
    decreases |bs|
  {
    if bs == [] {
      SubseqRefl(es);
    } else {
      match FirstHit(bs[0], es)
      case Some(i) =>
        ScanKeepsOrder(bs[1..], RemoveAt(es, i));
        RemoveAtSubseq(es, i);
        SubseqTrans(Scan(bs, es).remaining, RemoveAt(es, i), es);
      case None =>
        ScanKeepsOrder(bs[1..], es);
    }
  }

  /** No bullet that survives the scan overlaps a meteor that survives it: a bullet
      survives only by missing every meteor present when its turn came, and later
      turns only remove meteors. */
  lemma {:induction false} ScanLeavesNoOverlap(bs: seq<Entity>, es: seq<Entity>)
    ensures forall b, e :: b in Scan(bs, es).survivors && e in Scan(bs, es).remaining ==> !Collides(b, e)
    decreases |bs|
  {
    if bs != [] {
      match FirstHit(bs[0], es)
      case Some(i) =>
        ScanLeavesNoOverlap(bs[1..], RemoveAt(es, i));
      case None =>
        var rest := Scan(bs[1..], es);
        ScanLeavesNoOverlap(bs[1..], es);
        ScanKeepsOrder(bs[1..], es);
        SubseqMembers(rest.remaining, es);
        forall e | e in rest.remaining ensures !Collides(bs[0], e) {
          var j :| 0 <= j < |es| && es[j] == e;
        }
    }
  }

  /** The bullet loop of a tick: for each bullet, scan the standing meteors in order,
      splice out the first one it overlaps and count a hit; a bullet that hit nothing
      is kept. */
  method ResolveHits(movedBullets: seq<Entity>, filteredEnemies: seq<Entity>)
    returns (remainingBullets: seq<Entity>, remainingEnemies: seq<Entity>, hits: nat)
    ensures Resolution(remainingBullets, remainingEnemies, hits) == Scan(movedBullets, filteredEnemies)
  {
    remainingBullets := [];
    remainingEnemies := filteredEnemies;
    hits := 0;
    var k := 0;
    while k < |movedBullets|
      invariant 0 <= k <= |movedBullets|
      invariant Scan(movedBullets, filteredEnemies).survivors
        == remainingBullets + Scan(movedBullets[k..], remainingEnemies).survivors
      invariant Scan(movedBullets, filteredEnemies).remaining
        == Scan(movedBullets[k..], remainingEnemies).remaining
      invariant Scan(movedBullets, filteredEnemies).hits
        == hits + Scan(movedBullets[k..], remainingEnemies).hits
    {
      var b := movedBullets[k];
      ghost var standing := remainingEnemies;
      assert movedBullets[k..][0] == b && movedBullets[k..][1..] == movedBullets[k + 1..];
      var hit := false;
      var i := 0;
      while i < |remainingEnemies|
        invariant 0 <= i <= |remainingEnemies|
        invariant remainingEnemies == standing
        invariant forall j :: 0 <= j < i ==> !Collides(b, remainingEnemies[j])
      {
        var e := remainingEnemies[i];
        if Collides(b, e) {
          hit := true;
          hits := hits + 1;
          remainingEnemies := RemoveAt(remainingEnemies, i);
          break;
        }
        i := i + 1;
      }
      if hit {
        assert FirstHit(b, standing) == Some(i);
      } else {
        assert FirstHit(b, standing) == None;
        remainingBullets := remainingBullets + [b];
      }
      k := k + 1;
    }
  }

  /** A meteor overlapping the cannon: within its horizontal span and below the
      cannon's top edge. */
  predicate StrikesPlayer(height: real, playerX: real, e: Entity) {
    && e.x < playerX + PLAYER_WIDTH
    && e.x + ENEMY_SIZE > playerX
    && e.y + ENEMY_SIZE > height - PLAYER_HEIGHT - PLAYER_BOTTOM
  }

  predicate AnyStrike(height: real, playerX: real, es: seq<Entity>) {
    exists i :: 0 <= i < |es| && StrikesPlayer(height, playerX, es[i])
  }

  /** The scan over the meteors left after the bullet loop that ends the game on the
      first one to strike the cannon. */
  method FindStrike(height: real, playerX: real, es: seq<Entity>) returns (found: bool)
    ensures found <==> AnyStrike(height, playerX, es)
  {
    for i := 0 to |es|
      invariant forall j :: 0 <= j < i ==> !StrikesPlayer(height, playerX, es[j])
    {
      if StrikesPlayer(height, playerX, es[i]) {
        return true;
      }
    }
    return false;
  }
}
