/** The move phase of a tick and the two checks made on the moved meteors
    before any collision: reaching the ground and leaving the screen. */
module Motion {
  import opened Entities
  import opened Sequences

  /** Every bullet moved up by one tick's travel. */
  function Rise(bs: seq<Entity>): (r: seq<Entity>)
    ensures |r| == |bs|
    ensures forall i :: 0 <= i < |bs| ==> r[i] == bs[i].(y := bs[i].y - BULLET_SPEED)
  {
    if bs == [] then [] else [bs[0].(y := bs[0].y - BULLET_SPEED)] + Rise(bs[1..])
  }

  /** A bullet some part of which is still below the top edge. */
  predicate BelowTop(b: Entity) {
    b.y > -BULLET_HEIGHT
  }

  /** The bullets that are still on screen, in their original order. */
  function DropPastTop(bs: seq<Entity>): (r: seq<Entity>)
    ensures Subseq(r, bs)
    ensures forall b :: b in r <==> b in bs && BelowTop(b)
  {
    if bs == [] then []
    else if BelowTop(bs[0]) then [bs[0]] + DropPastTop(bs[1..])
    else DropPastTop(bs[1..])
  }

  /** The filter keeps every on-screen bullet as often as it occurs and drops the rest,
      so even a list with repeated entries is filtered exactly. */
  lemma {:induction false} DropPastTopCounts(bs: seq<Entity>)
    ensures forall b :: multiset(DropPastTop(bs))[b] == if BelowTop(b) then multiset(bs)[b] else 0
    decreases |bs|
  {
    if bs != [] {
      assert bs == [bs[0]] + bs[1..];
      DropPastTopCounts(bs[1..]);
    }
  }

  /** The bullet list after the move phase: risen, then those past the top dropped
      (with multiplicities, as `DropPastTopCounts` states). */
  function MoveBullets(bs: seq<Entity>): (r: seq<Entity>)
    ensures Subseq(r, Rise(bs))
    ensures forall b :: b in r ==> BelowTop(b) && b in Rise(bs)
    ensures forall i :: 0 <= i < |bs| && BelowTop(Rise(bs)[i]) ==> Rise(bs)[i] in r
  {
    DropPastTop(Rise(bs))
  }

  /** Every meteor moved down by one tick's travel. */
  function Fall(es: seq<Entity>): (r: seq<Entity>)
    ensures |r| == |es|
    ensures forall i :: 0 <= i < |es| ==> r[i] == es[i].(y := es[i].y + ENEMY_SPEED)
  {
    if es == [] then [] else [es[0].(y := es[0].y + ENEMY_SPEED)] + Fall(es[1..])
  }

  /** Moving changes positions only, never identities. */
  lemma MovingKeepsIds(s: seq<Entity>)
    ensures Ids(Rise(s)) == Ids(s) && Ids(Fall(s)) == Ids(s)
  {
  }

  /** The meteor's bottom edge has come within the ground margin of the screen's bottom. */
  predicate Grounded(height: real, e: Entity) {
    e.y + ENEMY_SIZE >= height - GROUND_MARGIN
  }

  predicate AnyGrounded(height: real, es: seq<Entity>) {
    exists i :: 0 <= i < |es| && Grounded(height, es[i])
  }

  /** The scan over the moved meteors that ends the game on the first one to reach the ground. */
  method FindGrounded(height: real, es: seq<Entity>) returns (found: bool)
    ensures found <==> AnyGrounded(height, es)
  {
    for i := 0 to |es|
      invariant forall j :: 0 <= j < i ==> !Grounded(height, es[j])
    {
      if Grounded(height, es[i]) {
        return true;
      }
    }
    return false;
  }

  /** A meteor whose top edge is still above the point where it has fully left the screen. */
  predicate AboveBottom(height: real, e: Entity) {
    e.y < height + ENEMY_SIZE
  }

  /** The meteors that have not left the screen past the bottom, in their original order. */
  function DropPastBottom(height: real, es: seq<Entity>): (r: seq<Entity>)
    ensures Subseq(r, es)
    ensures forall e :: e in r <==> e in es && AboveBottom(height, e)
  {
    if es == [] then []
    else if AboveBottom(height, es[0]) then [es[0]] + DropPastBottom(height, es[1..])
    else DropPastBottom(height, es[1..])
  }

  /** The filter keeps every meteor still on screen as often as it occurs and drops
      the rest. */
  lemma {:induction false} DropPastBottomCounts(height: real, es: seq<Entity>)
    ensures forall e :: multiset(DropPastBottom(height, es))[e] == if AboveBottom(height, e) then multiset(es)[e] else 0
    decreases |es|
  {
    if es != [] {
      assert es == [es[0]] + es[1..];
      DropPastBottomCounts(height, es[1..]);
    }
  }

  /** Once no meteor has reached the ground, none can be past the bottom either,
      so the off-screen filter removes nothing. */
  lemma {:induction false} DropPastBottomAfterGroundCheck(height: real, es: seq<Entity>)
    requires !AnyGrounded(height, es)
    ensures DropPastBottom(height, es) == es
    decreases |es|
  {
    if es != [] {
      assert !Grounded(height, es[0]);
      assert !AnyGrounded(height, es[1..]) by {
        forall j | 0 <= j < |es[1..]| ensures !Grounded(height, es[1..][j]) {
          assert es[1..][j] == es[j + 1];
        }
      }
      DropPastBottomAfterGroundCheck(height, es[1..]);
    }
  }
}
