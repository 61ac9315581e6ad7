/** Entities of the game: the player cannon, the fireballs it shoots (bullets)
    and the falling meteors (enemies), with the sizes the game draws them at. */
module Entities {
  import opened Sequences

  // Sizes in device-independent pixels (App.js:9-13).
  const PLAYER_WIDTH: real := 60.0
  const PLAYER_HEIGHT: real := 30.0
  const BULLET_WIDTH: real := 12.0
  const BULLET_HEIGHT: real := 25.0
  const ENEMY_SIZE: real := 45.0

  // Per-tick displacement of bullets (upward) and meteors (downward).
  const BULLET_SPEED: real := 12.0
  const ENEMY_SPEED: real := 6.0

  // A meteor whose bottom comes this close to the bottom edge has reached the ground.
  const GROUND_MARGIN: real := 20.0
  // The cannon is drawn this far above the bottom edge.
  const PLAYER_BOTTOM: real := 25.0
  // A new bullet starts this far above the bottom edge, less the cannon's height.
  const MUZZLE_OFFSET: real := 40.0
  // Pixels of movement per unit of accelerometer tilt.
  const TILT_SENSITIVITY: real := 20.0

  /** A bullet or a meteor: an identifier and its top-left corner. */
  datatype Entity = Entity(id: nat, x: real, y: real)

  /** The window size, read once when the game starts. */
  datatype Screen = Screen(width: real, height: real)

  /** The rightmost position of the cannon's left edge. */
  function MaxPlayerX(screen: Screen): real {
    screen.width - PLAYER_WIDTH
  }

  /** The identifiers of a list of entities, in order. */
  function Ids(s: seq<Entity>): (r: seq<nat>) {
    seq(|s|, i requires 0 <= i < |s| => s[i].id)
  }

  /** Every identifier is below the next one the counter will hand out. */
  predicate AllBelow(xs: seq<nat>, bound: nat) {
    forall k :: 0 <= k < |xs| ==> xs[k] < bound
  }

  lemma {:induction false} IdsTail(s: seq<Entity>)
    requires s != []
    ensures Ids(s) == [s[0].id] + Ids(s[1..])
  {
    assert Ids(s)[1..] == Ids(s[1..]);
  }

  /** Deleting entities deletes exactly their identifiers. */
  lemma {:induction false} SubseqIds(a: seq<Entity>, b: seq<Entity>)
    requires Subseq(a, b)
    ensures Subseq(Ids(a), Ids(b))
    decreases |b|
  {
    if a != [] {
      IdsTail(a);
      IdsTail(b);
      if a[0] == b[0] && Subseq(a[1..], b[1..]) {
        SubseqIds(a[1..], b[1..]);
      } else {
        SubseqIds(a, b[1..]);
      }
    }
  }

  /** Deleting identifiers cannot bring one above the bound. */
  lemma SubseqAllBelow(a: seq<nat>, b: seq<nat>, bound: nat)
    requires Subseq(a, b) && AllBelow(b, bound)
    ensures AllBelow(a, bound)
  {
    SubseqMembers(a, b);
    forall k | 0 <= k < |a| ensures a[k] < bound {
      assert a[k] in b;
    }
  }
}
