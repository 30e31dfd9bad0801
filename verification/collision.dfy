/** The collision query the player step relies on: every platform of a level
    whose rectangle overlaps a given box, in the level's list order (the order
    a sprite group yields its members, which is the order they were added).
 */
module Collision {
  import opened Geometry

  /** Platform `i` of `ps` is the first one, in list order, that overlaps `box`. */
  predicate IsFirstOverlap(box: Rect, ps: seq<Rect>, i: int) {
    && 0 <= i < |ps|
    && Overlaps(box, ps[i])
    && forall j :: 0 <= j < i ==> !Overlaps(box, ps[j])
  }

  /** Platform `i` of `ps` is the last one, in list order, that overlaps `box`. */
  predicate IsLastOverlap(box: Rect, ps: seq<Rect>, i: int) {
    && 0 <= i < |ps|
    && Overlaps(box, ps[i])
    && forall j :: i < j < |ps| ==> !Overlaps(box, ps[j])
  }

  /** Some platform of `ps` overlaps `box`. */
  predicate AnyOverlap(box: Rect, ps: seq<Rect>) {
    exists i :: 0 <= i < |ps| && Overlaps(box, ps[i])
  }

  /** The list of platforms of `group` that collide with `box`, keeping the
      group's order: the hit list a sprite collision query returns. */
  function SpriteCollide(box: Rect, group: seq<Rect>): (hits: seq<Rect>)
    ensures |hits| <= |group|
    ensures forall r :: r in hits <==> r in group && Overlaps(box, r)
    ensures |hits| == 0 <==> !AnyOverlap(box, group)
  {
    if |group| == 0 then []
    else
      var rest := SpriteCollide(box, group[1..]);
      assert forall i :: 1 <= i < |group| ==> group[i] == group[1..][i - 1];
      if Overlaps(box, group[0]) then [group[0]] + rest else rest
  }

  /** The head of the hit list is the first overlapping platform in list order. */
  lemma {:induction false} HitListStartsAtFirstOverlap(box: Rect, group: seq<Rect>, i: int)
    requires IsFirstOverlap(box, group, i)
    ensures |SpriteCollide(box, group)| > 0
    ensures SpriteCollide(box, group)[0] == group[i]
    decreases |group|
  {
    if i > 0 {
      assert !Overlaps(box, group[0]);
      assert IsFirstOverlap(box, group[1..], i - 1) by {
        forall j | 0 <= j < i - 1
          ensures !Overlaps(box, group[1..][j])
        {
          assert group[1..][j] == group[j + 1];
        }
      }
      HitListStartsAtFirstOverlap(box, group[1..], i - 1);
    }
  }

  /** Putting an element in front of a non-empty list keeps its last element. */
  lemma LastOfPrepend(x: Rect, s: seq<Rect>)
    requires |s| > 0
    ensures ([x] + s)[|s|] == s[|s| - 1]
  {
  }

  /** A non-empty hit list for the tail of the group keeps its last entry when
      the head of the group is considered too. */
  lemma HitListKeepsLast(box: Rect, group: seq<Rect>)
    requires |group| > 0 && |SpriteCollide(box, group[1..])| > 0
    ensures var hits, rest := SpriteCollide(box, group), SpriteCollide(box, group[1..]);
      |hits| > 0 && hits[|hits| - 1] == rest[|rest| - 1]
  {
    var hits, rest := SpriteCollide(box, group), SpriteCollide(box, group[1..]);
    if Overlaps(box, group[0]) {
      assert hits == [group[0]] + rest;
      assert |hits| - 1 == |rest|;
      LastOfPrepend(group[0], rest);
    } else {
      assert hits == rest;
    }
  }

  /** When only the head of the group overlaps, the hit list is just the head. */
  lemma HitListOnlyHead(box: Rect, group: seq<Rect>)
    requires IsLastOverlap(box, group, 0)
    ensures SpriteCollide(box, group) == [group[0]]
  {
    assert !AnyOverlap(box, group[1..]) by {
      forall j | 0 <= j < |group[1..]|
        ensures !Overlaps(box, group[1..][j])
      {
        assert group[1..][j] == group[j + 1];
      }
    }
  }

  /** The tail of the hit list is the last overlapping platform in list order. */
  lemma {:induction false} HitListEndsAtLastOverlap(box: Rect, group: seq<Rect>, i: int)
    requires IsLastOverlap(box, group, i)
    ensures |SpriteCollide(box, group)| > 0
    ensures SpriteCollide(box, group)[|SpriteCollide(box, group)| - 1] == group[i]
    decreases |group|
  {
    if i == 0 {
      HitListOnlyHead(box, group);
    } else {
      assert IsLastOverlap(box, group[1..], i - 1) by {
        forall j | i - 1 < j < |group[1..]|
          ensures !Overlaps(box, group[1..][j])
        {
          assert group[1..][j] == group[j + 1];
        }
      }
      HitListEndsAtLastOverlap(box, group[1..], i - 1);
      HitListKeepsLast(box, group);
    }
  }

  /** Whenever a platform overlaps, there is a first overlapping platform. */
  lemma {:induction false} FirstOverlapExists(box: Rect, ps: seq<Rect>) returns (i: int)
    requires AnyOverlap(box, ps)
    ensures IsFirstOverlap(box, ps, i)
    decreases |ps|
  {
    if Overlaps(box, ps[0]) {
      i := 0;
    } else {
      assert AnyOverlap(box, ps[1..]) by {
        var k :| 0 <= k < |ps| && Overlaps(box, ps[k]);
        assert ps[1..][k - 1] == ps[k];
      }
      var i' := FirstOverlapExists(box, ps[1..]);
      i := i' + 1;
      forall j | 0 <= j < i
        ensures !Overlaps(box, ps[j])
      {
        if j > 0 {
          assert ps[j] == ps[1..][j - 1];
        }
      }
    }
  }

  /** Whenever a platform overlaps, there is a last overlapping platform. */
  lemma {:induction false} LastOverlapExists(box: Rect, ps: seq<Rect>) returns (i: int)
    requires AnyOverlap(box, ps)
    ensures IsLastOverlap(box, ps, i)
    decreases |ps|
  {
    var n := |ps| - 1;
    if Overlaps(box, ps[n]) {
      i := n;
    } else {
      var init := ps[..n];
      assert AnyOverlap(box, init) by {
        var k :| 0 <= k < |ps| && Overlaps(box, ps[k]);
        assert init[k] == ps[k];
      }
      i := LastOverlapExists(box, init);
      assert ps[i] == init[i];
      forall j | i < j < |ps|
        ensures !Overlaps(box, ps[j])
      {
        if j < n {
          assert ps[j] == init[j];
        }
      }
    }
  }
}
