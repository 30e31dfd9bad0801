/** The player sprite and its per-tick simulation: gravity, the horizontal and
    vertical collision passes against the level's platforms, the jump probe
    and the horizontal input handlers.
 */
module Physics {
  import opened Geometry
  import opened Collision

  const PlayerWidth: real := 40.0
  const PlayerHeight: real := 50.0
  const ScreenHeight: int := 720

  /** Gravity: the first step of a fall, and the increment of every later one. */
  const GravityStart: real := 1.0
  const GravityStep: real := 0.45
  const JumpSpeed: real := -12.0
  const WalkSpeed: int := 6

  /** The player's box and velocity. `changeX` is always a whole number of
      pixels per tick; `changeY` accumulates fractional gravity. */
  datatype Player = Player(rect: Rect, changeX: int, changeY: real)

  /** The player as created at start-up: a 40x50 box at x = 100 whose bottom
      is 100 pixels above the bottom of the 720-pixel screen, at rest. */
  function NewPlayer(): (p: Player)
    ensures p.rect.w == PlayerWidth && p.rect.h == PlayerHeight
    ensures p.rect.Left() == 100.0 && p.rect.Bottom() == ScreenHeight as real - 100.0
    ensures p.changeX == 0 && p.changeY == 0.0
  {
    Player(Rect(100.0, ScreenHeight as real - PlayerHeight - 100.0, PlayerWidth, PlayerHeight), 0, 0.0)
  }

  /** The box keeps the player's 40x50 size. */
  predicate HasPlayerSize(p: Player) {
    p.rect.w == PlayerWidth && p.rect.h == PlayerHeight
  }

  // ---------------------------------------------------------------- gravity

  /** A vertical velocity of exactly zero (the player was just stopped by a
      platform, or never moved) restarts the fall at one pixel per tick;
      any other velocity grows by 0.45 pixels per tick. */
  function CalcGrav(p: Player): (r: Player)
    ensures r.rect == p.rect && r.changeX == p.changeX
    ensures p.changeY == 0.0 ==> r.changeY == GravityStart
    ensures p.changeY != 0.0 ==> r.changeY == p.changeY + GravityStep
  {
    if p.changeY == 0.0 then p.(changeY := GravityStart)
    else p.(changeY := p.changeY + GravityStep)
  }

  /** `n` gravity steps in a row, with no collision in between. */
  function Fall(p: Player, n: nat): (r: Player)
  {
    if n == 0 then p else CalcGrav(Fall(p, n - 1))
  }

  /** Speed after `n` ticks of free fall from rest: 0 at first, then
      1 + 0.45 (n - 1), the unit restart followed by uniform acceleration. */
  function FallSpeed(n: nat): (v: real)
  {
    if n == 0 then 0.0 else GravityStart + GravityStep * (n - 1) as real
  }

  /** Gravity alone, from rest, gives the closed-form speed `FallSpeed(n)`. */
  lemma {:induction false} FallFromRest(p: Player, n: nat)
    requires p.changeY == 0.0
    ensures Fall(p, n).changeY == FallSpeed(n)
    ensures Fall(p, n).rect == p.rect && Fall(p, n).changeX == p.changeX
  {
    if n > 0 {
      FallFromRest(p, n - 1);
    }
  }

  /** After a jump, gravity alone never brings the velocity back to exactly
      zero: -12 + 0.45 k is never 0. Once the player is moving vertically,
      only a collision brings `changeY` back to 0 (`FallFromRest` covers the
      falling arc). */
  lemma {:induction false} JumpArcNeverRestartsGravity(p: Player, n: nat)
    requires p.changeY == JumpSpeed
    ensures Fall(p, n).changeY == JumpSpeed + GravityStep * n as real
    ensures Fall(p, n).changeY != 0.0
  {
    if n > 0 {
      JumpArcNeverRestartsGravity(p, n - 1);
    }
  }

  // -------------------------------------------------------- horizontal pass

  /** `rect.x += change_x`. */
  function MoveX(p: Player): (r: Player)
    ensures r.rect == p.rect.MovedBy(p.changeX as real, 0.0)
    ensures r.changeX == p.changeX && r.changeY == p.changeY
  {
    p.(rect := p.rect.(x := p.rect.x + p.changeX as real))
  }

  /** The horizontal resolution loop over a hit list, in order: moving right
      puts the player's right edge on the platform's left edge, moving left
      puts its left edge on the platform's right edge, standing still does
      nothing. Every platform of the list is applied in turn, so the last
      one decides. */
  function ClampX(p: Player, hits: seq<Rect>): (r: Player)
    ensures r.changeX == p.changeX && r.changeY == p.changeY
    ensures r.rect.y == p.rect.y && r.rect.w == p.rect.w && r.rect.h == p.rect.h
    ensures |hits| == 0 || p.changeX == 0 ==> r == p
    ensures |hits| > 0 && p.changeX > 0 ==> r.rect.Right() == hits[|hits| - 1].Left()
    ensures |hits| > 0 && p.changeX < 0 ==> r.rect.Left() == hits[|hits| - 1].Right()
    decreases |hits|
  {
    if |hits| == 0 then p
    else
      var b := hits[0];
      var q :=
        if p.changeX > 0 then p.(rect := p.rect.WithRight(b.Left()))
        else if p.changeX < 0 then p.(rect := p.rect.WithLeft(b.Right()))
        else p;
      ClampX(q, hits[1..])
  }

  /** Move by `change_x`, then resolve against the platforms that overlap the
      moved box. */
  function HorizontalPass(p: Player, platforms: seq<Rect>): (r: Player)
    ensures r.changeX == p.changeX && r.changeY == p.changeY
    ensures r.rect.y == p.rect.y && r.rect.w == p.rect.w && r.rect.h == p.rect.h
    ensures !AnyOverlap(MoveX(p).rect, platforms) ==> r.rect.x == p.rect.x + p.changeX as real
    ensures p.changeX == 0 ==> r.rect == p.rect
  {
    var moved := MoveX(p);
    ClampX(moved, SpriteCollide(moved.rect, platforms))
  }

  /** Moving right into platforms: the right edge ends on the left edge of the
      last overlapping platform in list order. */
  lemma HorizontalPassRight(p: Player, platforms: seq<Rect>, i: int)
    requires p.changeX > 0
    requires IsLastOverlap(MoveX(p).rect, platforms, i)
    ensures HorizontalPass(p, platforms).rect.Right() == platforms[i].Left()
    ensures !Overlaps(HorizontalPass(p, platforms).rect, platforms[i])
  {
    var moved := MoveX(p);
    var hits := SpriteCollide(moved.rect, platforms);
    HitListEndsAtLastOverlap(moved.rect, platforms, i);
    var r := ClampX(moved, hits);
    assert r.rect.Right() == platforms[i].Left();
    assert HorizontalPass(p, platforms) == r;
    TouchingHorizontallyIsNoOverlap(r.rect, platforms[i]);
  }

  /** Moving left into platforms: the left edge ends on the right edge of the
      last overlapping platform in list order. */
  lemma HorizontalPassLeft(p: Player, platforms: seq<Rect>, i: int)
    requires p.changeX < 0
    requires IsLastOverlap(MoveX(p).rect, platforms, i)
    ensures HorizontalPass(p, platforms).rect.Left() == platforms[i].Right()
    ensures !Overlaps(HorizontalPass(p, platforms).rect, platforms[i])
  {
    var moved := MoveX(p);
    var hits := SpriteCollide(moved.rect, platforms);
    HitListEndsAtLastOverlap(moved.rect, platforms, i);
    var r := ClampX(moved, hits);
    assert r.rect.Left() == platforms[i].Right();
    assert HorizontalPass(p, platforms) == r;
    TouchingHorizontallyIsNoOverlap(r.rect, platforms[i]);
  }

  /** Whenever the moved box overlaps a platform, walking ends flush against
      the last overlapping platform in list order. */
  lemma HorizontalPassBlocked(p: Player, platforms: seq<Rect>)
    requires p.changeX != 0 && AnyOverlap(MoveX(p).rect, platforms)
    ensures exists i :: && IsLastOverlap(MoveX(p).rect, platforms, i)
                        && (p.changeX > 0 ==> HorizontalPass(p, platforms).rect.Right() == platforms[i].Left())
                        && (p.changeX < 0 ==> HorizontalPass(p, platforms).rect.Left() == platforms[i].Right())
  {
    var i := LastOverlapExists(MoveX(p).rect, platforms);
    if p.changeX > 0 {
      HorizontalPassRight(p, platforms, i);
    } else {
      HorizontalPassLeft(p, platforms, i);
    }
  }

  /** Last-wins is not nearest-wins: when an earlier overlapping platform
      starts further left than the last one, walking right leaves the box
      flush with the last platform and still inside the earlier one. */
  lemma HorizontalPassLastWins(p: Player, platforms: seq<Rect>, i: int, j: int)
    requires p.changeX > 0
    requires IsLastOverlap(MoveX(p).rect, platforms, j)
    requires 0 <= i < j && Overlaps(MoveX(p).rect, platforms[i])
    requires platforms[i].Left() < platforms[j].Left()
    ensures Overlaps(HorizontalPass(p, platforms).rect, platforms[i])
  {
    HorizontalPassRight(p, platforms, j);
  }

  // ---------------------------------------------------------- vertical pass

  /** `rect.y += change_y`. */
  function MoveY(p: Player): (r: Player)
    ensures r.rect == p.rect.MovedBy(0.0, p.changeY)
    ensures r.changeX == p.changeX && r.changeY == p.changeY
  {
    p.(rect := p.rect.(y := p.rect.y + p.changeY))
  }

  /** The vertical resolution loop over a hit list, in order: moving down
      puts the player's bottom on the platform's top, moving up puts its top
      on the platform's bottom, and every hit sets the vertical velocity to
      zero. Because the velocity is zeroed inside the loop, the platforms
      after the first see a velocity of zero and no longer move the box: the
      FIRST platform of the list decides. */
  function ClampY(p: Player, hits: seq<Rect>): (r: Player)
    ensures r.changeX == p.changeX
    ensures r.rect.x == p.rect.x && r.rect.w == p.rect.w && r.rect.h == p.rect.h
    ensures |hits| == 0 ==> r == p
    ensures |hits| > 0 ==> r.changeY == 0.0
    ensures p.changeY == 0.0 ==> r.rect == p.rect
    ensures |hits| > 0 && p.changeY > 0.0 ==> r.rect.Bottom() == hits[0].Top()
    ensures |hits| > 0 && p.changeY < 0.0 ==> r.rect.Top() == hits[0].Bottom()
    decreases |hits|
  {
    if |hits| == 0 then p
    else
      var b := hits[0];
      var q :=
        if p.changeY > 0.0 then p.(rect := p.rect.WithBottom(b.Top()))
        else if p.changeY < 0.0 then p.(rect := p.rect.WithTop(b.Bottom()))
        else p;
      ClampY(q.(changeY := 0.0), hits[1..])
  }

  /** Move by `change_y`, then resolve against the platforms that overlap the
      moved box. */
  function VerticalPass(p: Player, platforms: seq<Rect>): (r: Player)
    ensures r.changeX == p.changeX
    ensures r.rect.x == p.rect.x && r.rect.w == p.rect.w && r.rect.h == p.rect.h
    ensures AnyOverlap(MoveY(p).rect, platforms) ==> r.changeY == 0.0
    ensures !AnyOverlap(MoveY(p).rect, platforms) ==> r == MoveY(p)
  {
    var moved := MoveY(p);
    ClampY(moved, SpriteCollide(moved.rect, platforms))
  }

  /** Falling into platforms: the bottom ends on the top of the first
      overlapping platform in list order, and the fall stops. */
  lemma VerticalPassDown(p: Player, platforms: seq<Rect>, i: int)
    requires p.changeY > 0.0
    requires IsFirstOverlap(MoveY(p).rect, platforms, i)
    ensures VerticalPass(p, platforms).rect.Bottom() == platforms[i].Top()
    ensures VerticalPass(p, platforms).changeY == 0.0
    ensures !Overlaps(VerticalPass(p, platforms).rect, platforms[i])
  {
    HitListStartsAtFirstOverlap(MoveY(p).rect, platforms, i);
    TouchingVerticallyIsNoOverlap(VerticalPass(p, platforms).rect, platforms[i]);
  }

  /** Rising into platforms: the top ends on the bottom of the first
      overlapping platform in list order, and the rise stops. */
  lemma VerticalPassUp(p: Player, platforms: seq<Rect>, i: int)
    requires p.changeY < 0.0
    requires IsFirstOverlap(MoveY(p).rect, platforms, i)
    ensures VerticalPass(p, platforms).rect.Top() == platforms[i].Bottom()
    ensures VerticalPass(p, platforms).changeY == 0.0
    ensures !Overlaps(VerticalPass(p, platforms).rect, platforms[i])
  {
    HitListStartsAtFirstOverlap(MoveY(p).rect, platforms, i);
    TouchingVerticallyIsNoOverlap(VerticalPass(p, platforms).rect, platforms[i]);
  }

  /** Whenever the moved box overlaps a platform while moving vertically, the
      box ends flush against the first overlapping platform in list order. */
  lemma VerticalPassBlocked(p: Player, platforms: seq<Rect>)
    requires p.changeY != 0.0 && AnyOverlap(MoveY(p).rect, platforms)
    ensures exists i :: && IsFirstOverlap(MoveY(p).rect, platforms, i)
                        && (p.changeY > 0.0 ==> VerticalPass(p, platforms).rect.Bottom() == platforms[i].Top())
                        && (p.changeY < 0.0 ==> VerticalPass(p, platforms).rect.Top() == platforms[i].Bottom())
  {
    var i := FirstOverlapExists(MoveY(p).rect, platforms);
    if p.changeY > 0.0 {
      VerticalPassDown(p, platforms, i);
    } else {
      VerticalPassUp(p, platforms, i);
    }
  }

  /** First-wins: when a later overlapping platform's top is above the first
      one's, falling leaves the box on the first platform and still inside
      the later one. */
  lemma VerticalPassFirstWins(p: Player, platforms: seq<Rect>, i: int, j: int)
    requires p.changeY > 0.0
    requires IsFirstOverlap(MoveY(p).rect, platforms, i)
    requires i < j < |platforms| && Overlaps(MoveY(p).rect, platforms[j])
    requires platforms[j].Top() < platforms[i].Top()
    ensures Overlaps(VerticalPass(p, platforms).rect, platforms[j])
  {
    VerticalPassDown(p, platforms, i);
  }

  // ------------------------------------------------------------ whole tick

  /** One tick of the player: gravity, then the horizontal pass, then the
      vertical pass. */
  function Update(p: Player, platforms: seq<Rect>): (r: Player)
    ensures r.changeX == p.changeX
    ensures r.rect.w == p.rect.w && r.rect.h == p.rect.h
    ensures r.changeY == 0.0 || r.changeY == CalcGrav(p).changeY
  {
    VerticalPass(HorizontalPass(CalcGrav(p), platforms), platforms)
  }

  /** The player stands still on a platform: no velocity, and the first
      platform that the box touches after one pixel of fall has its top
      exactly at the player's bottom. */
  predicate RestingOn(p: Player, platforms: seq<Rect>, i: int) {
    && p.changeX == 0
    && p.changeY == 0.0
    && IsFirstOverlap(p.rect.MovedBy(0.0, GravityStart), platforms, i)
    && platforms[i].Top() == p.rect.Bottom()
  }

  /** A resting player is a fixed point of the tick: gravity restarts the
      fall at one pixel, the platform pushes the box back up and stops it. */
  lemma RestingIsFixedPoint(p: Player, platforms: seq<Rect>, i: int)
    requires RestingOn(p, platforms, i)
    ensures Update(p, platforms) == p
  {
    var g := CalcGrav(p);
    var h := HorizontalPass(g, platforms);
    assert h == g;
    assert MoveY(h).rect == p.rect.MovedBy(0.0, GravityStart);
    VerticalPassDown(h, platforms, i);
  }

  /** `n` applications of a step function, the first one first. */
  function Iterate(step: Player -> Player, p: Player, n: nat): (r: Player)
    decreases n
  {
    if n == 0 then p else Iterate(step, step(p), n - 1)
  }

  /** Iterations compose: `a + b` steps are `a` steps followed by `b` more. */
  lemma {:induction false} IterateAdd(step: Player -> Player, p: Player, a: nat, b: nat)
    ensures Iterate(step, p, a + b) == Iterate(step, Iterate(step, p, a), b)
    decreases a
  {
    if a > 0 {
      IterateAdd(step, step(p), a - 1, b);
    }
  }

  /** A fixed point of the step stays put for any number of steps. */
  lemma {:induction false} IterateFixedPoint(step: Player -> Player, p: Player, n: nat)
    requires step(p) == p
    ensures Iterate(step, p, n) == p
    decreases n
  {
    if n > 0 {
      IterateFixedPoint(step, p, n - 1);
    }
  }

  /** When the step takes each state of `orbit` to the next, `n` steps from
      the first state reach state `n`. */
  lemma {:induction false} IterateFollowsOrbit(step: Player -> Player, orbit: nat -> Player, n: nat)
    requires forall j: nat :: j < n ==> step(orbit(j)) == orbit(j + 1)
    ensures Iterate(step, orbit(0), n) == orbit(n)
    decreases n
  {
    if n > 0 {
      IterateFollowsOrbit(step, (j: nat) => orbit(j + 1), n - 1);
    }
  }

  /** `n` ticks without input. */
  function Idle(p: Player, platforms: seq<Rect>, n: nat): (r: Player)
  {
    Iterate(q => Update(q, platforms), p, n)
  }

  /** A resting player stays where it is for as long as no key is pressed. */
  lemma RestingStays(p: Player, platforms: seq<Rect>, i: int, n: nat)
    requires RestingOn(p, platforms, i)
    ensures Idle(p, platforms, n) == p
  {
    RestingIsFixedPoint(p, platforms, i);
    IterateFixedPoint(q => Update(q, platforms), p, n);
  }

  // ------------------------------------------------------------------ jump

  /** The jump: look two pixels below the player for a platform, move back,
      and take off at 12 pixels per tick upwards only if one was found. */
  function Jump(p: Player, platforms: seq<Rect>): (r: Player)
    ensures r.rect == p.rect && r.changeX == p.changeX
    ensures AnyOverlap(p.rect.MovedBy(0.0, 2.0), platforms) ==> r.changeY == JumpSpeed
    ensures !AnyOverlap(p.rect.MovedBy(0.0, 2.0), platforms) ==> r == p
  {
    var probe := p.rect.(y := p.rect.y + 2.0);
    var hits := SpriteCollide(probe, platforms);
    var back := p.(rect := probe.(y := probe.y - 2.0));
    if |hits| > 0 then back.(changeY := JumpSpeed) else back
  }

  /** A player resting on a platform can always jump. */
  lemma RestingCanJump(p: Player, platforms: seq<Rect>, i: int)
    requires RestingOn(p, platforms, i)
    requires HasPlayerSize(p) && platforms[i].h > 0.0
    ensures Jump(p, platforms).changeY == JumpSpeed
  {
    assert Overlaps(p.rect.MovedBy(0.0, 2.0), platforms[i]);
  }

  // ---------------------------------------------------------- input handlers

  function GoLeft(p: Player): (r: Player)
    ensures r.changeX == -WalkSpeed
    ensures r.rect == p.rect && r.changeY == p.changeY
  {
    p.(changeX := -WalkSpeed)
  }

  function GoRight(p: Player): (r: Player)
    ensures r.changeX == WalkSpeed
    ensures r.rect == p.rect && r.changeY == p.changeY
  {
    p.(changeX := WalkSpeed)
  }

  function Stop(p: Player): (r: Player)
    ensures r.changeX == 0
    ensures r.rect == p.rect && r.changeY == p.changeY
  {
    p.(changeX := 0)
  }
}
