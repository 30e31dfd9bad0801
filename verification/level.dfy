/** The first (and only) level: three platforms given as rows of
    (width, height, x, y), and scenarios that start from it.
 */
module Level01 {
  import opened Geometry
  import opened Collision
  import opened Physics

  /** One row of a level's platform table. */
  datatype PlatformRow = PlatformRow(width: int, height: int, x: int, y: int)

  /** The level's table: a 500-wide floor along the bottom of the screen and
      two raised ledges, in the order they are added to the level. */
  const Rows: seq<PlatformRow> := [
    PlatformRow(500, 50, 0, ScreenHeight - 50),
    PlatformRow(200, 50, 600, ScreenHeight - 180),
    PlatformRow(250, 50, 900, ScreenHeight - 350)
  ]

  /** The platform a table row creates: a box of the row's size, placed with
      its top-left corner at the row's position. */
  function PlatformOf(row: PlatformRow): (r: Rect)
    ensures r.Left() == row.x as real && r.Top() == row.y as real
    ensures r.Right() == (row.x + row.width) as real && r.Bottom() == (row.y + row.height) as real
  {
    Rect(row.x as real, row.y as real, row.width as real, row.height as real)
  }

  /** The level's platform list, built row by row in table order. */
  function BuildPlatforms(rows: seq<PlatformRow>): (ps: seq<Rect>)
    ensures |ps| == |rows|
    ensures forall i :: 0 <= i < |rows| ==> ps[i] == PlatformOf(rows[i])
  {
    if |rows| == 0 then [] else [PlatformOf(rows[0])] + BuildPlatforms(rows[1..])
  }

  /** The level's platform list: a floor along the bottom of the screen and
      two ledges, higher and further right. */
  const Platforms: seq<Rect> := [
    Rect(0.0, 670.0, 500.0, 50.0),
    Rect(600.0, 540.0, 200.0, 50.0),
    Rect(900.0, 370.0, 250.0, 50.0)
  ]

  /** The table builds exactly this platform list, in this order. */
  lemma TableBuildsPlatforms()
    ensures BuildPlatforms(Rows) == Platforms
  {
  }

  /** The player standing on the floor platform, where it comes to rest. */
  function OnFloor(): (p: Player)
    ensures HasPlayerSize(p)
    ensures p.rect.Bottom() == Platforms[0].Top()
  {
    NewPlayer().(rect := NewPlayer().rect.WithBottom(670.0))
  }

  /** At start-up the player floats above the floor and cannot jump. */
  lemma StartInTheAir()
    ensures !AnyOverlap(NewPlayer().rect.MovedBy(0.0, 2.0), Platforms)
    ensures Jump(NewPlayer(), Platforms) == NewPlayer()
  {
  }

  /** The player at height `y` falling at `v`, at x = 100 and not walking. */
  function Falling(y: real, v: real): (p: Player)
    ensures HasPlayerSize(p) && p.changeX == 0
    ensures p.rect.Left() == 100.0 && p.rect.Top() == y && p.changeY == v
  {
    Player(NewPlayer().rect.(y := y), 0, v)
  }

  /** Above the floor (x = 100 is left of both ledges), a tick that does not
      bring the bottom of the box below the floor's top is a free fall. */
  lemma FreeFall(y: real, v: real)
    requires y + CalcGrav(Falling(y, v)).changeY + PlayerHeight <= Platforms[0].Top()
    ensures var v' := CalcGrav(Falling(y, v)).changeY;
      Update(Falling(y, v), Platforms) == Falling(y + v', v')
  {
    var g := CalcGrav(Falling(y, v));
    assert HorizontalPass(g, Platforms) == g;
    assert !AnyOverlap(MoveY(g).rect, Platforms);
  }

  /** Distance fallen in `n` ticks from rest: the sum of the first `n`
      per-tick speeds 1, 1.45, 1.9, ... */
  function FallDistance(n: nat): (d: real)
    decreases n
  {
    if n == 0 then 0.0 else FallDistance(n - 1) + FallSpeed(n)
  }

  /** The fall distance in closed form, n + 0.45 n (n - 1) / 2. */
  lemma {:induction false} FallDistanceClosedForm(n: nat)
    ensures FallDistance(n) == n as real + GravityStep * (n * (n - 1)) as real / 2.0
    decreases n
  {
    if n > 0 {
      FallDistanceClosedForm(n - 1);
      assert n * (n - 1) == (n - 1) * (n - 2) + 2 * (n - 1);
    }
  }

  /** The fall distance never shrinks as the fall goes on. */
  lemma {:induction false} FallDistanceGrows(k: nat, n: nat)
    ensures FallDistance(k) <= FallDistance(k + n)
    decreases n
  {
    if n > 0 {
      FallDistanceGrows(k, n - 1);
    }
  }

  /** The player that has fallen from height `y` for `k` ticks. */
  function FallenFor(y: real, k: nat): (p: Player)
    ensures p.rect.Top() == y + FallDistance(k) && p.changeY == FallSpeed(k)
  {
    Falling(y + FallDistance(k), FallSpeed(k))
  }

  /** One tick of free fall: while the next tick keeps the player above the
      floor, the tick after `k` ticks of fall gives `k + 1` ticks of fall. */
  lemma FreeFallTick(y: real, k: nat)
    requires y + FallDistance(k + 1) + PlayerHeight <= Platforms[0].Top()
    ensures Update(FallenFor(y, k), Platforms) == FallenFor(y, k + 1)
  {
    FreeFall(y + FallDistance(k), FallSpeed(k));
  }

  /** Every tick of a free fall that ends above the floor is a free-fall tick. */
  lemma FreeFallTicks(y: real, n: nat)
    requires y + FallDistance(n) + PlayerHeight <= Platforms[0].Top()
    ensures forall j: nat :: j < n ==> Update(FallenFor(y, j), Platforms) == FallenFor(y, j + 1)
  {
    forall j: nat | j < n
      ensures Update(FallenFor(y, j), Platforms) == FallenFor(y, j + 1)
    {
      FallDistanceGrows(j + 1, n - (j + 1));
      FreeFallTick(y, j);
    }
  }

  /** Free fall from rest, tick by tick: after `n` ticks above the floor the
      player has fallen for `n` ticks. */
  lemma FreeFallOrbit(y: real, n: nat)
    requires y + FallDistance(n) + PlayerHeight <= Platforms[0].Top()
    ensures Idle(Falling(y, 0.0), Platforms, n) == FallenFor(y, n)
  {
    FreeFallTicks(y, n);
    assert FallenFor(y, 0) == Falling(y, 0.0);
    IterateFollowsOrbit(q => Update(q, Platforms), (j: nat) => FallenFor(y, j), n);
  }

  /** Free fall from rest, with exact real positions: after `n` ticks above
      the floor the player has dropped n + 0.45 n (n - 1) / 2 pixels and falls
      at 1 + 0.45 (n - 1). */
  lemma FreeFallFromRest(y: real, n: nat)
    requires y + FallDistance(n) + PlayerHeight <= Platforms[0].Top()
    ensures Idle(Falling(y, 0.0), Platforms, n) == Falling(y + FallDistance(n), FallSpeed(n))
    ensures FallDistance(n) == n as real + GravityStep * (n * (n - 1)) as real / 2.0
  {
    FreeFallOrbit(y, n);
    assert FallenFor(y, n) == Falling(y + FallDistance(n), FallSpeed(n));
    FallDistanceClosedForm(n);
  }

  /** A tick whose fall would take the bottom of the box past the floor's top
      (but not through the floor) lands the player on the floor. */
  lemma LandOnFloor(y: real, v: real)
    requires v > 0.0
    requires y + PlayerHeight <= Platforms[0].Top()
    requires Platforms[0].Top() < y + v + GravityStep + PlayerHeight < Platforms[0].Bottom() + PlayerHeight
    ensures Update(Falling(y, v), Platforms) == OnFloor()
  {
    var g := CalcGrav(Falling(y, v));
    assert HorizontalPass(g, Platforms) == g;
    assert IsFirstOverlap(MoveY(g).rect, Platforms, 0);
    VerticalPassDown(g, Platforms, 0);
  }

  /** Left alone and with exact real positions, the new player falls for
      thirteen ticks (1, 1.45, 1.9, ... pixels per tick) without reaching the
      floor: it has dropped 48.1 pixels and falls at 6.4 pixels per tick. */
  lemma StartFallsThirteenTicks()
    ensures Idle(NewPlayer(), Platforms, 13) == Falling(618.1, 6.4)
  {
    assert NewPlayer() == Falling(570.0, 0.0);
    FreeFallFromRest(570.0, 13);
  }

  /** With exact real positions, the new player falls for thirteen ticks and
      on the fourteenth lands on the floor, where it comes to rest. */
  lemma StartFallsOntoFloor()
    ensures Idle(NewPlayer(), Platforms, 13).rect.Bottom() < Platforms[0].Top()
    ensures Idle(NewPlayer(), Platforms, 14) == OnFloor()
  {
    StartFallsThirteenTicks();
    LandOnFloor(618.1, 6.4);
    IterateAdd(q => Update(q, Platforms), NewPlayer(), 13, 1);
  }

  /** The player on the floor is resting there. */
  lemma FloorIsResting()
    ensures RestingOn(OnFloor(), Platforms, 0)
  {
    assert IsFirstOverlap(OnFloor().rect.MovedBy(0.0, GravityStart), Platforms, 0);
  }

  /** Once on the floor, the player stays there frame after frame. */
  lemma FloorIsRest(n: nat)
    ensures Idle(OnFloor(), Platforms, n) == OnFloor()
  {
    FloorIsResting();
    RestingStays(OnFloor(), Platforms, 0, n);
  }

  /** Standing on the floor, the jump key launches the player. */
  lemma JumpFromFloor()
    ensures Jump(OnFloor(), Platforms).changeY == JumpSpeed
  {
    FloorIsResting();
    RestingCanJump(OnFloor(), Platforms, 0);
  }
}
