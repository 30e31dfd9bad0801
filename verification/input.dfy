/** The game loop's input handling and one frame of simulation: key presses
    start walking or jump, key releases stop walking only when they match the
    current direction, a quit event ends the game, and every frame that goes
    on advances the player by one tick.
 */
module Input {
  import opened Geometry
  import opened Physics

  /** The keys the game reacts to; every other key is `OtherKey`. */
  datatype Key = LeftArrow | KeyA | RightArrow | KeyD | UpArrow | KeyW | Space | OtherKey(code: int)

  datatype Event = Quit | KeyDown(key: Key) | KeyUp(key: Key) | OtherEvent

  predicate IsLeftKey(k: Key) { k == LeftArrow || k == KeyA }
  predicate IsRightKey(k: Key) { k == RightArrow || k == KeyD }
  predicate IsJumpKey(k: Key) { k == UpArrow || k == KeyW || k == Space }

  /** The horizontal velocities the input handlers can produce. */
  predicate WalkingSpeed(v: int) { v == -WalkSpeed || v == 0 || v == WalkSpeed }

  /** What holds of the player between frames: its 40x50 size and a walking
      velocity of -6, 0 or 6. */
  predicate PlayerInvariant(p: Player) {
    HasPlayerSize(p) && WalkingSpeed(p.changeX)
  }

  /** A key press: the three checks are independent and made in this order. */
  function OnKeyDown(p: Player, platforms: seq<Rect>, k: Key): (r: Player)
    ensures IsLeftKey(k) ==> r == GoLeft(p)
    ensures IsRightKey(k) ==> r == GoRight(p)
    ensures IsJumpKey(k) ==> r == Jump(p, platforms)
    ensures !IsLeftKey(k) && !IsRightKey(k) && !IsJumpKey(k) ==> r == p
  {
    var p1 := if IsLeftKey(k) then GoLeft(p) else p;
    var p2 := if IsRightKey(k) then GoRight(p1) else p1;
    if IsJumpKey(k) then Jump(p2, platforms) else p2
  }

  /** A key release: releasing a left key stops only a leftward walk, and
      releasing a right key stops only a rightward walk. The second check
      reads the velocity the first one may just have changed. */
  function OnKeyUp(p: Player, k: Key): (r: Player)
    ensures r.rect == p.rect && r.changeY == p.changeY
    ensures (IsLeftKey(k) && p.changeX < 0) || (IsRightKey(k) && p.changeX > 0) ==> r.changeX == 0
    ensures !((IsLeftKey(k) && p.changeX < 0) || (IsRightKey(k) && p.changeX > 0)) ==> r == p
  {
    var p1 := if IsLeftKey(k) && p.changeX < 0 then Stop(p) else p;
    if IsRightKey(k) && p1.changeX > 0 then Stop(p1) else p1
  }

  /** Releasing the key opposite to the current walking direction, or any
      other key, never cancels the walk. */
  lemma OppositeReleaseKeepsWalking(p: Player, k: Key)
    requires p.changeX != 0
    requires (p.changeX > 0 && !IsRightKey(k)) || (p.changeX < 0 && !IsLeftKey(k))
    ensures OnKeyUp(p, k) == p
  {
  }

  /** Pressing one direction and then the other, then releasing the first,
      leaves the player walking in the second direction. */
  lemma PressBothReleaseFirst(p: Player, platforms: seq<Rect>, first: Key, second: Key)
    requires (IsLeftKey(first) && IsRightKey(second)) || (IsRightKey(first) && IsLeftKey(second))
    ensures var q := OnKeyUp(OnKeyDown(OnKeyDown(p, platforms, first), platforms, second), first);
      q.changeX == (if IsRightKey(second) then WalkSpeed else -WalkSpeed)
  {
  }

  /** Pressing and releasing the same direction stops the walk. */
  lemma PressThenReleaseStops(p: Player, platforms: seq<Rect>, k: Key)
    requires IsLeftKey(k) || IsRightKey(k)
    ensures OnKeyUp(OnKeyDown(p, platforms, k), k).changeX == 0
  {
  }

  /** The result of processing a frame's events: either the game goes on with
      the updated player, or a quit event ended it. */
  datatype Outcome = Running(player: Player) | Exited

  /** Process a frame's events in order; a quit event ends the game at once
      and the events after it are never looked at. */
  function HandleEvents(p: Player, platforms: seq<Rect>, events: seq<Event>): (r: Outcome)
    ensures r.Exited? <==> Quit in events
    decreases |events|
  {
    if |events| == 0 then Running(p)
    else
      match events[0]
      case Quit => Exited
      case KeyDown(k) => HandleEvents(OnKeyDown(p, platforms, k), platforms, events[1..])
      case KeyUp(k) => HandleEvents(OnKeyUp(p, k), platforms, events[1..])
      case OtherEvent => HandleEvents(p, platforms, events[1..])
  }

  /** One frame: handle the queued events, then advance the player one tick.
      (The level's own per-frame update only updates the platforms, which do
      nothing, and drawing changes no state.) */
  function Frame(p: Player, platforms: seq<Rect>, events: seq<Event>): (r: Outcome)
    ensures r.Exited? <==> Quit in events
    ensures events == [] ==> r == Running(Update(p, platforms))
  {
    match HandleEvents(p, platforms, events)
    case Exited => Exited
    case Running(q) => Running(Update(q, platforms))
  }

  /** Event handling keeps the player invariant. */
  lemma {:induction false} HandleEventsKeepsInvariant(p: Player, platforms: seq<Rect>, events: seq<Event>)
    requires PlayerInvariant(p)
    ensures HandleEvents(p, platforms, events).Running? ==> PlayerInvariant(HandleEvents(p, platforms, events).player)
    decreases |events|
  {
    if |events| > 0 {
      match events[0]
      case Quit =>
      case KeyDown(k) => HandleEventsKeepsInvariant(OnKeyDown(p, platforms, k), platforms, events[1..]);
      case KeyUp(k) => HandleEventsKeepsInvariant(OnKeyUp(p, k), platforms, events[1..]);
      case OtherEvent => HandleEventsKeepsInvariant(p, platforms, events[1..]);
    }
  }

  /** Every frame keeps the player's size and a walking velocity of -6, 0 or 6. */
  lemma FrameKeepsInvariant(p: Player, platforms: seq<Rect>, events: seq<Event>)
    requires PlayerInvariant(p)
    ensures Frame(p, platforms, events).Running? ==> PlayerInvariant(Frame(p, platforms, events).player)
  {
    HandleEventsKeepsInvariant(p, platforms, events);
  }
}
