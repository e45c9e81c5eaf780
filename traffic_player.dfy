/**
 * Traffic Dash's player: input arbitration (keyboard, then each controller's
 * analog stick, then its D-pad), normalised movement at 200 pixels per second
 * with axis-separated collision against the obstacle hitboxes (touching a car
 * ends the game), the animation frame counter and the playfield restriction.
 *
 * The position is a float pair; the hitbox and rect are pygame integer
 * rectangles whose centres follow round(position). The obstacles are given to
 * each move as values (their hitboxes and whether they are cars); the vector
 * length used by normalize() is a parameter `mag` whose square is the squared
 * length. Leaving the game on a car contact is the `crashed` flag.
 */
module TrafficPlayer {
  import opened Common
  import opened Geometry

  const Speed: real := 200.0
  const StickDeadzone: real := 0.2
  const AnimationRate: real := 10.0
  const AreaLeft: int := 640
  const AreaRight: int := 2560
  const AreaBottom: int := 3500
  const NoReturnY: int := 1180

  datatype Status = Up | Down | Left | Right

  /** The arrow keys held this frame. */
  datatype Keys = Keys(right: bool, left: bool, up: bool, down: bool)

  /** One controller's readings: axes 0 and 1 of the left stick and hat 0. */
  datatype Joystick = Joystick(axisX: real, axisY: real, hatX: int, hatY: int)

  /** A direction and the animation it selects. */
  datatype Steering = Steering(x: real, y: real, status: Status)

  /** The keyboard stage of input: Right beats Left, Up beats Down, and a vertical
      key decides the status over a horizontal one. */
  function KeyboardSteering(keys: Keys, status: Status): (s: Steering)
    ensures keys.right ==> s.x == 1.0
    ensures !keys.right && keys.left ==> s.x == -1.0
    ensures !keys.right && !keys.left ==> s.x == 0.0
    ensures keys.up ==> s.y == -1.0 && s.status == Up
    ensures !keys.up && keys.down ==> s.y == 1.0 && s.status == Down
    ensures !keys.up && !keys.down && keys.right ==> s.status == Right
    ensures !keys.up && !keys.down && !keys.right && keys.left ==> s.status == Left
    ensures !keys.up && !keys.down && !keys.right && !keys.left ==> s == Steering(0.0, 0.0, status)
  {
    var h :=
      if keys.right then Steering(1.0, 0.0, Right)
      else if keys.left then Steering(-1.0, 0.0, Left)
      else Steering(0.0, 0.0, status);
    if keys.up then h.(y := -1.0, status := Up)
    else if keys.down then h.(y := 1.0, status := Down)
    else h
  }

  /** One controller's stage: a stick axis beyond the dead zone overrides that axis,
      then a pushed D-pad overrides it again. A D-pad pushed up (hat y > 0) sets
      y to +1, which moves the player down the screen, with status Up. */
  function JoystickSteering(s: Steering, j: Joystick): (r: Steering)
    ensures j.hatX > 0 ==> r.x == 1.0
    ensures j.hatX < 0 ==> r.x == -1.0
    ensures j.hatX == 0 && Abs(j.axisX) > StickDeadzone ==> r.x == j.axisX
    ensures j.hatX == 0 && Abs(j.axisX) <= StickDeadzone ==> r.x == s.x
    ensures j.hatY > 0 ==> r.y == 1.0 && r.status == Up
    ensures j.hatY < 0 ==> r.y == -1.0 && r.status == Down
    ensures j.hatY == 0 && Abs(j.axisY) > StickDeadzone ==> r.y == j.axisY
    ensures j.hatY == 0 && Abs(j.axisY) <= StickDeadzone ==> r.y == s.y
  {
    var s1 :=
      if Abs(j.axisX) > StickDeadzone then s.(x := j.axisX, status := if j.axisX > 0.0 then Right else Left)
      else s;
    var s2 :=
      if Abs(j.axisY) > StickDeadzone then s1.(y := j.axisY, status := if j.axisY > 0.0 then Down else Up)
      else s1;
    var s3 :=
      if j.hatX > 0 then s2.(x := 1.0, status := Right)
      else if j.hatX < 0 then s2.(x := -1.0, status := Left)
      else s2;
    if j.hatY > 0 then s3.(y := 1.0, status := Up)
    else if j.hatY < 0 then s3.(y := -1.0, status := Down)
    else s3
  }

  /** Player.input: the keyboard stage, then every controller in order. */
  function InputSteering(keys: Keys, joys: seq<Joystick>, status: Status): Steering
  {
    if joys == [] then KeyboardSteering(keys, status)
    else JoystickSteering(InputSteering(keys, joys[..|joys| - 1], status), joys[|joys| - 1])
  }

  /** A controller whose stick and D-pad are idle on the x axis. */
  predicate IdleX(j: Joystick) { j.hatX == 0 && Abs(j.axisX) <= StickDeadzone }

  predicate IdleY(j: Joystick) { j.hatY == 0 && Abs(j.axisY) <= StickDeadzone }

  /** When no controller moves an axis, the keyboard decides it. */
  lemma {:induction false} KeyboardDecidesIdleAxes(keys: Keys, joys: seq<Joystick>, status: Status)
    ensures (forall k :: 0 <= k < |joys| ==> IdleX(joys[k])) ==>
      InputSteering(keys, joys, status).x == KeyboardSteering(keys, status).x
    ensures (forall k :: 0 <= k < |joys| ==> IdleY(joys[k])) ==>
      InputSteering(keys, joys, status).y == KeyboardSteering(keys, status).y
  {
    if joys != [] {
      KeyboardDecidesIdleAxes(keys, joys[..|joys| - 1], status);
    }
  }

  /** With every stick reading within [-1, 1], the direction is within [-1, 1]^2. */
  lemma {:induction false} SteeringBounded(keys: Keys, joys: seq<Joystick>, status: Status)
    requires forall k :: 0 <= k < |joys| ==> -1.0 <= joys[k].axisX <= 1.0 && -1.0 <= joys[k].axisY <= 1.0
    ensures var s := InputSteering(keys, joys, status); -1.0 <= s.x <= 1.0 && -1.0 <= s.y <= 1.0
  {
    if joys != [] {
      SteeringBounded(keys, joys[..|joys| - 1], status);
    }
  }

  /** A controller whose D-pad is pushed on an axis decides that axis when every
      later controller is idle on it; a later stick or D-pad overrides it. */
  lemma {:induction false} LastHatWins(keys: Keys, joys: seq<Joystick>, status: Status, k: nat)
    requires k < |joys|
    ensures joys[k].hatX != 0 && (forall j :: k < j < |joys| ==> IdleX(joys[j])) ==>
      InputSteering(keys, joys, status).x == if joys[k].hatX > 0 then 1.0 else -1.0
    ensures joys[k].hatY != 0 && (forall j :: k < j < |joys| ==> IdleY(joys[j])) ==>
      InputSteering(keys, joys, status).y == if joys[k].hatY > 0 then 1.0 else -1.0
  {
    var init := joys[..|joys| - 1];
    if k < |init| {
      LastHatWins(keys, init, status, k);
      assert init[k] == joys[k];
      assert forall j :: k < j < |init| ==> init[j] == joys[j];
    }
  }

  /** A pygame obstacle sprite as the collision code sees it. */
  datatype Obstacle = Obstacle(hitbox: Rect, isCar: bool)

  /** The player's hitbox, rect and the position coordinate along the axis being resolved. */
  datatype Placement = Placement(hitbox: Rect, rect: Rect, pos: real)

  /** Setting the hitbox, then rect.centerx and pos.x from it. */
  function PlacedX(p: Placement, hb: Rect): (r: Placement)
    ensures r.hitbox == hb && r.rect.CenterX() == hb.CenterX() && r.pos == hb.CenterX() as real
    ensures r.rect.y == p.rect.y && r.rect.w == p.rect.w && r.rect.h == p.rect.h
  {
    Placement(hb, p.rect.WithCenterX(hb.CenterX()), hb.CenterX() as real)
  }

  function PlacedY(p: Placement, hb: Rect): (r: Placement)
    ensures r.hitbox == hb && r.rect.CenterY() == hb.CenterY() && r.pos == hb.CenterY() as real
    ensures r.rect.x == p.rect.x && r.rect.w == p.rect.w && r.rect.h == p.rect.h
  {
    Placement(hb, p.rect.WithCenterY(hb.CenterY()), hb.CenterY() as real)
  }

  /** Horizontal collision with one obstacle: None when it is a car that touches
      the hitbox; otherwise, when they touch, the hitbox is pushed against the
      obstacle's near side for the direction of travel. */
  function PushX(p: Placement, dirX: real, o: Obstacle): (r: Option<Placement>)
    ensures r.None? <==> Overlaps(o.hitbox, p.hitbox) && o.isCar
    ensures !Overlaps(o.hitbox, p.hitbox) || dirX == 0.0 ==> r.None? || r == Some(p)
    ensures r.Some? && Overlaps(o.hitbox, p.hitbox) && dirX > 0.0 ==>
      r.value.hitbox.Right() == o.hitbox.Left() && !Overlaps(o.hitbox, r.value.hitbox)
    ensures r.Some? && Overlaps(o.hitbox, p.hitbox) && dirX < 0.0 ==>
      r.value.hitbox.Left() == o.hitbox.Right() && !Overlaps(o.hitbox, r.value.hitbox)
  {
    if !Overlaps(o.hitbox, p.hitbox) then Some(p)
    else if o.isCar then None
    else
      var p1 := if dirX > 0.0 then PlacedX(p, p.hitbox.WithRight(o.hitbox.Left())) else p;
      var p2 := if dirX < 0.0 then PlacedX(p1, p1.hitbox.WithLeft(o.hitbox.Right())) else p1;
      Some(p2)
  }

  function PushY(p: Placement, dirY: real, o: Obstacle): (r: Option<Placement>)
    ensures r.None? <==> Overlaps(o.hitbox, p.hitbox) && o.isCar
    ensures !Overlaps(o.hitbox, p.hitbox) || dirY == 0.0 ==> r.None? || r == Some(p)
    ensures r.Some? && Overlaps(o.hitbox, p.hitbox) && dirY > 0.0 ==>
      r.value.hitbox.Bottom() == o.hitbox.Top() && !Overlaps(o.hitbox, r.value.hitbox)
    ensures r.Some? && Overlaps(o.hitbox, p.hitbox) && dirY < 0.0 ==>
      r.value.hitbox.Top() == o.hitbox.Bottom() && !Overlaps(o.hitbox, r.value.hitbox)
  {
    if !Overlaps(o.hitbox, p.hitbox) then Some(p)
    else if o.isCar then None
    else
      var p1 := if dirY > 0.0 then PlacedY(p, p.hitbox.WithBottom(o.hitbox.Top())) else p;
      var p2 := if dirY < 0.0 then PlacedY(p1, p1.hitbox.WithTop(o.hitbox.Bottom())) else p1;
      Some(p2)
  }

  /** collision('horizontal'): the obstacles in order; None once a car is touched. */
  function CollideX(p: Placement, dirX: real, os: seq<Obstacle>): Option<Placement>
  {
    if os == [] then Some(p)
    else match CollideX(p, dirX, os[..|os| - 1])
      case None => None
      case Some(q) => PushX(q, dirX, os[|os| - 1])
  }

  function CollideY(p: Placement, dirY: real, os: seq<Obstacle>): Option<Placement>
  {
    if os == [] then Some(p)
    else match CollideY(p, dirY, os[..|os| - 1])
      case None => None
      case Some(q) => PushY(q, dirY, os[|os| - 1])
  }

  /** Once a car has been touched, no later obstacle undoes it. */
  lemma {:induction false} CollideXCrashSticks(p: Placement, dirX: real, os: seq<Obstacle>, i: nat)
    requires i <= |os| && CollideX(p, dirX, os[..i]).None?
    ensures CollideX(p, dirX, os).None?
  {
    if i < |os| {
      assert os[..|os| - 1][..i] == os[..i];
      CollideXCrashSticks(p, dirX, os[..|os| - 1], i);
    } else {
      assert os[..i] == os;
    }
  }

  lemma {:induction false} CollideYCrashSticks(p: Placement, dirY: real, os: seq<Obstacle>, i: nat)
    requires i <= |os| && CollideY(p, dirY, os[..i]).None?
    ensures CollideY(p, dirY, os).None?
  {
    if i < |os| {
      assert os[..|os| - 1][..i] == os[..i];
      CollideYCrashSticks(p, dirY, os[..|os| - 1], i);
    } else {
      assert os[..i] == os;
    }
  }

  /** Horizontal resolution keeps the hitbox's vertical extent and size and the rect's
      size and row, and leaves rect.centerx equal to hitbox.centerx when it was. */
  lemma {:induction false} CollideXShape(p: Placement, dirX: real, os: seq<Obstacle>)
    ensures var r := CollideX(p, dirX, os);
      r.Some? ==>
        r.value.hitbox.y == p.hitbox.y && r.value.hitbox.w == p.hitbox.w && r.value.hitbox.h == p.hitbox.h &&
        r.value.rect.y == p.rect.y && r.value.rect.w == p.rect.w && r.value.rect.h == p.rect.h &&
        (p.rect.CenterX() == p.hitbox.CenterX() ==> r.value.rect.CenterX() == r.value.hitbox.CenterX())
  {
    if os != [] {
      CollideXShape(p, dirX, os[..|os| - 1]);
    }
  }

  lemma {:induction false} CollideYShape(p: Placement, dirY: real, os: seq<Obstacle>)
    ensures var r := CollideY(p, dirY, os);
      r.Some? ==>
        r.value.hitbox.x == p.hitbox.x && r.value.hitbox.w == p.hitbox.w && r.value.hitbox.h == p.hitbox.h &&
        r.value.rect.x == p.rect.x && r.value.rect.w == p.rect.w && r.value.rect.h == p.rect.h &&
        (p.rect.CenterY() == p.hitbox.CenterY() ==> r.value.rect.CenterY() == r.value.hitbox.CenterY())
  {
    if os != [] {
      CollideYShape(p, dirY, os[..|os| - 1]);
    }
  }

  /** Standing still on an axis, resolution never moves the player, and it ends the
      game exactly when some car touches the hitbox. */
  lemma {:induction false} CollideXIdle(p: Placement, os: seq<Obstacle>)
    ensures var r := CollideX(p, 0.0, os);
      (r.None? || r == Some(p)) &&
      (r.None? <==> exists k :: 0 <= k < |os| && os[k].isCar && Overlaps(os[k].hitbox, p.hitbox))
  {
    if os != [] {
      var init := os[..|os| - 1];
      CollideXIdle(p, init);
      if CollideX(p, 0.0, init).None? {
        var k :| 0 <= k < |init| && init[k].isCar && Overlaps(init[k].hitbox, p.hitbox);
        assert os[k] == init[k];
      }
      forall k | 0 <= k < |init| ensures os[k] == init[k] { }
    }
  }

  lemma {:induction false} CollideYIdle(p: Placement, os: seq<Obstacle>)
    ensures var r := CollideY(p, 0.0, os);
      (r.None? || r == Some(p)) &&
      (r.None? <==> exists k :: 0 <= k < |os| && os[k].isCar && Overlaps(os[k].hitbox, p.hitbox))
  {
    if os != [] {
      var init := os[..|os| - 1];
      CollideYIdle(p, init);
      if CollideY(p, 0.0, init).None? {
        var k :| 0 <= k < |init| && init[k].isCar && Overlaps(init[k].hitbox, p.hitbox);
        assert os[k] == init[k];
      }
      forall k | 0 <= k < |init| ensures os[k] == init[k] { }
    }
  }

  /** The player's geometry: hitbox, rect and the float position. */
  datatype Pose = Pose(hitbox: Rect, rect: Rect, posX: real, posY: real)

  /** One coordinate of pos after a step of dt seconds at Speed along d. */
  function Advanced(p: real, d: real, dt: real): real
  {
    p + d * Speed * dt
  }

  /** Step pos.x and put both centres at round(pos.x). */
  function SteppedX(pose: Pose, dirX: real, dt: real): Placement
  {
    var x := Advanced(pose.posX, dirX, dt);
    var hb := pose.hitbox.WithCenterX(RoundHalfEven(x));
    Placement(hb, pose.rect.WithCenterX(hb.CenterX()), x)
  }

  function SteppedY(pose: Pose, dirY: real, dt: real): Placement
  {
    var y := Advanced(pose.posY, dirY, dt);
    var hb := pose.hitbox.WithCenterY(RoundHalfEven(y));
    Placement(hb, pose.rect.WithCenterY(hb.CenterY()), y)
  }

  /** move's horizontal half: step, then resolve the collisions. */
  function StepX(pose: Pose, dirX: real, dt: real, os: seq<Obstacle>): Option<Pose>
  {
    match CollideX(SteppedX(pose, dirX, dt), dirX, os)
    case None => None
    case Some(q) => Some(pose.(hitbox := q.hitbox, rect := q.rect, posX := q.pos))
  }

  function StepY(pose: Pose, dirY: real, dt: real, os: seq<Obstacle>): Option<Pose>
  {
    match CollideY(SteppedY(pose, dirY, dt), dirY, os)
    case None => None
    case Some(q) => Some(pose.(hitbox := q.hitbox, rect := q.rect, posY := q.pos))
  }

  /** Player.move after normalisation: horizontal step and collision, then vertical. */
  function MoveSpec(pose: Pose, dirX: real, dirY: real, dt: real, os: seq<Obstacle>): Option<Pose>
  {
    match StepX(pose, dirX, dt, os)
    case None => None
    case Some(p) => StepY(p, dirY, dt, os)
  }

  /** After a move that does not end the game, the rect is centred on the hitbox on
      both axes, whatever it was before, and neither changed size. */
  lemma MoveAlignsCentres(pose: Pose, dirX: real, dirY: real, dt: real, os: seq<Obstacle>)
    ensures var r := MoveSpec(pose, dirX, dirY, dt, os);
      r.Some? ==>
        r.value.rect.CenterX() == r.value.hitbox.CenterX() &&
        r.value.rect.CenterY() == r.value.hitbox.CenterY() &&
        r.value.rect.w == pose.rect.w && r.value.rect.h == pose.rect.h &&
        r.value.hitbox.w == pose.hitbox.w && r.value.hitbox.h == pose.hitbox.h
  {
    CollideXShape(SteppedX(pose, dirX, dt), dirX, os);
    var sx := StepX(pose, dirX, dt, os);
    if sx.Some? {
      CollideYShape(SteppedY(sx.value, dirY, dt), dirY, os);
    }
  }

  /** The animation step: frame_index advances by 10 * dt while moving and wraps to 0
      at the animation's length; standing still resets it. */
  function NextFrameIndex(fi: real, moving: bool, dt: real, count: nat): (r: real)
    requires fi >= 0.0 && dt >= 0.0 && count > 0
    ensures 0.0 <= r < count as real
    ensures !moving ==> r == 0.0
    ensures moving && fi + AnimationRate * dt < count as real ==> r == fi + AnimationRate * dt
  {
    if moving then
      var f := fi + AnimationRate * dt;
      if f >= count as real then 0.0 else f
    else 0.0
  }

  /** restrict's outcome: the pose and the vertical direction. */
  datatype Restriction = Restriction(pose: Pose, dirY: real)

  /** The left edge clamp: the rect and hitbox start at x = 640 and pos.x is the
      rect's centre there. */
  function ClampedLeft(p: Pose): Pose
  {
    if p.rect.Left() < AreaLeft then
      Pose(p.hitbox.WithLeft(AreaLeft), p.rect.WithLeft(AreaLeft), AreaLeft as real + p.rect.w as real / 2.0, p.posY)
    else p
  }

  /** The right edge clamp at x = 2560. */
  function ClampedRight(p: Pose): Pose
  {
    if p.rect.Right() > AreaRight then
      Pose(p.hitbox.WithRight(AreaRight), p.rect.WithRight(AreaRight), AreaRight as real - p.rect.w as real / 2.0, p.posY)
    else p
  }

  /** The bottom clamp at y = 3500: the hitbox follows the rect's vertical centre. */
  function ClampedBottom(p: Pose): Pose
  {
    if p.rect.Bottom() > AreaBottom then
      var r := p.rect.WithBottom(AreaBottom);
      Pose(p.hitbox.WithCenterY(r.CenterY()), r, p.posX, AreaBottom as real - p.rect.h as real / 2.0)
    else p
  }

  /** Player.restrict: the three clamps, then below y = 1180 upward motion stops and
      pos.y is raised to at least 1180 plus half the rect's height. */
  function Restricted(p: Pose, dirY: real): Restriction
  {
    var q := ClampedBottom(ClampedRight(ClampedLeft(p)));
    if q.posY > NoReturnY as real && dirY < 0.0 then
      var floor := NoReturnY as real + q.rect.h as real / 2.0;
      Restriction(q.(posY := if q.posY < floor then floor else q.posY), 0.0)
    else Restriction(q, dirY)
  }

  /** What restrict guarantees: sizes kept, the rect inside x <= 2560 and y <= 3500
      (and x >= 640 when it fits), no upward motion below y = 1180, an already
      inside pose kept apart from pos.y, and a hitbox still sharing the rect's
      width and horizontal centre. */
  lemma RestrictedBounds(p: Pose, dirY: real)
    ensures var r := Restricted(p, dirY);
      r.pose.rect.w == p.rect.w && r.pose.rect.h == p.rect.h &&
      r.pose.hitbox.w == p.hitbox.w && r.pose.hitbox.h == p.hitbox.h &&
      r.pose.rect.Right() <= AreaRight && r.pose.rect.Bottom() <= AreaBottom &&
      (p.rect.w <= AreaRight - AreaLeft ==> r.pose.rect.Left() >= AreaLeft) &&
      (r.pose.posY > NoReturnY as real ==> r.dirY >= 0.0) &&
      (r.dirY == dirY || (dirY < 0.0 && r.dirY == 0.0))
    ensures var r := Restricted(p, dirY);
      p.rect.Left() >= AreaLeft && p.rect.Right() <= AreaRight && p.rect.Bottom() <= AreaBottom ==>
        r.pose.rect == p.rect && r.pose.hitbox == p.hitbox && r.pose.posX == p.posX
    ensures var r := Restricted(p, dirY);
      p.hitbox.w == p.rect.w && p.hitbox.CenterX() == p.rect.CenterX() ==>
        r.pose.hitbox.CenterX() == r.pose.rect.CenterX()
  {
  }

  /** The player's moving parts: its pose, direction, status and animation frame. */
  datatype Motion = Motion(pose: Pose, dirX: real, dirY: real, status: Status, frameIndex: real)

  /** Player.update: input, then move with the direction normalised by its length
      mag, then animate and restrict. None when move touched a car, which ends the
      game before animate and restrict run. */
  function Updated(m: Motion, dt: real, keys: Keys, joys: seq<Joystick>, mag: real, os: seq<Obstacle>,
                   frameCount: Status -> nat): Option<Motion>
    requires m.frameIndex >= 0.0 && dt >= 0.0 && forall s: Status :: frameCount(s) > 0
  {
    var st := InputSteering(keys, joys, m.status);
    var dx := if mag == 0.0 then st.x else st.x / mag;
    var dy := if mag == 0.0 then st.y else st.y / mag;
    match MoveSpec(m.pose, dx, dy, dt, os)
    case None => None
    case Some(p) =>
      var r := Restricted(p, dy);
      Some(Motion(r.pose, dx, r.dirY, st.status, NextFrameIndex(m.frameIndex, dx != 0.0 || dy != 0.0, dt, frameCount(st.status))))
  }

  /** Updated given the normalised direction (dx, dy): it fails exactly when the
      move does, and otherwise restricts the moved pose and advances the frame. */
  lemma UpdatedParts(m: Motion, dt: real, keys: Keys, joys: seq<Joystick>, mag: real, os: seq<Obstacle>,
                     frameCount: Status -> nat, dx: real, dy: real)
    requires m.frameIndex >= 0.0 && dt >= 0.0 && forall s: Status :: frameCount(s) > 0
    requires var st := InputSteering(keys, joys, m.status);
      dx == (if mag == 0.0 then st.x else st.x / mag) && dy == (if mag == 0.0 then st.y else st.y / mag)
    ensures var u := Updated(m, dt, keys, joys, mag, os, frameCount);
      var mv := MoveSpec(m.pose, dx, dy, dt, os);
      var status := InputSteering(keys, joys, m.status).status;
      (u.None? <==> mv.None?) &&
      (mv.Some? ==> u.value == Motion(Restricted(mv.value, dy).pose, dx, Restricted(mv.value, dy).dirY, status,
        NextFrameIndex(m.frameIndex, dx != 0.0 || dy != 0.0, dt, frameCount(status))))
  {
  }

  class Player {
    var posX: real
    var posY: real
    var dirX: real
    var dirY: real
    var status: Status
    var frameIndex: real
    var rect: Rect
    var hitbox: Rect
    /** Set when a car was touched: the source quits the game at that point. */
    var crashed: bool
    /** The number of images in each animation folder. */
    const frameCount: Status -> nat

    /** The hitbox shares the rect's width and horizontal centre (until a crash
        stops the game part-way through a move). */
    ghost predicate Valid()
      reads this
    {
      (forall s: Status :: frameCount(s) > 0) &&
      frameIndex >= 0.0 &&
      (crashed || (hitbox.w == rect.w && hitbox.CenterX() == rect.CenterX()))
    }

    function CurrentPose(): Pose
      reads this
    {
      Pose(hitbox, rect, posX, posY)
    }

    function CurrentMotion(): Motion
      reads this
    {
      Motion(CurrentPose(), dirX, dirY, status, frameIndex)
    }

    /** Player((x, y), ...): the first 'down' image centred at (x, y), standing still,
        with the half-height hitbox. */
    constructor (x: int, y: int, w: nat, h: nat, frameCount: Status -> nat)
      requires forall s: Status :: frameCount(s) > 0
      ensures Valid() && !crashed
      ensures rect == CenteredAt(x, y, w, h) && hitbox == HalfHeightHitbox(rect)
      ensures posX == x as real && posY == y as real
      ensures dirX == 0.0 && dirY == 0.0 && status == Down && frameIndex == 0.0
      ensures this.frameCount == frameCount
    {
      rect := CenteredAt(x, y, w, h);
      hitbox := HalfHeightHitbox(CenteredAt(x, y, w, h));
      posX := x as real;
      posY := y as real;
      dirX := 0.0;
      dirY := 0.0;
      status := Down;
      frameIndex := 0.0;
      crashed := false;
      this.frameCount := frameCount;
    }

    /** Player.input over the connected controllers. */
    method Input(keys: Keys, joys: seq<Joystick>)
      modifies this`dirX, this`dirY, this`status
      ensures Steering(dirX, dirY, status) == InputSteering(keys, joys, old(status))
    {
      dirX := 0.0;
      dirY := 0.0;
      if keys.right {
        dirX := 1.0;
        status := Right;
      } else if keys.left {
        dirX := -1.0;
        status := Left;
      }
      if keys.up {
        dirY := -1.0;
        status := Up;
      } else if keys.down {
        dirY := 1.0;
        status := Down;
      }
      var i := 0;
      while i < |joys|
        invariant 0 <= i <= |joys|
        invariant Steering(dirX, dirY, status) == InputSteering(keys, joys[..i], old(status))
      {
        assert joys[..i + 1][..i] == joys[..i];
        var j := joys[i];
        if Abs(j.axisX) > StickDeadzone {
          dirX := j.axisX;
          status := if j.axisX > 0.0 then Right else Left;
        }
        if Abs(j.axisY) > StickDeadzone {
          dirY := j.axisY;
          status := if j.axisY > 0.0 then Down else Up;
        }
        if j.hatX > 0 {
          dirX := 1.0;
          status := Right;
        } else if j.hatX < 0 {
          dirX := -1.0;
          status := Left;
        }
        if j.hatY > 0 {
          dirY := 1.0;
          status := Up;
        } else if j.hatY < 0 {
          dirY := -1.0;
          status := Down;
        }
        i := i + 1;
      }
      assert joys[..i] == joys;
    }

    /** collision('horizontal') over the obstacle sprites. */
    method CollideHorizontal(obstacles: seq<Obstacle>)
      requires !crashed
      modifies this`hitbox, this`rect, this`posX, this`crashed
      ensures var r := CollideX(Placement(old(hitbox), old(rect), old(posX)), dirX, obstacles);
        (crashed <==> r.None?) && (!crashed ==> Placement(hitbox, rect, posX) == r.value)
    {
      ghost var start := Placement(hitbox, rect, posX);
      var i := 0;
      while i < |obstacles|
        invariant 0 <= i <= |obstacles| && !crashed
        invariant CollideX(start, dirX, obstacles[..i]) == Some(Placement(hitbox, rect, posX))
      {
        assert obstacles[..i + 1][..i] == obstacles[..i];
        var o := obstacles[i];
        if Overlaps(o.hitbox, hitbox) {
          if o.isCar {
            crashed := true;
            CollideXCrashSticks(start, dirX, obstacles, i + 1);
            return;
          }
          if dirX > 0.0 {
            hitbox := hitbox.WithRight(o.hitbox.Left());
            rect := rect.WithCenterX(hitbox.CenterX());
            posX := hitbox.CenterX() as real;
          }
          if dirX < 0.0 {
            hitbox := hitbox.WithLeft(o.hitbox.Right());
            rect := rect.WithCenterX(hitbox.CenterX());
            posX := hitbox.CenterX() as real;
          }
        }
        i := i + 1;
      }
      assert obstacles[..i] == obstacles;
    }

    /** collision('vertical') over the obstacle sprites. */
    method CollideVertical(obstacles: seq<Obstacle>)
      requires !crashed
      modifies this`hitbox, this`rect, this`posY, this`crashed
      ensures var r := CollideY(Placement(old(hitbox), old(rect), old(posY)), dirY, obstacles);
        (crashed <==> r.None?) && (!crashed ==> Placement(hitbox, rect, posY) == r.value)
    {
      ghost var start := Placement(hitbox, rect, posY);
      var i := 0;
      while i < |obstacles|
        invariant 0 <= i <= |obstacles| && !crashed
        invariant CollideY(start, dirY, obstacles[..i]) == Some(Placement(hitbox, rect, posY))
      {
        assert obstacles[..i + 1][..i] == obstacles[..i];
        var o := obstacles[i];
        if Overlaps(o.hitbox, hitbox) {
          if o.isCar {
            crashed := true;
            CollideYCrashSticks(start, dirY, obstacles, i + 1);
            return;
          }
          if dirY > 0.0 {
            hitbox := hitbox.WithBottom(o.hitbox.Top());
            rect := rect.WithCenterY(hitbox.CenterY());
            posY := hitbox.CenterY() as real;
          }
          if dirY < 0.0 {
            hitbox := hitbox.WithTop(o.hitbox.Bottom());
            rect := rect.WithCenterY(hitbox.CenterY());
            posY := hitbox.CenterY() as real;
          }
        }
        i := i + 1;
      }
      assert obstacles[..i] == obstacles;
    }

    /** move's horizontal half. */
    method MoveHorizontal(dt: real, obstacles: seq<Obstacle>)
      requires !crashed
      modifies this`hitbox, this`rect, this`posX, this`crashed
      ensures var r := StepX(old(CurrentPose()), dirX, dt, obstacles);
        (crashed <==> r.None?) && (!crashed ==> CurrentPose() == r.value)
    {
      var x := Advanced(posX, dirX, dt);
      var hb := hitbox.WithCenterX(RoundHalfEven(x));
      var r := rect.WithCenterX(hb.CenterX());
      assert Placement(hb, r, x) == SteppedX(CurrentPose(), dirX, dt);
      posX, hitbox, rect := x, hb, r;
      CollideHorizontal(obstacles);
    }

    /** move's vertical half. */
    method MoveVertical(dt: real, obstacles: seq<Obstacle>)
      requires !crashed
      modifies this`hitbox, this`rect, this`posY, this`crashed
      ensures var r := StepY(old(CurrentPose()), dirY, dt, obstacles);
        (crashed <==> r.None?) && (!crashed ==> CurrentPose() == r.value)
    {
      var y := Advanced(posY, dirY, dt);
      var hb := hitbox.WithCenterY(RoundHalfEven(y));
      var r := rect.WithCenterY(hb.CenterY());
      assert Placement(hb, r, y) == SteppedY(CurrentPose(), dirY, dt);
      posY, hitbox, rect := y, hb, r;
      CollideVertical(obstacles);
    }

    /** Player.move: normalise a non-zero direction (mag is its length), then the
        horizontal step and collision, then the vertical ones. */
    method Move(dt: real, mag: real, obstacles: seq<Obstacle>)
      requires !crashed
      requires mag >= 0.0 && mag * mag == dirX * dirX + dirY * dirY
      modifies this`dirX, this`dirY, this`hitbox, this`rect, this`posX, this`posY, this`crashed
      ensures mag == 0.0 ==> dirX == old(dirX) && dirY == old(dirY)
      ensures mag != 0.0 ==> dirX == old(dirX) / mag && dirY == old(dirY) / mag
      ensures var r := MoveSpec(old(CurrentPose()), dirX, dirY, dt, obstacles);
        (crashed <==> r.None?) && (!crashed ==> CurrentPose() == r.value)
    {
      if mag != 0.0 {
        dirX := dirX / mag;
        dirY := dirY / mag;
      }
      MoveHorizontal(dt, obstacles);
      if crashed {
        return;
      }
      MoveVertical(dt, obstacles);
    }

    /** Player.animate, frame index only. */
    method Animate(dt: real)
      requires Valid() && dt >= 0.0
      modifies this`frameIndex
      ensures Valid()
      ensures frameIndex == NextFrameIndex(old(frameIndex), dirX != 0.0 || dirY != 0.0, dt, frameCount(status))
      ensures 0.0 <= frameIndex < frameCount(status) as real
    {
      if dirX != 0.0 || dirY != 0.0 {
        frameIndex := frameIndex + AnimationRate * dt;
        if frameIndex >= frameCount(status) as real {
          frameIndex := 0.0;
        }
      } else {
        frameIndex := 0.0;
      }
    }

    /** Player.restrict: keep the rect within x in [640, 2560] and above y = 3500, and
        stop upward motion below y = 1180. */
    method Restrict()
      requires Valid()
      modifies this`posX, this`posY, this`dirY, this`hitbox, this`rect
      ensures Valid()
      ensures Restriction(CurrentPose(), dirY) == Restricted(old(CurrentPose()), old(dirY))
      ensures rect.Right() <= AreaRight && rect.Bottom() <= AreaBottom
      ensures rect.w <= AreaRight - AreaLeft ==> rect.Left() >= AreaLeft
      ensures posY > NoReturnY as real ==> dirY >= 0.0
    {
      ghost var p0, d0 := CurrentPose(), dirY;
      var r, hb, x, y, dy := rect, hitbox, posX, posY, dirY;
      if r.Left() < AreaLeft {
        x := AreaLeft as real + r.w as real / 2.0;
        hb := hb.WithLeft(AreaLeft);
        r := r.WithLeft(AreaLeft);
      }
      if r.Right() > AreaRight {
        x := AreaRight as real - r.w as real / 2.0;
        hb := hb.WithRight(AreaRight);
        r := r.WithRight(AreaRight);
      }
      if r.Bottom() > AreaBottom {
        y := AreaBottom as real - r.h as real / 2.0;
        r := r.WithBottom(AreaBottom);
        hb := hb.WithCenterY(r.CenterY());
      }
      if y > NoReturnY as real && dy < 0.0 {
        dy := 0.0;
        y := if y < NoReturnY as real + r.h as real / 2.0 then NoReturnY as real + r.h as real / 2.0 else y;
      }
      rect, hitbox, posX, posY, dirY := r, hb, x, y, dy;
      assert Restriction(CurrentPose(), dirY) == Restricted(p0, d0);
      RestrictedBounds(p0, d0);
    }

    /** Player.update: input, move, animate, restrict. A car contact ends the game
        in the middle of move; nothing after it runs. */
    method Update(dt: real, keys: Keys, joys: seq<Joystick>, mag: real, obstacles: seq<Obstacle>)
      requires Valid() && !crashed && dt >= 0.0
      requires var s := InputSteering(keys, joys, status); mag >= 0.0 && mag * mag == s.x * s.x + s.y * s.y
      modifies this
      ensures Valid()
      ensures var u := Updated(old(CurrentMotion()), dt, keys, joys, mag, obstacles, frameCount);
        (crashed <==> u.None?) && (!crashed ==> CurrentMotion() == u.value)
      ensures status == InputSteering(keys, joys, old(status)).status
      ensures !crashed ==> rect.Right() <= AreaRight && rect.Bottom() <= AreaBottom
      ensures !crashed && rect.w <= AreaRight - AreaLeft ==> rect.Left() >= AreaLeft
      ensures !crashed ==> 0.0 <= frameIndex < frameCount(status) as real
      ensures !crashed && posY > NoReturnY as real ==> dirY >= 0.0
    {
      ghost var start := CurrentMotion();
      Input(keys, joys);
      ghost var pose := CurrentPose();
      Move(dt, mag, obstacles);
      UpdatedParts(start, dt, keys, joys, mag, obstacles, frameCount, dirX, dirY);
      if crashed {
        return;
      }
      MoveAlignsCentres(pose, dirX, dirY, dt, obstacles);
      Animate(dt);
      Restrict();
    }
  }
}
