/**
 * Asteroid Shooter (the "Meteor Shooter" window): a ship in a 1280 x 720 window,
 * steered by the first controller's left stick (through a dead zone) or else by the
 * mouse, fires lasers upward with a 400 ms cooldown; meteors fall from above. A
 * laser and a meteor that touch destroy each other; a meteor touching the ship
 * (rectangle and pixel mask) ends the game until it is restarted.
 *
 * Clock readings are integer milliseconds. Pixel-mask overlap is a parameter
 * `maskHit` over the offset between the two images, consulted only after the
 * rectangles collide, as in the source.
 */
module AsteroidShooter {
  import opened Common
  import opened Geometry

  const WindowWidth: int := 1280
  const WindowHeight: int := 720
  const Deadzone: real := 0.2
  const ShipSpeed: int := 800
  const LaserSpeed: int := 300
  const MeteorSpeed: int := 200
  const LaserCooldownMs: int := 400

  function Window(): Rect { Rect(0, 0, WindowWidth, WindowHeight) }

  /** A meteor: its rectangle and the x part of its direction (the y part is 1). */
  datatype Meteor = Meteor(rect: Rect, dirX: real)

  /** laser_update's move: up by speed * dt (300 pixels per second). */
  function MovedLaser(r: Rect, dt: real): Rect
  {
    r.(y := Trunc(r.y as real - LaserSpeed as real * dt))
  }

  function MovedLasers(ls: seq<Rect>, dt: real): (r: seq<Rect>)
    ensures |r| == |ls| && forall i :: 0 <= i < |ls| ==> r[i] == MovedLaser(ls[i], dt)
  {
    seq(|ls|, i requires 0 <= i < |ls| => MovedLaser(ls[i], dt))
  }

  /** A laser is dropped once its bottom is above the window (bottom < 0). */
  predicate LaserOnScreen(r: Rect) { r.Bottom() >= 0 }

  /** laser_update's result: the moved lasers still on screen, in their order. */
  function LaserUpdate(ls: seq<Rect>, dt: real): seq<Rect>
  {
    Filter(LaserOnScreen, MovedLasers(ls, dt))
  }

  /** A laser survives laser_update exactly when, once moved, it is still on screen. */
  lemma LaserUpdateKeepsExactly(ls: seq<Rect>, dt: real, r: Rect)
    ensures r in LaserUpdate(ls, dt) <==>
      r.Bottom() >= 0 && exists i :: 0 <= i < |ls| && r == MovedLaser(ls[i], dt)
  {
    FilterKeepsExactly(LaserOnScreen, MovedLasers(ls, dt), r);
  }

  /** meteor_update's move: the centre moves by direction * speed * dt. */
  function MovedMeteor(m: Meteor, dt: real): Meteor
  {
    var speed := MeteorSpeed as real * dt;
    m.(rect := m.rect.WithCenter(
      Trunc(m.rect.CenterX() as real + m.dirX * speed),
      Trunc(m.rect.CenterY() as real + speed)))
  }

  function MovedMeteors(ms: seq<Meteor>, dt: real): (r: seq<Meteor>)
    ensures |r| == |ms| && forall i :: 0 <= i < |ms| ==> r[i] == MovedMeteor(ms[i], dt)
  {
    seq(|ms|, i requires 0 <= i < |ms| => MovedMeteor(ms[i], dt))
  }

  /** A meteor is dropped once its top is below the window (top > 720). */
  predicate MeteorOnScreen(m: Meteor) { m.rect.Top() <= WindowHeight }

  function MeteorUpdate(ms: seq<Meteor>, dt: real): seq<Meteor>
  {
    Filter(MeteorOnScreen, MovedMeteors(ms, dt))
  }

  /** A meteor survives meteor_update exactly when, once moved, its top is within the window. */
  lemma MeteorUpdateKeepsExactly(ms: seq<Meteor>, dt: real, m: Meteor)
    ensures m in MeteorUpdate(ms, dt) <==>
      m.rect.Top() <= WindowHeight && exists i :: 0 <= i < |ms| && m == MovedMeteor(ms[i], dt)
  {
    FilterKeepsExactly(MeteorOnScreen, MovedMeteors(ms, dt), m);
  }

  /** laser_cooldown: a cleared flag is set again strictly after `duration` ms have
      passed since the last shot; a set flag is never cleared. */
  function LaserCooldown(canShoot: bool, now: int, shootTime: int, duration: int): (r: bool)
    ensures canShoot ==> r
    ensures !canShoot ==> (r <==> now - shootTime > duration)
  {
    if !canShoot && now - shootTime > duration then true else canShoot
  }

  /** The dead-zone remap of one stick axis: inside the dead zone 0, outside it the
      deflection beyond the dead zone, with the axis' sign. */
  function DeadzoneRemap(a: real): (r: real)
    ensures Abs(a) < Deadzone ==> r == 0.0
    ensures Abs(a) >= Deadzone ==> Abs(r) == Abs(a) - Deadzone
    ensures r * a >= 0.0
    ensures -1.0 <= a <= 1.0 ==> -1.0 + Deadzone <= r <= 1.0 - Deadzone
  {
    if Abs(a) < Deadzone then 0.0
    else
      var sign := a / Abs(a);
      assert sign == if a > 0.0 then 1.0 else -1.0;
      (Abs(a) - Deadzone) * sign
  }

  /** The remap is monotone: a larger deflection never gives a smaller output. */
  lemma DeadzoneMonotone(a: real, b: real)
    requires a <= b
    ensures DeadzoneRemap(a) <= DeadzoneRemap(b)
  {
    if Abs(a) >= Deadzone {
      assert a / Abs(a) == (if a > 0.0 then 1.0 else -1.0);
    }
    if Abs(b) >= Deadzone {
      assert b / Abs(b) == (if b > 0.0 then 1.0 else -1.0);
    }
  }

  /** With a stick deflection in [-1, 1], one frame moves the ship at most
      (1 - 0.2) * 800 = 640 pixels per second along that axis. */
  lemma StickStepBound(a: real, dt: real)
    requires -1.0 <= a <= 1.0 && dt >= 0.0
    ensures Abs(Trunc(DeadzoneRemap(a) * ShipSpeed as real * dt) as real) <= 640.0 * dt
  {
    var d := DeadzoneRemap(a);
    var v := d * ShipSpeed as real * dt;
    assert -0.8 <= d <= 0.8;
    if d >= 0.0 {
      assert v <= 0.8 * 800.0 * dt by {
        assert d * dt <= 0.8 * dt;
      }
    } else {
      assert -v <= 0.8 * 800.0 * dt by {
        assert -d * dt <= 0.8 * dt;
      }
    }
  }

  /** get_rect(midbottom = ship.midtop) for the laser image. */
  function LaserFrom(ship: Rect, w: nat, h: nat): (r: Rect)
    ensures r.w == w && r.h == h && r.Bottom() == ship.Top()
    ensures r.CenterX() == ship.CenterX()
  {
    Rect(ship.CenterX() - w / 2, ship.Top() - h, w, h)
  }

  /** The pixel-mask test for the ship and a meteor whose rectangles collide. */
  predicate MeteorStrikesShip(ship: Rect, m: Meteor, maskHit: (int, int) -> bool)
  {
    Overlaps(ship, m.rect) && maskHit(m.rect.Left() - ship.Left(), m.rect.Top() - ship.Top())
  }

  /** Some meteor strikes the ship. */
  predicate ShipHit(ship: Rect, ms: seq<Meteor>, maskHit: (int, int) -> bool)
  {
    exists i :: 0 <= i < |ms| && MeteorStrikesShip(ship, ms[i], maskHit)
  }

  /** The meteor-ship loop: it breaks at the first meteor whose rectangle and mask
      both overlap the ship's. */
  method ScanShipHit(ship: Rect, ms: seq<Meteor>, maskHit: (int, int) -> bool) returns (hit: bool)
    ensures hit <==> ShipHit(ship, ms, maskHit)
  {
    var i := 0;
    while i < |ms|
      invariant 0 <= i <= |ms|
      invariant forall l :: 0 <= l < i ==> !MeteorStrikesShip(ship, ms[l], maskHit)
    {
      if Overlaps(ship, ms[i].rect) {
        var offsetX := ms[i].rect.Left() - ship.Left();
        var offsetY := ms[i].rect.Top() - ship.Top();
        if maskHit(offsetX, offsetY) {
          return true;
        }
      }
      i := i + 1;
    }
    return false;
  }

  /** Index of the first meteor, in list order, whose rectangle collides with laser l. */
  function FirstMeteorHit(l: Rect, ms: seq<Meteor>): (k: Option<nat>)
    ensures k.Some? ==> k.value < |ms| && Overlaps(l, ms[k.value].rect)
    ensures k.Some? ==> forall j :: 0 <= j < k.value ==> !Overlaps(l, ms[j].rect)
    ensures k.None? ==> forall j :: 0 <= j < |ms| ==> !Overlaps(l, ms[j].rect)
  {
    if ms == [] then None
    else if Overlaps(l, ms[0].rect) then Some(0)
    else match FirstMeteorHit(l, ms[1..])
      case None => None
      case Some(j) => Some(j + 1)
  }

  /** The laser-meteor inner loop: scan the meteors and stop at the first hit. */
  method FindMeteorHit(l: Rect, ms: seq<Meteor>) returns (k: Option<nat>)
    ensures k == FirstMeteorHit(l, ms)
  {
    var j := 0;
    while j < |ms|
      invariant 0 <= j <= |ms|
      invariant forall i :: 0 <= i < j ==> !Overlaps(l, ms[i].rect)
    {
      if Overlaps(l, ms[j].rect) {
        return Some(j);
      }
      j := j + 1;
    }
    return None;
  }

  /** The lasers and meteors left so far by the laser-meteor loop. */
  datatype Salvo = Salvo(lasers: seq<Rect>, meteors: seq<Meteor>)

  /** One turn of the laser-meteor loop for laser l. */
  function LaserStep(acc: Salvo, l: Rect): Salvo
  {
    match FirstMeteorHit(l, acc.meteors)
    case Some(j) => acc.(meteors := RemoveAt(acc.meteors, j))
    case None => acc.(lasers := acc.lasers + [l])
  }

  /** The laser-meteor loop over the lasers ls, in list order. */
  function LaserMeteorPass(ls: seq<Rect>, ms: seq<Meteor>): Salvo
  {
    if ls == [] then Salvo([], ms)
    else LaserStep(LaserMeteorPass(ls[..|ls| - 1], ms), ls[|ls| - 1])
  }

  /** Mutual destruction: every hit removes one laser and one meteor, a laser removes
      at most one meteor, survivors come from the inputs and no surviving laser
      touches a surviving meteor. */
  lemma {:induction false} LaserMeteorAccounting(ls: seq<Rect>, ms: seq<Meteor>)
    ensures var o := LaserMeteorPass(ls, ms);
      && |ls| - |o.lasers| == |ms| - |o.meteors|
      && |ms| - |ls| <= |o.meteors| <= |ms|
      && multiset(o.meteors) <= multiset(ms)
      && multiset(o.lasers) <= multiset(ls)
      && (forall l, m :: l in o.lasers && m in o.meteors ==> !Overlaps(l, m.rect))
  {
    if ls != [] {
      var init := ls[..|ls| - 1];
      var l := ls[|ls| - 1];
      assert ls == init + [l];
      LaserMeteorAccounting(init, ms);
      var acc := LaserMeteorPass(init, ms);
      match FirstMeteorHit(l, acc.meteors)
      case Some(j) =>
        var rest := RemoveAt(acc.meteors, j);
        forall m | m in rest ensures m in acc.meteors {
          assert m in multiset(rest);
        }
      case None =>
        forall m | m in acc.meteors ensures !Overlaps(l, m.rect) {
          var k :| 0 <= k < |acc.meteors| && acc.meteors[k] == m;
        }
    }
  }

  /** The restart's ship position: centred in the window. */
  function Recentered(ship: Rect): (r: Rect)
    ensures r.w == ship.w && r.h == ship.h
    ensures r.CenterX() == WindowWidth / 2 && r.CenterY() == WindowHeight / 2
  {
    ship.WithCenter(WindowWidth / 2, WindowHeight / 2)
  }

  lemma RecenteredIdempotent(ship: Rect)
    ensures Recentered(Recentered(ship)) == Recentered(ship)
  {
  }

  /** The first controller, when one is connected. */
  datatype Stick = Stick(axisX: real, axisY: real, button0: bool)

  /** Steering before the clamp: with a controller the ship moves by the remapped
      stick deflection times 800 * dt on each axis (truncated); with none its
      centre goes to the mouse. */
  function Steered(ship: Rect, stick: Option<Stick>, mouse: (int, int), dt: real): (r: Rect)
    ensures r.w == ship.w && r.h == ship.h
    ensures stick.None? ==> r.CenterX() == mouse.0 && r.CenterY() == mouse.1
    ensures stick.Some? && Abs(stick.value.axisX) < Deadzone ==> r.x == ship.x
    ensures stick.Some? && Abs(stick.value.axisY) < Deadzone ==> r.y == ship.y
  {
    match stick
    case Some(st) =>
      var dx := Trunc(DeadzoneRemap(st.axisX) * ShipSpeed as real * dt);
      var dy := Trunc(DeadzoneRemap(st.axisY) * ShipSpeed as real * dt);
      ship.(x := ship.x + dx, y := ship.y + dy)
    case None => ship.WithCenter(mouse.0, mouse.1)
  }

  datatype ShooterEvent =
    | JoyButtonDown(button: int)
    | SpaceKeyDown
    | MeteorTimer(x: int, y: int, u: real)
    | OtherEvent

  /** The meteor timer's random draws: randint(-100, 1380), randint(-100, -50), uniform(-0.5, 0.5). */
  predicate ValidEvent(e: ShooterEvent)
  {
    e.MeteorTimer? ==> -100 <= e.x <= WindowWidth + 100 && -100 <= e.y <= -50 && -0.5 <= e.u <= 0.5
  }

  /** A button 0-3 press or the space bar: the events that shoot. */
  predicate Shoots(e: ShooterEvent)
  {
    (e.JoyButtonDown? && 0 <= e.button <= 3) || e.SpaceKeyDown?
  }

  /** The meteors the timer events of a run spawn, in queue order. */
  function TimerMeteors(events: seq<ShooterEvent>, w: nat, h: nat): seq<Meteor>
  {
    if events == [] then []
    else
      var e := events[|events| - 1];
      TimerMeteors(events[..|events| - 1], w, h) +
        (if e.MeteorTimer? then [Meteor(CenteredAt(e.x, e.y, w, h), e.u)] else [])
  }

  /** Every meteor the timer spawns starts centred above the window, at most 100
      pixels beyond either side, heading down at a slope of at most 0.5. */
  lemma {:induction false} TimerMeteorsAbove(events: seq<ShooterEvent>, w: nat, h: nat)
    requires forall k :: 0 <= k < |events| ==> ValidEvent(events[k])
    ensures |TimerMeteors(events, w, h)| <= |events|
    ensures forall m :: m in TimerMeteors(events, w, h) ==>
      m.rect.CenterY() <= -50 && -100 <= m.rect.CenterX() <= WindowWidth + 100 &&
      -0.5 <= m.dirX <= 0.5 && m.rect.w == w && m.rect.h == h
  {
    if events != [] {
      var init := events[..|events| - 1];
      TimerMeteorsAbove(init, w, h);
      assert ValidEvent(events[|events| - 1]);
    }
  }

  /** One frame's input: the clock, dt, queued events, the controller (if any), the
      mouse, and whether a restart was requested (the R key or controller button 1). */
  datatype ShooterInput = ShooterInput(
    now: int, dt: real, events: seq<ShooterEvent>, stick: Option<Stick>,
    mouse: (int, int), mouseDown: bool, restart: bool)

  /** The state the main loop changes. */
  datatype ShooterState = ShooterState(shipRect: Rect, lasers: seq<Rect>, meteors: seq<Meteor>,
    canShoot: bool, shootTime: Option<int>, gameActive: bool)

  /** The event loop: while the game is active, the timer meteors are appended and,
      when shooting is allowed and some event shoots, one laser above the ship. */
  function EventPass(s: ShooterState, events: seq<ShooterEvent>, now: int,
                     laserW: nat, laserH: nat, meteorW: nat, meteorH: nat): ShooterState
  {
    if !s.gameActive then s
    else
      var shoots := s.canShoot && exists k :: 0 <= k < |events| && Shoots(events[k]);
      s.(meteors := s.meteors + TimerMeteors(events, meteorW, meteorH),
         lasers := if shoots then s.lasers + [LaserFrom(s.shipRect, laserW, laserH)] else s.lasers,
         canShoot := s.canShoot && !shoots,
         shootTime := if shoots then Some(now) else s.shootTime)
  }

  /** The first half of an active frame: steering and clamp, the held-button shot,
      the laser and meteor updates, then the 400 ms cooldown. */
  function MovePass(s: ShooterState, input: ShooterInput, laserW: nat, laserH: nat): ShooterState
  {
    var ship := Clamp(Steered(s.shipRect, input.stick, input.mouse, input.dt), Window());
    var held := (input.mouseDown || (input.stick.Some? && input.stick.value.button0)) && s.canShoot;
    var lasers := if held then s.lasers + [LaserFrom(ship, laserW, laserH)] else s.lasers;
    var shootTime := if held then Some(input.now) else s.shootTime;
    var canShoot := s.canShoot && !held;
    s.(shipRect := ship, lasers := LaserUpdate(lasers, input.dt), meteors := MeteorUpdate(s.meteors, input.dt),
       canShoot := canShoot || (shootTime.Some? && LaserCooldown(canShoot, input.now, shootTime.value, LaserCooldownMs)),
       shootTime := shootTime)
  }

  /** The second half: a ship hit ends the game, then lasers and meteors destroy
      each other. */
  function CollisionPass(s: ShooterState, maskHit: (int, int) -> bool): ShooterState
  {
    var o := LaserMeteorPass(s.lasers, s.meteors);
    s.(gameActive := s.gameActive && !ShipHit(s.shipRect, s.meteors, maskHit),
       lasers := o.lasers, meteors := o.meteors)
  }

  /** The restart: empty lists, ship recentred, shooting allowed. */
  function Restarted(s: ShooterState): ShooterState
  {
    s.(gameActive := true, shipRect := Recentered(s.shipRect), lasers := [], meteors := [], canShoot := true)
  }

  /** Restarting twice leaves the same state as restarting once. */
  lemma RestartedIdempotent(s: ShooterState)
    ensures Restarted(Restarted(s)) == Restarted(s)
  {
    RecenteredIdempotent(s.shipRect);
  }

  /** One pass of the main loop: events, then both halves while the game is
      active, then the restart test on the state that leaves. */
  function FrameStep(s: ShooterState, input: ShooterInput, maskHit: (int, int) -> bool,
                     laserW: nat, laserH: nat, meteorW: nat, meteorH: nat): ShooterState
  {
    var a := EventPass(s, input.events, input.now, laserW, laserH, meteorW, meteorH);
    var b := if a.gameActive then CollisionPass(MovePass(a, input, laserW, laserH), maskHit) else a;
    if !b.gameActive && input.restart then Restarted(b) else b
  }

  class ShooterGame {
    var shipRect: Rect
    var lasers: seq<Rect>
    var meteors: seq<Meteor>
    var canShoot: bool
    /** None until the first shot, like the source's shoot_time. */
    var shootTime: Option<int>
    var gameActive: bool
    const laserW: nat
    const laserH: nat
    const meteorW: nat
    const meteorH: nat

    ghost predicate Valid()
      reads this
    {
      shipRect.w <= WindowWidth && shipRect.h <= WindowHeight &&
      (!canShoot ==> shootTime.Some?)
    }

    function View(): ShooterState
      reads this
    {
      ShooterState(shipRect, lasers, meteors, canShoot, shootTime, gameActive)
    }

    constructor (shipW: nat, shipH: nat, laserW: nat, laserH: nat, meteorW: nat, meteorH: nat)
      requires shipW <= WindowWidth && shipH <= WindowHeight
      ensures Valid()
      ensures shipRect == CenteredAt(WindowWidth / 2, WindowHeight / 2, shipW, shipH)
      ensures lasers == [] && meteors == [] && canShoot && shootTime.None? && gameActive
      ensures this.laserW == laserW && this.laserH == laserH
      ensures this.meteorW == meteorW && this.meteorH == meteorH
    {
      shipRect := CenteredAt(WindowWidth / 2, WindowHeight / 2, shipW, shipH);
      lasers := [];
      meteors := [];
      canShoot := true;
      shootTime := None;
      gameActive := true;
      this.laserW := laserW;
      this.laserH := laserH;
      this.meteorW := meteorW;
      this.meteorH := meteorH;
    }

    /** A shot (from a controller button, the space bar, the mouse or a held
        button): only while allowed; it appends one laser above the ship and
        starts the cooldown. */
    method TryShoot(now: int)
      requires Valid()
      modifies this`lasers, this`canShoot, this`shootTime
      ensures Valid()
      ensures old(canShoot) ==>
        lasers == old(lasers) + [LaserFrom(shipRect, laserW, laserH)] &&
        !canShoot && shootTime == Some(now)
      ensures !old(canShoot) ==>
        lasers == old(lasers) && !canShoot && shootTime == old(shootTime)
    {
      if canShoot {
        lasers := lasers + [LaserFrom(shipRect, laserW, laserH)];
        canShoot := false;
        shootTime := Some(now);
      }
    }

    /** The meteor timer event: one meteor centred at (x, y) heading (u, 1). */
    method SpawnMeteor(x: int, y: int, u: real)
      requires -100 <= x <= WindowWidth + 100 && -100 <= y <= -50 && -0.5 <= u <= 0.5
      modifies this`meteors
      ensures meteors == old(meteors) + [Meteor(CenteredAt(x, y, meteorW, meteorH), u)]
    {
      meteors := meteors + [Meteor(CenteredAt(x, y, meteorW, meteorH), u)];
    }

    /** laser_update over laser_list, in place. */
    method UpdateLasers(dt: real)
      modifies this`lasers
      ensures lasers == LaserUpdate(old(lasers), dt)
    {
      ghost var moved := MovedLasers(lasers, dt);
      var kept := [];
      var i := 0;
      while i < |lasers|
        invariant 0 <= i <= |lasers| && lasers == old(lasers)
        invariant kept == Filter(LaserOnScreen, moved[..i])
      {
        FilterStep(LaserOnScreen, moved, i);
        var r := MovedLaser(lasers[i], dt);
        if !(r.Bottom() < 0) {
          kept := kept + [r];
        }
        i := i + 1;
      }
      assert moved[..i] == moved;
      lasers := kept;
    }

    /** meteor_update over meteor_list, in place. */
    method UpdateMeteors(dt: real)
      modifies this`meteors
      ensures meteors == MeteorUpdate(old(meteors), dt)
    {
      ghost var moved := MovedMeteors(meteors, dt);
      var kept := [];
      var i := 0;
      while i < |meteors|
        invariant 0 <= i <= |meteors| && meteors == old(meteors)
        invariant kept == Filter(MeteorOnScreen, moved[..i])
      {
        FilterStep(MeteorOnScreen, moved, i);
        var m := MovedMeteor(meteors[i], dt);
        if !(m.rect.Top() > WindowHeight) {
          kept := kept + [m];
        }
        i := i + 1;
      }
      assert moved[..i] == moved;
      meteors := kept;
    }

    /** Steering followed by clamp_ip to the window. */
    method SteerShip(stick: Option<Stick>, mouse: (int, int), dt: real)
      requires Valid()
      modifies this`shipRect
      ensures Valid()
      ensures Inside(shipRect, Window())
      ensures shipRect == Clamp(Steered(old(shipRect), stick, mouse, dt), Window())
    {
      shipRect := Clamp(Steered(shipRect, stick, mouse, dt), Window());
    }

    /** The cooldown call of the main loop, with duration 400 ms. */
    method CoolDown(now: int)
      requires Valid()
      modifies this`canShoot
      ensures Valid()
      ensures old(canShoot) ==> canShoot
      ensures !old(canShoot) ==> (canShoot <==> now - shootTime.value > LaserCooldownMs)
    {
      if !canShoot {
        canShoot := LaserCooldown(canShoot, now, shootTime.value, LaserCooldownMs);
      }
    }

    /** The meteor-ship loop: a meteor whose rectangle and mask both touch the ship
        ends the game. */
    method ShipMeteorCollision(maskHit: (int, int) -> bool)
      modifies this`gameActive
      ensures gameActive == (old(gameActive) && !ShipHit(shipRect, meteors, maskHit))
    {
      var hit := ScanShipHit(shipRect, meteors, maskHit);
      if hit {
        gameActive := false;
      }
    }

    /** The laser-meteor loop: each laser destroys the first meteor it touches, and
        is destroyed with it. */
    method LaserMeteorCollisions()
      modifies this`lasers, this`meteors
      ensures var o := LaserMeteorPass(old(lasers), old(meteors));
        lasers == o.lasers && meteors == o.meteors
      ensures |old(lasers)| - |lasers| == |old(meteors)| - |meteors|
    {
      var kept := [];
      var i := 0;
      while i < |lasers|
        invariant 0 <= i <= |lasers| && lasers == old(lasers)
        invariant LaserMeteorPass(lasers[..i], old(meteors)) == Salvo(kept, meteors)
      {
        assert lasers[..i + 1][..i] == lasers[..i];
        var hit := FindMeteorHit(lasers[i], meteors);
        match hit {
          case Some(j) =>
            meteors := RemoveAt(meteors, j);
          case None =>
            kept := kept + [lasers[i]];
        }
        i := i + 1;
      }
      assert lasers[..i] == lasers;
      lasers := kept;
      LaserMeteorAccounting(old(lasers), old(meteors));
    }

    /** Restart after game over: empty lists, ship centred, shooting allowed. */
    method Restart()
      requires Valid()
      modifies this`gameActive, this`shipRect, this`lasers, this`meteors, this`canShoot
      ensures Valid()
      ensures gameActive && shipRect == Recentered(old(shipRect))
      ensures lasers == [] && meteors == [] && canShoot
      ensures View() == Restarted(old(View()))
    {
      gameActive := true;
      shipRect := shipRect.WithCenter(WindowWidth / 2, WindowHeight / 2);
      lasers := [];
      meteors := [];
      canShoot := true;
    }

    /** The event loop: shots from controller buttons 0-3 and the space bar while
        shooting is allowed, and meteor spawns, all only while the game is active.
        The first shot of the frame clears canShoot, so at most one laser is added. */
    method HandleEvents(events: seq<ShooterEvent>, now: int)
      requires Valid()
      requires forall k :: 0 <= k < |events| ==> ValidEvent(events[k])
      modifies this`lasers, this`canShoot, this`shootTime, this`meteors
      ensures Valid()
      ensures !gameActive ==>
        lasers == old(lasers) && meteors == old(meteors) &&
        canShoot == old(canShoot) && shootTime == old(shootTime)
      ensures gameActive ==> meteors == old(meteors) + TimerMeteors(events, meteorW, meteorH)
      ensures if gameActive && old(canShoot) && exists k :: 0 <= k < |events| && Shoots(events[k]) then
          lasers == old(lasers) + [LaserFrom(shipRect, laserW, laserH)] && !canShoot && shootTime == Some(now)
        else
          lasers == old(lasers) && canShoot == old(canShoot) && shootTime == old(shootTime)
      ensures |lasers| <= |old(lasers)| + 1
      ensures View() == EventPass(old(View()), events, now, laserW, laserH, meteorW, meteorH)
    {
      ghost var fired := false;
      var k := 0;
      while k < |events|
        invariant 0 <= k <= |events| && Valid()
        invariant fired <==> exists j :: 0 <= j < k && Shoots(events[j])
        invariant !gameActive ==> meteors == old(meteors)
        invariant gameActive ==> meteors == old(meteors) + TimerMeteors(events[..k], meteorW, meteorH)
        invariant if gameActive && old(canShoot) && fired then
            lasers == old(lasers) + [LaserFrom(shipRect, laserW, laserH)] && !canShoot && shootTime == Some(now)
          else
            lasers == old(lasers) && canShoot == old(canShoot) && shootTime == old(shootTime)
      {
        assert events[..k + 1][..k] == events[..k];
        match events[k] {
          case JoyButtonDown(b) =>
            if canShoot && gameActive && 0 <= b <= 3 {
              TryShoot(now);
            }
          case SpaceKeyDown =>
            if canShoot && gameActive {
              TryShoot(now);
            }
          case MeteorTimer(x, y, u) =>
            if gameActive {
              SpawnMeteor(x, y, u);
            }
          case OtherEvent =>
        }
        fired := fired || Shoots(events[k]);
        k := k + 1;
      }
      assert events[..k] == events;
    }

    /** The first half of an active frame: steering and clamp, the held-button
        shot, laser and meteor updates and the cooldown. */
    method MovePhase(input: ShooterInput)
      requires Valid()
      modifies this`shipRect, this`lasers, this`meteors, this`canShoot, this`shootTime
      ensures Valid()
      ensures Inside(shipRect, Window())
      ensures View() == MovePass(old(View()), input, laserW, laserH)
    {
      ghost var s0 := View();
      SteerShip(input.stick, input.mouse, input.dt);
      var held := (input.mouseDown || (input.stick.Some? && input.stick.value.button0)) && canShoot;
      if held {
        TryShoot(input.now);
      }
      ghost var shot := lasers;
      assert shot == if held then s0.lasers + [LaserFrom(shipRect, laserW, laserH)] else s0.lasers;
      assert canShoot == (s0.canShoot && !held) && shootTime == if held then Some(input.now) else s0.shootTime;
      UpdateLasers(input.dt);
      UpdateMeteors(input.dt);
      CoolDown(input.now);
      assert lasers == LaserUpdate(shot, input.dt);
      assert View() == MovePass(s0, input, laserW, laserH);
    }

    /** The second half: meteor-ship, then laser-meteor collisions. */
    method CollisionPhase(maskHit: (int, int) -> bool)
      modifies this`lasers, this`meteors, this`gameActive
      ensures gameActive ==> old(gameActive)
      ensures forall l, m :: l in lasers && m in meteors ==> !Overlaps(l, m.rect)
      ensures |old(lasers)| - |lasers| == |old(meteors)| - |meteors|
      ensures View() == CollisionPass(old(View()), maskHit)
    {
      ghost var s0 := View();
      ShipMeteorCollision(maskHit);
      LaserMeteorCollisions();
      assert View() == CollisionPass(s0, maskHit);
      assert forall l, m :: l in lasers && m in meteors ==> !Overlaps(l, m.rect) by {
        LaserMeteorAccounting(old(lasers), old(meteors));
      }
    }

    /** One pass of the main loop, drawing left out. The restart check runs after
        the simulation, so a frame that ends the game may also restart it. */
    method Frame(input: ShooterInput, maskHit: (int, int) -> bool)
      requires Valid()
      requires forall k :: 0 <= k < |input.events| ==> ValidEvent(input.events[k])
      modifies this
      ensures Valid()
      ensures !old(gameActive) && !input.restart ==>
        !gameActive && shipRect == old(shipRect) && lasers == old(lasers) &&
        meteors == old(meteors) && canShoot == old(canShoot)
      ensures !gameActive ==> !input.restart
      ensures input.restart && !old(gameActive) ==>
        lasers == [] && meteors == [] && canShoot && shipRect == Recentered(old(shipRect))
      ensures gameActive && !input.restart ==>
        old(gameActive) && Inside(shipRect, Window()) &&
        forall l, m :: l in lasers && m in meteors ==> !Overlaps(l, m.rect)
      ensures View() == FrameStep(old(View()), input, maskHit, laserW, laserH, meteorW, meteorH)
    {
      HandleEvents(input.events, input.now);
      if gameActive {
        MovePhase(input);
        CollisionPhase(maskHit);
      }
      if !gameActive && input.restart {
        Restart();
      }
    }
  }
}
