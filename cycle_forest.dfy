/**
 * Cycle Forest: a side-scroller on an 800 x 480 screen. The player runs left and
 * right, jumps (with one extra jump in the air), fires projectiles that destroy the
 * first monster they touch, and loses one health point per monster contact, after
 * which an invincibility window of one second protects it. The source keeps all of
 * this in module-level globals updated step by step; here they are the fields of
 * one ForestGame object.
 *
 * Clock readings are integer milliseconds (pygame's get_ticks); the source divides
 * them by 1000 and compares seconds, which is the same comparison. dt and the
 * vertical velocity are reals; storing a float into a Rect field truncates (Trunc).
 */
module CycleForest {
  import opened Common
  import opened Geometry
  import AssetsConfig

  const ScreenWidth: int := 800
  const ScreenHeight: int := 480
  const GroundLevel: int := ScreenHeight
  const PlayerSpeed: int := 300
  const StartHealth: int := 3
  const InvincibleDurationMs: int := 1000
  const FireSpeed: int := 400
  const FireCooldownMs: int := 300
  const MonsterSpawnIntervalMs: int := 2000
  const MonsterSpeed: int := 100
  const Gravity: real := 800.0
  const JumpHeight: real := -400.0
  const DoubleJumpFactor: real := 0.8
  const ControllerDeadzone: real := 0.2
  const KillScore: int := 10
  const KnockbackDistance: real := 50.0

  /** A fire projectile: its rectangle and horizontal direction (+1 right, -1 left). */
  datatype Projectile = Projectile(rect: Rect, direction: int)

  /** A monster: its rectangle and horizontal direction. Every spawn gives it a
      vertical direction of 0, so its y never changes and is not stored. */
  datatype Monster = Monster(rect: Rect, direction: int)

  /** The outcome of random.choice(["left", "right", "ground"]) and, for "ground",
      of random.randint(0, SCREEN_WIDTH). */
  datatype SpawnPoint = LeftEdge | RightEdge | Ground(x: int)

  /** The monster spawn_monster appends: standing on the ground, entering from an
      edge or, on the ground, heading toward the player's centre. */
  function SpawnedMonster(point: SpawnPoint, w: nat, h: nat, playerCenterX: int): (m: Monster)
    ensures m.rect.w == w && m.rect.h == h && m.rect.Bottom() == GroundLevel
    ensures m.direction == 1 || m.direction == -1
    ensures point.LeftEdge? ==> m.rect.Right() == 0 && m.direction == 1
    ensures point.RightEdge? ==> m.rect.Left() == ScreenWidth && m.direction == -1
    ensures point.Ground? ==> m.rect.x == point.x && (m.direction == 1 <==> point.x < playerCenterX)
  {
    var y := GroundLevel - h;
    match point
    case LeftEdge => Monster(Rect(-(w as int), y, w, h), 1)
    case RightEdge => Monster(Rect(ScreenWidth, y, w, h), -1)
    case Ground(x) => Monster(Rect(x, y, w, h), if x < playerCenterX then 1 else -1)
  }

  /** Index of the first monster (in list order) whose rectangle collides with r. */
  function FirstOverlap(r: Rect, ms: seq<Monster>): (k: Option<nat>)
    ensures k.Some? ==> k.value < |ms| && Overlaps(r, ms[k.value].rect)
    ensures k.Some? ==> forall l :: 0 <= l < k.value ==> !Overlaps(r, ms[l].rect)
    ensures k.None? ==> forall l :: 0 <= l < |ms| ==> !Overlaps(r, ms[l].rect)
  {
    if ms == [] then None
    else if Overlaps(r, ms[0].rect) then Some(0)
    else match FirstOverlap(r, ms[1..])
      case None => None
      case Some(j) => Some(j + 1)
  }

  function MovedProjectile(p: Projectile, dt: real): Projectile
  {
    p.(rect := p.rect.(x := Trunc(p.rect.x as real + (p.direction * FireSpeed) as real * dt)))
  }

  function MovedMonster(m: Monster, dt: real): Monster
  {
    m.(rect := m.rect.(x := Trunc(m.rect.x as real + (m.direction * MonsterSpeed) as real * dt)))
  }

  function MovedMonsters(ms: seq<Monster>, dt: real): (r: seq<Monster>)
    ensures |r| == |ms| && forall i :: 0 <= i < |ms| ==> r[i] == MovedMonster(ms[i], dt)
  {
    seq(|ms|, i requires 0 <= i < |ms| => MovedMonster(ms[i], dt))
  }

  /** player_rect.y += vertical_velocity * dt, truncated into the integer field. */
  function Fallen(r: Rect, v: real, dt: real): Rect
  {
    r.(y := Trunc(r.y as real + v * dt))
  }

  /** player_rect.x += player_direction.x * player_speed * dt, truncated. */
  function Slid(r: Rect, directionX: int, dt: real): Rect
  {
    r.(x := Trunc(r.x as real + (directionX * PlayerSpeed) as real * dt))
  }

  /** The knockback: the player moves KnockbackDistance along the vector k. */
  function KnockedBack(r: Rect, k: (real, real)): Rect
  {
    r.(x := Trunc(r.x as real + k.0 * KnockbackDistance), y := Trunc(r.y as real + k.1 * KnockbackDistance))
  }

  /** What update_projectiles has produced after some prefix of the projectiles:
      the projectiles kept so far, the monsters still alive and the score gained. */
  datatype ProjectileOutcome = ProjectileOutcome(kept: seq<Projectile>, monsters: seq<Monster>, gained: int)

  /** One turn of update_projectiles' outer loop for projectile p. */
  function ProjectileStep(acc: ProjectileOutcome, p: Projectile, dt: real): ProjectileOutcome
  {
    var q := MovedProjectile(p, dt);
    match FirstOverlap(q.rect, acc.monsters)
    case Some(j) => acc.(monsters := RemoveAt(acc.monsters, j), gained := acc.gained + KillScore)
    case None => if 0 < q.rect.x < ScreenWidth then acc.(kept := acc.kept + [q]) else acc
  }

  /** update_projectiles over the projectiles ps, in list order, against monsters ms. */
  function ProjectilePass(ps: seq<Projectile>, ms: seq<Monster>, dt: real): ProjectileOutcome
  {
    if ps == [] then ProjectileOutcome([], ms, 0)
    else ProjectileStep(ProjectilePass(ps[..|ps| - 1], ms, dt), ps[|ps| - 1], dt)
  }

  /** Each projectile destroys at most one monster and earns exactly KillScore for it;
      a projectile that hit is not kept; kept projectiles are on screen and touch no
      surviving monster; the surviving monsters are among the original ones. */
  lemma {:induction false} ProjectilePassAccounting(ps: seq<Projectile>, ms: seq<Monster>, dt: real)
    ensures var o := ProjectilePass(ps, ms, dt);
      && o.gained == KillScore * (|ms| - |o.monsters|)
      && |ms| - |ps| <= |o.monsters| <= |ms|
      && |o.kept| + (|ms| - |o.monsters|) <= |ps|
      && multiset(o.monsters) <= multiset(ms)
      && (forall q :: q in o.kept ==> 0 < q.rect.x < ScreenWidth)
      && (forall q, m :: q in o.kept && m in o.monsters ==> !Overlaps(q.rect, m.rect))
  {
    if ps != [] {
      var init := ps[..|ps| - 1];
      var p := ps[|ps| - 1];
      ProjectilePassAccounting(init, ms, dt);
      var acc := ProjectilePass(init, ms, dt);
      var q := MovedProjectile(p, dt);
      match FirstOverlap(q.rect, acc.monsters)
      case Some(j) =>
        var rest := RemoveAt(acc.monsters, j);
        forall m | m in rest ensures m in acc.monsters {
          assert m in multiset(rest);
        }
      case None =>
        forall m | m in acc.monsters ensures !Overlaps(q.rect, m.rect) {
          var l :| 0 <= l < |acc.monsters| && acc.monsters[l] == m;
        }
    }
  }

  lemma ProjectilePassStep(ps: seq<Projectile>, ms: seq<Monster>, i: nat, dt: real)
    requires i < |ps|
    ensures ProjectilePass(ps[..i + 1], ms, dt) == ProjectileStep(ProjectilePass(ps[..i], ms, dt), ps[i], dt)
  {
    assert ps[..i + 1][..i] == ps[..i];
  }

  /** The score side of the accounting: a non-negative multiple of KillScore, one
      KillScore per destroyed monster. */
  lemma ProjectilePassScore(ps: seq<Projectile>, ms: seq<Monster>, dt: real)
    ensures var o := ProjectilePass(ps, ms, dt);
      o.gained == KillScore * (|ms| - |o.monsters|) && |o.monsters| <= |ms| &&
      o.gained >= 0
  {
    ProjectilePassAccounting(ps, ms, dt);
  }

  /** A frame's keyboard state for the keys Cycle Forest polls. */
  datatype Keys = Keys(left: bool, right: bool, space: bool)

  /** The first joystick, when one is connected: its left-stick x axis and button A. */
  datatype Controller = Controller(axisX: real, buttonA: bool)

  /** The queued pygame events the game reacts to; a theme key carries its offset
      from key 1, and the music keys and everything else are Other. */
  datatype ForestEvent = QuitEvent | KeyQ | KeyX | ThemeKey(index: nat) | JoyButtonDown(button: int) | OtherEvent

  /** The part of the game state the event loop changes. */
  datatype EventState = EventState(
    running: bool, lastFireTime: int, projectiles: seq<Projectile>,
    verticalVelocity: real, isJumping: bool, isOnGround: bool, doubleJumpAvailable: bool,
    theme: string)

  /** The projectile fire_projectile creates: at the player's centre, flying the
      way the player faces. */
  function Shot(player: Rect, facingRight: bool, w: nat, h: nat): Projectile
  {
    Projectile(Rect(player.CenterX(), player.CenterY(), w, h), if facingRight then 1 else -1)
  }

  /** fire_projectile: nothing within 300 ms of the last shot, otherwise one shot. */
  function Fired(s: EventState, now: int, shot: Projectile): EventState
  {
    if now - s.lastFireTime < FireCooldownMs then s
    else s.(lastFireTime := now, projectiles := s.projectiles + [shot])
  }

  /** handle_jump_input when the jump reading is `pressed`. */
  function Jumped(s: EventState, pressed: bool): EventState
  {
    if pressed && s.isOnGround then
      s.(verticalVelocity := JumpHeight, isJumping := true, isOnGround := false)
    else if pressed && s.doubleJumpAvailable then
      s.(verticalVelocity := JumpHeight * DoubleJumpFactor, isJumping := true, doubleJumpAvailable := false)
    else s
  }

  /** change_theme for the index-th available theme, when there is one. */
  function Themed(s: EventState, index: nat): EventState
  {
    var themes := AssetsConfig.AvailableThemes();
    if index < |themes| then s.(theme := themes[index]) else s
  }

  /** One event of the main loop: quit and Q stop it, X fires, keys 1 and 2 switch
      the theme, and with a controller connected button A jumps and button B fires. */
  function EventStep(s: EventState, e: ForestEvent, shot: Projectile, jumpPressed: bool,
                     hasController: bool, now: int): EventState
  {
    match e
    case QuitEvent => s.(running := false)
    case KeyQ => s.(running := false)
    case KeyX => Fired(s, now, shot)
    case ThemeKey(index) => if index <= 1 then Themed(s, index) else s
    case JoyButtonDown(b) =>
      if !hasController then s
      else if b == 0 then Jumped(s, jumpPressed)
      else if b == 1 then Fired(s, now, shot)
      else s
    case OtherEvent => s
  }

  /** The events of one pass, handled in queue order. Every fire_projectile call
      reads the clock afresh: clock(i) is the reading while the i-th event is handled. */
  function EventsApplied(s: EventState, events: seq<ForestEvent>, shot: Projectile, jumpPressed: bool,
                         hasController: bool, clock: nat -> int): EventState
  {
    if events == [] then s
    else EventStep(EventsApplied(s, events[..|events| - 1], shot, jumpPressed, hasController, clock),
                   events[|events| - 1], shot, jumpPressed, hasController, clock(|events| - 1))
  }

  lemma EventsAppliedStep(s: EventState, events: seq<ForestEvent>, e: nat, shot: Projectile,
                          jumpPressed: bool, hasController: bool, clock: nat -> int)
    requires e < |events|
    ensures EventsApplied(s, events[..e + 1], shot, jumpPressed, hasController, clock) ==
      EventStep(EventsApplied(s, events[..e], shot, jumpPressed, hasController, clock), events[e],
                shot, jumpPressed, hasController, clock(e))
  {
    assert events[..e + 1][..e] == events[..e];
  }

  /** One event stops the game exactly when it is a quit event or Q. */
  lemma EventStepRunning(s: EventState, e: ForestEvent, shot: Projectile, jumpPressed: bool,
                         hasController: bool, now: int)
    ensures EventStep(s, e, shot, jumpPressed, hasController, now).running ==
      (s.running && !(e.QuitEvent? || e.KeyQ?))
  {
    assert Fired(s, now, shot).running == s.running && Jumped(s, jumpPressed).running == s.running;
  }

  /** One event fires at most the one shot, and only outside the cooldown. */
  lemma EventStepFire(s: EventState, e: ForestEvent, shot: Projectile, jumpPressed: bool,
                      hasController: bool, now: int)
    ensures var t := EventStep(s, e, shot, jumpPressed, hasController, now);
      (t.projectiles == s.projectiles && t.lastFireTime == s.lastFireTime) ||
      (t.projectiles == s.projectiles + [shot] && t.lastFireTime == now &&
       now - s.lastFireTime >= FireCooldownMs)
  {
    assert Jumped(s, jumpPressed).projectiles == s.projectiles;
    assert Jumped(s, jumpPressed).lastFireTime == s.lastFireTime;
  }

  /** A quit event or Q stops the game, and nothing restarts it. */
  lemma {:induction false} EventsStopRunning(s: EventState, events: seq<ForestEvent>, shot: Projectile,
                                             jumpPressed: bool, hasController: bool, clock: nat -> int)
    ensures var r := EventsApplied(s, events, shot, jumpPressed, hasController, clock);
      (r.running ==> s.running) &&
      ((exists i :: 0 <= i < |events| && (events[i].QuitEvent? || events[i].KeyQ?)) ==> !r.running)
  {
    if events != [] {
      var init := events[..|events| - 1];
      EventsStopRunning(s, init, shot, jumpPressed, hasController, clock);
      EventStepRunning(EventsApplied(s, init, shot, jumpPressed, hasController, clock), events[|events| - 1],
                       shot, jumpPressed, hasController, clock(|events| - 1));
      if exists i :: 0 <= i < |events| && (events[i].QuitEvent? || events[i].KeyQ?) {
        var i :| 0 <= i < |events| && (events[i].QuitEvent? || events[i].KeyQ?);
        if i < |init| {
          assert init[i] == events[i];
        }
      }
    }
  }

  /** Whatever the clock does, the event loop only appends copies of the one shot,
      and lastFireTime either stays or becomes one of the pass's clock readings. */
  lemma {:induction false} EventsFireShots(s: EventState, events: seq<ForestEvent>, shot: Projectile,
                                           jumpPressed: bool, hasController: bool, clock: nat -> int)
    ensures var r := EventsApplied(s, events, shot, jumpPressed, hasController, clock);
      |s.projectiles| <= |r.projectiles| && r.projectiles[..|s.projectiles|] == s.projectiles &&
      (forall i :: |s.projectiles| <= i < |r.projectiles| ==> r.projectiles[i] == shot) &&
      (r.lastFireTime == s.lastFireTime || exists i :: 0 <= i < |events| && r.lastFireTime == clock(i))
  {
    if events != [] {
      var n := |events| - 1;
      var init := events[..n];
      var prev := EventsApplied(s, init, shot, jumpPressed, hasController, clock);
      EventsFireShots(s, init, shot, jumpPressed, hasController, clock);
      EventStepFire(prev, events[n], shot, jumpPressed, hasController, clock(n));
      var r := EventsApplied(s, events, shot, jumpPressed, hasController, clock);
      if r.lastFireTime != s.lastFireTime && r.lastFireTime != clock(n) {
        var i :| 0 <= i < |init| && prev.lastFireTime == clock(i);
      }
    }
  }

  /** The fire cooldown lets at most one projectile out per pass when all of the
      pass's clock readings lie within FireCooldownMs of each other: after a shot
      lastFireTime is that event's reading, and every later attempt of the same pass
      falls within the cooldown. */
  lemma {:induction false} EventsFireOnce(s: EventState, events: seq<ForestEvent>, shot: Projectile,
                                          jumpPressed: bool, hasController: bool, clock: nat -> int)
    requires forall i, j :: 0 <= i < j < |events| ==> clock(j) - clock(i) < FireCooldownMs
    ensures var r := EventsApplied(s, events, shot, jumpPressed, hasController, clock);
      (r.projectiles == s.projectiles && r.lastFireTime == s.lastFireTime) ||
      (r.projectiles == s.projectiles + [shot] &&
       exists i :: 0 <= i < |events| && r.lastFireTime == clock(i) && clock(i) - s.lastFireTime >= FireCooldownMs)
  {
    if events != [] {
      var n := |events| - 1;
      var init := events[..n];
      var prev := EventsApplied(s, init, shot, jumpPressed, hasController, clock);
      EventsFireOnce(s, init, shot, jumpPressed, hasController, clock);
      EventStepFire(prev, events[n], shot, jumpPressed, hasController, clock(n));
      if prev.projectiles != s.projectiles {
        var i :| 0 <= i < n && prev.lastFireTime == clock(i);
        assert clock(n) - prev.lastFireTime < FireCooldownMs;
      }
    }
  }

  /** Only a theme key with an available index changes the theme. */
  lemma EventStepTheme(s: EventState, e: ForestEvent, shot: Projectile, jumpPressed: bool,
                       hasController: bool, now: int)
    ensures var t := EventStep(s, e, shot, jumpPressed, hasController, now).theme;
      if e.ThemeKey? && e.index <= 1 && e.index < |AssetsConfig.AvailableThemes()|
      then t == AssetsConfig.AvailableThemes()[e.index] else t == s.theme
  {
    match e
    case KeyX =>
      assert Fired(s, now, shot).theme == s.theme;
    case JoyButtonDown(b) =>
      assert Fired(s, now, shot).theme == s.theme && Jumped(s, jumpPressed).theme == s.theme;
    case _ =>
  }

  /** The theme changes only through keys 1 and 2, and always to an available theme. */
  lemma {:induction false} EventsThemes(s: EventState, events: seq<ForestEvent>, shot: Projectile,
                                        jumpPressed: bool, hasController: bool, clock: nat -> int)
    ensures var r := EventsApplied(s, events, shot, jumpPressed, hasController, clock);
      (r.theme == s.theme || r.theme in AssetsConfig.AvailableThemes()) &&
      ((forall i :: 0 <= i < |events| ==> !events[i].ThemeKey?) ==> r.theme == s.theme)
  {
    if events != [] {
      var init, last := events[..|events| - 1], events[|events| - 1];
      var prev := EventsApplied(s, init, shot, jumpPressed, hasController, clock);
      EventsThemes(s, init, shot, jumpPressed, hasController, clock);
      EventStepTheme(prev, last, shot, jumpPressed, hasController, clock(|events| - 1));
      if forall i :: 0 <= i < |events| ==> !events[i].ThemeKey? {
        assert forall i :: 0 <= i < |init| ==> !init[i].ThemeKey? by {
          forall i | 0 <= i < |init| ensures !init[i].ThemeKey? {
            assert init[i] == events[i];
          }
        }
        assert !last.ThemeKey?;
      }
    }
  }


  /** Everything the outside world supplies to one pass of the main loop: the
      clock reading at the top of the pass (now), the readings fire_projectile takes
      while the i-th event is handled (clock(i)) and the reading update_monsters
      takes on a hit (hitNow). */
  datatype FrameInput = FrameInput(
    now: int, dt: real, events: seq<ForestEvent>, clock: nat -> int, keys: Keys,
    controller: Option<Controller>, spawn: SpawnPoint, hitNow: int)

  /** One axis of the main loop's screen clamp: first the low edge is raised to 0
      (left = max(0, left)), then the high edge is lowered to len (right = min(len, right)). */
  function KeepAxis(p: int, n: nat, len: int): (q: int)
    ensures n <= len ==> 0 <= q && q + n <= len
    ensures 0 <= p && p + n <= len ==> q == p
  {
    var low := MaxInt(0, p);
    MinInt(len, low + n) - n
  }

  /** Keep the player on screen: left and right, then top and bottom. */
  function KeepOnScreen(r: Rect): (c: Rect)
    ensures c.w == r.w && c.h == r.h
    ensures r.w <= ScreenWidth ==> 0 <= c.Left() && c.Right() <= ScreenWidth
    ensures r.h <= ScreenHeight ==> 0 <= c.Top() && c.Bottom() <= ScreenHeight
    ensures Inside(r, Rect(0, 0, ScreenWidth, ScreenHeight)) ==> c == r
  {
    Rect(KeepAxis(r.x, r.w, ScreenWidth), KeepAxis(r.y, r.h, ScreenHeight), r.w, r.h)
  }

  /** The first overlap is the unique index that overlaps with none before it. */
  lemma FirstOverlapAt(r: Rect, ms: seq<Monster>, j: nat)
    requires j < |ms| && Overlaps(r, ms[j].rect)
    requires forall l :: 0 <= l < j ==> !Overlaps(r, ms[l].rect)
    ensures FirstOverlap(r, ms) == Some(j)
  {
  }

  lemma FirstOverlapNone(r: Rect, ms: seq<Monster>)
    requires forall l :: 0 <= l < |ms| ==> !Overlaps(r, ms[l].rect)
    ensures FirstOverlap(r, ms) == None
  {
  }

  /** The inner loop of update_projectiles: scan the monsters in list order and stop
      at the first one the projectile touches (which the source then removes). */
  method FindFirstOverlap(r: Rect, ms: seq<Monster>) returns (k: Option<nat>)
    ensures k == FirstOverlap(r, ms)
  {
    var j := 0;
    while j < |ms|
      invariant 0 <= j <= |ms|
      invariant forall l :: 0 <= l < j ==> !Overlaps(r, ms[l].rect)
    {
      if Overlaps(r, ms[j].rect) {
        return Some(j);
      }
      j := j + 1;
    }
    return None;
  }

  /** The whole game state a pass of the main loop changes. */
  datatype ForestState = ForestState(
    ev: EventState, playerRect: Rect, directionX: int, facingRight: bool,
    playerHealth: int, invincible: bool, invincibleTimer: int,
    monsters: seq<Monster>, monsterSpawnTimer: int, score: int)

  /** The top of a pass: the spawn timer (one monster once strictly more than two
      seconds have passed), the invincibility timer and the direction reset. */
  function Timed(s: ForestState, now: int, spawn: SpawnPoint, monsterW: nat, monsterH: nat): ForestState
  {
    var due := now - s.monsterSpawnTimer > MonsterSpawnIntervalMs;
    s.(monsters := if due then s.monsters + [SpawnedMonster(spawn, monsterW, monsterH, s.playerRect.CenterX())]
                   else s.monsters,
       monsterSpawnTimer := if due then now else s.monsterSpawnTimer,
       invincible := s.invincible && now - s.invincibleTimer <= InvincibleDurationMs,
       directionX := 0)
  }

  /** Keyboard movement: Left or Right sets the facing (Left wins), and exactly one
      of them sets the direction. */
  function KeyboardSteered(s: ForestState, keys: Keys): ForestState
  {
    if !keys.left && !keys.right then s
    else s.(facingRight := !keys.left,
            directionX := if keys.left == keys.right then s.directionX else if keys.right then 1 else -1)
  }

  /** Controller movement: a deflection at or beyond the dead zone sets the facing
      and the direction. */
  function ControllerSteered(s: ForestState, controller: Option<Controller>): ForestState
  {
    if controller.None? || Abs(controller.value.axisX) < ControllerDeadzone then s
    else s.(facingRight := controller.value.axisX > 0.0,
            directionX := if controller.value.axisX > 0.0 then 1 else -1)
  }

  /** The polled input after the events: the keyboard, the space-bar jump and the
      controller's stick, in that order. */
  function InputSteered(s: ForestState, keys: Keys, controller: Option<Controller>): ForestState
  {
    var k := KeyboardSteered(s, keys);
    ControllerSteered(if keys.space then k.(ev := Jumped(k.ev, true)) else k, controller)
  }

  /** The input part of a pass: the event queue, then the polled input. */
  function Controlled(s: ForestState, input: FrameInput, fireW: nat, fireH: nat): ForestState
  {
    var jumpPressed := input.keys.space || (input.controller.Some? && input.controller.value.buttonA);
    var e := EventsApplied(s.ev, input.events, Shot(s.playerRect, s.facingRight, fireW, fireH),
                           jumpPressed, input.controller.Some?, input.clock);
    InputSteered(s.(ev := e), input.keys, input.controller)
  }

  /** Gravity, the vertical and horizontal steps and the ground test: landing snaps
      to the ground and restores the air jump. */
  function Fell(s: ForestState, dt: real): ForestState
  {
    var v := s.ev.verticalVelocity + Gravity * dt;
    var moved := Slid(Fallen(s.playerRect, v, dt), s.directionX, dt);
    if moved.Bottom() >= GroundLevel then
      s.(playerRect := moved.WithBottom(GroundLevel),
         ev := s.ev.(verticalVelocity := 0.0, isOnGround := true, isJumping := false, doubleJumpAvailable := true))
    else
      s.(playerRect := moved, ev := s.ev.(verticalVelocity := v, isOnGround := false))
  }

  /** The movement part of a pass: physics, then the screen clamp. */
  function PlayerMoved(s: ForestState, dt: real): ForestState
  {
    var f := Fell(s, dt);
    f.(playerRect := KeepOnScreen(f.playerRect))
  }

  /** update_projectiles on the whole state. */
  function ProjectilesResolved(s: ForestState, dt: real): ForestState
  {
    var o := ProjectilePass(s.ev.projectiles, s.monsters, dt);
    s.(ev := s.ev.(projectiles := o.kept), monsters := o.monsters, score := s.score + o.gained)
  }

  /** The player's side of a monster contact: health, the invincibility flag and
      its start time, and the player's rectangle. */
  datatype Vitals = Vitals(health: int, invincible: bool, timer: int, rect: Rect)

  /** The first moved monster touching the player, unless the player is invincible,
      costs a health point, starts invincibility at hitNow and knocks the player back. */
  function Contact(v: Vitals, moved: seq<Monster>, hitNow: int, knockback: (Rect, Rect) -> (real, real)): Vitals
  {
    match if v.invincible then None else FirstOverlap(v.rect, moved)
    case None => v
    case Some(j) => Vitals(v.health - 1, true, hitNow, KnockedBack(v.rect, knockback(v.rect, moved[j].rect)))
  }

  /** update_monsters on the whole state. */
  function MonstersResolved(s: ForestState, dt: real, hitNow: int, knockback: (Rect, Rect) -> (real, real)): ForestState
  {
    var ms := MovedMonsters(s.monsters, dt);
    var v := Contact(Vitals(s.playerHealth, s.invincible, s.invincibleTimer, s.playerRect), ms, hitNow, knockback);
    s.(monsters := ms, playerHealth := v.health, invincible := v.invincible, invincibleTimer := v.timer,
       playerRect := v.rect)
  }

  /** The end of a pass: projectiles against monsters, monsters against the player,
      then the game-over test. */
  function Fought(s: ForestState, dt: real, hitNow: int, knockback: (Rect, Rect) -> (real, real)): ForestState
  {
    var m := MonstersResolved(ProjectilesResolved(s, dt), dt, hitNow, knockback);
    m.(ev := m.ev.(running := m.ev.running && m.playerHealth > 0))
  }

  /** The input part of a pass stops the game on a quit request, never restarts it,
      and leaves health, invincibility, score, the monsters and the player's
      rectangle alone. */
  lemma ControlledFacts(s: ForestState, input: FrameInput, fireW: nat, fireH: nat)
    ensures var t := Controlled(s, input, fireW, fireH);
      (t.ev.running ==> s.ev.running) &&
      ((exists i :: 0 <= i < |input.events| && (input.events[i].QuitEvent? || input.events[i].KeyQ?)) ==> !t.ev.running) &&
      t.playerHealth == s.playerHealth && t.invincible == s.invincible && t.invincibleTimer == s.invincibleTimer &&
      t.score == s.score && t.monsters == s.monsters && t.monsterSpawnTimer == s.monsterSpawnTimer &&
      t.playerRect == s.playerRect
  {
    EventsStopRunning(s.ev, input.events, Shot(s.playerRect, s.facingRight, fireW, fireH),
      input.keys.space || (input.controller.Some? && input.controller.value.buttonA),
      input.controller.Some?, input.clock);
  }

  /** The end of a pass costs at most one health point, none while invincible, pays
      KillScore per destroyed monster, and ends the game once health is gone. */
  lemma FoughtFacts(s: ForestState, dt: real, hitNow: int, knockback: (Rect, Rect) -> (real, real))
    ensures var t := Fought(s, dt, hitNow, knockback);
      s.playerHealth - 1 <= t.playerHealth <= s.playerHealth &&
      (s.invincible ==> t.playerHealth == s.playerHealth) &&
      |t.monsters| <= |s.monsters| && t.score - s.score == KillScore * (|s.monsters| - |t.monsters|) &&
      (t.playerHealth <= 0 ==> !t.ev.running) && t.ev.running == (s.ev.running && t.playerHealth > 0)
  {
    ProjectilePassScore(s.ev.projectiles, s.monsters, dt);
  }

  /** One pass costs at most one health point and none inside the invincibility
      window, spawns at most the one monster the timer allows, pays KillScore per
      destroyed monster, and stops the game once health is gone. */
  lemma FrameStepFacts(s: ForestState, input: FrameInput, knockback: (Rect, Rect) -> (real, real),
                       fireW: nat, fireH: nat, monsterW: nat, monsterH: nat)
    ensures var t := FrameStep(s, input, knockback, fireW, fireH, monsterW, monsterH);
      var spawned := if input.now - s.monsterSpawnTimer > MonsterSpawnIntervalMs then 1 else 0;
      s.playerHealth - 1 <= t.playerHealth <= s.playerHealth &&
      (s.invincible && input.now - s.invincibleTimer <= InvincibleDurationMs ==> t.playerHealth == s.playerHealth) &&
      |t.monsters| <= |s.monsters| + spawned &&
      t.score - s.score == KillScore * (|s.monsters| + spawned - |t.monsters|) &&
      (t.playerHealth <= 0 ==> !t.ev.running) && (t.ev.running ==> s.ev.running)
  {
    var a := Timed(s, input.now, input.spawn, monsterW, monsterH);
    var b := Controlled(a, input, fireW, fireH);
    var c := PlayerMoved(b, input.dt);
    ControlledFacts(a, input, fireW, fireH);
    FoughtFacts(c, input.dt, input.hitNow, knockback);
  }

  /** One pass of the main loop. */
  function FrameStep(s: ForestState, input: FrameInput, knockback: (Rect, Rect) -> (real, real),
                     fireW: nat, fireH: nat, monsterW: nat, monsterH: nat): ForestState
  {
    var t := Timed(s, input.now, input.spawn, monsterW, monsterH);
    Fought(PlayerMoved(Controlled(t, input, fireW, fireH), input.dt), input.dt, input.hitNow, knockback)
  }

  /** The loops of update_projectiles: for each projectile in list order, move it,
      scan the monsters still alive for the first it touches, and either remove that
      monster for KillScore points or keep the projectile while it is on screen. */
  method RunProjectiles(ps: seq<Projectile>, ms: seq<Monster>, dt: real) returns (o: ProjectileOutcome)
    ensures o == ProjectilePass(ps, ms, dt)
  {
    var kept := [];
    var alive := ms;
    var gained := 0;
    var i := 0;
    while i < |ps|
      invariant 0 <= i <= |ps|
      invariant ProjectilePass(ps[..i], ms, dt) == ProjectileOutcome(kept, alive, gained)
    {
      ProjectilePassStep(ps, ms, i, dt);
      ghost var before := ProjectileOutcome(kept, alive, gained);
      var proj := MovedProjectile(ps[i], dt);
      var hit := FindFirstOverlap(proj.rect, alive);
      match hit {
        case Some(j) =>
          alive := RemoveAt(alive, j);
          gained := gained + KillScore;
        case None =>
          if 0 < proj.rect.x < ScreenWidth {
            kept := kept + [proj];
          }
      }
      assert ProjectileStep(before, ps[i], dt) == ProjectileOutcome(kept, alive, gained);
      i := i + 1;
    }
    assert ps[..i] == ps;
    return ProjectileOutcome(kept, alive, gained);
  }

  /** The loop of update_monsters: move each monster in list order and, while the
      player is not invincible, let the first one touching the player hurt it. */
  method RunMonsters(ms: seq<Monster>, v: Vitals, dt: real, now: int, knockback: (Rect, Rect) -> (real, real))
    returns (moved: seq<Monster>, w: Vitals)
    ensures moved == MovedMonsters(ms, dt)
    ensures w == Contact(v, moved, now, knockback)
  {
    ghost var target := MovedMonsters(ms, dt);
    ghost var hitAt: Option<nat> := None;
    moved, w := ms, v;
    var i := 0;
    while i < |moved|
      invariant 0 <= i <= |moved| == |target|
      invariant forall l :: 0 <= l < i ==> moved[l] == target[l]
      invariant forall l :: i <= l < |moved| ==> moved[l] == ms[l]
      invariant hitAt.None? ==> w == v && (v.invincible || forall l :: 0 <= l < i ==> !Overlaps(v.rect, target[l].rect))
      invariant hitAt.Some? ==>
        !v.invincible && hitAt.value < i && Overlaps(v.rect, target[hitAt.value].rect) &&
        (forall l :: 0 <= l < hitAt.value ==> !Overlaps(v.rect, target[l].rect)) &&
        w == Vitals(v.health - 1, true, now, KnockedBack(v.rect, knockback(v.rect, target[hitAt.value].rect)))
    {
      var m := MovedMonster(moved[i], dt);
      moved := moved[i := m];
      OverlapsSymmetric(m.rect, w.rect);
      if !w.invincible && Overlaps(m.rect, w.rect) {
        w := Vitals(w.health - 1, true, now, KnockedBack(w.rect, knockback(w.rect, m.rect)));
        hitAt := Some(i);
      }
      i := i + 1;
    }
    assert moved == target;
    if hitAt.Some? {
      FirstOverlapAt(v.rect, target, hitAt.value);
    } else if !v.invincible {
      FirstOverlapNone(v.rect, target);
    }
  }

  class ForestGame {
    var playerRect: Rect
    var directionX: int
    var facingRight: bool
    var playerHealth: int
    var invincible: bool
    var invincibleTimer: int
    var projectiles: seq<Projectile>
    var lastFireTime: int
    var monsters: seq<Monster>
    var monsterSpawnTimer: int
    var verticalVelocity: real
    var isJumping: bool
    var isOnGround: bool
    var doubleJumpAvailable: bool
    var running: bool
    var score: int
    /** The asset loader's current theme. */
    var theme: string
    /** Sizes of the loaded player, projectile and monster images. */
    const fireW: nat
    const fireH: nat
    const monsterW: nat
    const monsterH: nat

    ghost predicate Valid()
      reads this`playerRect, this`directionX, this`playerHealth, this`score
    {
      0 < playerRect.w <= ScreenWidth && 0 < playerRect.h <= ScreenHeight &&
      -1 <= directionX <= 1 &&
      playerHealth <= StartHealth && score >= 0
    }

    /** The module-level set-up: player centred, three health points, empty lists. */
    constructor (playerW: nat, playerH: nat, fireW: nat, fireH: nat, monsterW: nat, monsterH: nat)
      requires 0 < playerW <= ScreenWidth && 0 < playerH <= ScreenHeight
      ensures Valid()
      ensures playerRect == CenteredAt(ScreenWidth / 2, ScreenHeight / 2, playerW, playerH)
      ensures directionX == 0 && facingRight && playerHealth == StartHealth && !invincible
      ensures projectiles == [] && monsters == [] && lastFireTime == 0 && monsterSpawnTimer == 0
      ensures verticalVelocity == 0.0 && !isJumping && isOnGround && doubleJumpAvailable
      ensures running && score == 0 && theme == AssetsConfig.DefaultName
      ensures this.fireW == fireW && this.fireH == fireH && this.monsterW == monsterW && this.monsterH == monsterH
    {
      playerRect := CenteredAt(ScreenWidth / 2, ScreenHeight / 2, playerW, playerH);
      directionX := 0;
      facingRight := true;
      playerHealth := StartHealth;
      invincible := false;
      invincibleTimer := 0;
      projectiles := [];
      lastFireTime := 0;
      monsters := [];
      monsterSpawnTimer := 0;
      verticalVelocity := 0.0;
      isJumping := false;
      isOnGround := true;
      doubleJumpAvailable := true;
      running := true;
      score := 0;
      theme := AssetsConfig.DefaultName;
      this.fireW := fireW;
      this.fireH := fireH;
      this.monsterW := monsterW;
      this.monsterH := monsterH;
    }

    /** spawn_monster: append one monster on the ground at the chosen spawn point. */
    method SpawnMonster(point: SpawnPoint)
      requires point.Ground? ==> 0 <= point.x <= ScreenWidth
      modifies this`monsters
      ensures monsters == old(monsters) + [SpawnedMonster(point, monsterW, monsterH, playerRect.CenterX())]
    {
      var y := GroundLevel - monsterH;
      var m;
      match point {
        case LeftEdge =>
          m := Monster(Rect(-(monsterW as int), y, monsterW, monsterH), 1);
        case RightEdge =>
          m := Monster(Rect(ScreenWidth, y, monsterW, monsterH), -1);
        case Ground(x) =>
          var dir := if x < playerRect.CenterX() then 1 else -1;
          m := Monster(Rect(x, y, monsterW, monsterH), dir);
      }
      monsters := monsters + [m];
    }

    /** The main loop's spawn timer: strictly more than two seconds since the last
        spawn gives exactly one spawn, and the timer restarts at now. */
    method SpawnTick(now: int, point: SpawnPoint)
      requires point.Ground? ==> 0 <= point.x <= ScreenWidth
      modifies this`monsters, this`monsterSpawnTimer
      ensures now - old(monsterSpawnTimer) > MonsterSpawnIntervalMs ==>
        monsters == old(monsters) + [SpawnedMonster(point, monsterW, monsterH, playerRect.CenterX())] &&
        monsterSpawnTimer == now
      ensures now - old(monsterSpawnTimer) <= MonsterSpawnIntervalMs ==>
        monsters == old(monsters) && monsterSpawnTimer == old(monsterSpawnTimer)
    {
      if now - monsterSpawnTimer > MonsterSpawnIntervalMs {
        SpawnMonster(point);
        monsterSpawnTimer := now;
      }
    }

    /** The main loop's invincibility timer: the flag clears only once strictly more
        than one second has passed since the hit. */
    method InvincibilityTick(now: int)
      modifies this`invincible
      ensures invincible == (old(invincible) && now - invincibleTimer <= InvincibleDurationMs)
    {
      if invincible {
        if now - invincibleTimer > InvincibleDurationMs {
          invincible := false;
        }
      }
    }

    /** handle_jump_input: a jump from the ground, one weaker jump in the air, and
        nothing once the air jump is spent. */
    method HandleJumpInput(keyboardJump: bool, controllerJump: bool)
      requires Valid()
      modifies this`verticalVelocity, this`isJumping, this`isOnGround, this`doubleJumpAvailable
      ensures Valid()
      ensures EventView() == Jumped(old(EventView()), keyboardJump || controllerJump)
      ensures View() == old(View()).(ev := Jumped(old(View()).ev, keyboardJump || controllerJump))
      ensures var pressed := keyboardJump || controllerJump;
        if pressed && old(isOnGround) then
          verticalVelocity == JumpHeight && isJumping && !isOnGround &&
          doubleJumpAvailable == old(doubleJumpAvailable)
        else if pressed && old(doubleJumpAvailable) then
          verticalVelocity == JumpHeight * DoubleJumpFactor && isJumping && !isOnGround &&
          !doubleJumpAvailable
        else
          verticalVelocity == old(verticalVelocity) && isJumping == old(isJumping) &&
          isOnGround == old(isOnGround) && doubleJumpAvailable == old(doubleJumpAvailable)
    {
      if keyboardJump || controllerJump {
        if isOnGround {
          verticalVelocity := JumpHeight;
          isJumping := true;
          isOnGround := false;
        } else if doubleJumpAvailable && !isOnGround {
          verticalVelocity := JumpHeight * DoubleJumpFactor;
          doubleJumpAvailable := false;
          isJumping := true;
        }
      }
    }

    /** change_theme for the number keys: key 1 picks the first available theme and
        key 2 the second, when there is one. The sprites keep their sizes, since
        every theme scales them alike (AssetsConfig.ScalesAgree). */
    method SwitchTheme(index: nat)
      modifies this`theme
      ensures index < |AssetsConfig.AvailableThemes()| ==> theme == AssetsConfig.AvailableThemes()[index]
      ensures index >= |AssetsConfig.AvailableThemes()| ==> theme == old(theme)
      ensures EventView() == Themed(old(EventView()), index)
    {
      var themes := AssetsConfig.AvailableThemes();
      if index < |themes| {
        theme := themes[index];
      }
    }

    /** fire_projectile: at most one shot per cooldown; a shot starts at the player's
        centre and flies the way the player faces. */
    method FireProjectile(now: int)
      modifies this`lastFireTime, this`projectiles
      ensures EventView() == Fired(old(EventView()), now, Shot(playerRect, facingRight, fireW, fireH))
      ensures now - old(lastFireTime) < FireCooldownMs ==>
        lastFireTime == old(lastFireTime) && projectiles == old(projectiles)
      ensures now - old(lastFireTime) >= FireCooldownMs ==>
        lastFireTime == now &&
        projectiles == old(projectiles) + [Projectile(
          Rect(playerRect.CenterX(), playerRect.CenterY(), fireW, fireH),
          if facingRight then 1 else -1)]
    {
      if now - lastFireTime < FireCooldownMs {
        return;
      }
      lastFireTime := now;
      var direction := if facingRight then 1 else -1;
      var p := Projectile(Rect(playerRect.CenterX(), playerRect.CenterY(), fireW, fireH), direction);
      projectiles := projectiles + [p];
    }

    /** The fields the event loop changes. */
    function EventView(): EventState
      reads this`running, this`lastFireTime, this`projectiles, this`verticalVelocity,
        this`isJumping, this`isOnGround, this`doubleJumpAvailable, this`theme
    {
      EventState(running, lastFireTime, projectiles, verticalVelocity, isJumping, isOnGround,
        doubleJumpAvailable, theme)
    }

    /** The fields a pass of the main loop changes. */
    function View(): ForestState
      reads this`running, this`lastFireTime, this`projectiles, this`verticalVelocity,
        this`isJumping, this`isOnGround, this`doubleJumpAvailable, this`theme,
        this`playerRect, this`directionX, this`facingRight, this`playerHealth, this`invincible,
        this`invincibleTimer, this`monsters, this`monsterSpawnTimer, this`score
    {
      ForestState(EventView(), playerRect, directionX, facingRight, playerHealth, invincible,
        invincibleTimer, monsters, monsterSpawnTimer, score)
    }

    /** One queued event: quit requests, the fire key X, the theme keys 1 and 2,
        and the controller's A (jump) and B (fire) buttons. */
    method HandleEvent(e: ForestEvent, keys: Keys, controller: Option<Controller>, now: int)
      requires Valid()
      modifies this`running, this`lastFireTime, this`projectiles, this`verticalVelocity,
        this`isJumping, this`isOnGround, this`doubleJumpAvailable, this`theme
      ensures Valid()
      ensures EventView() == EventStep(old(EventView()), e, Shot(playerRect, facingRight, fireW, fireH),
        keys.space || (controller.Some? && controller.value.buttonA), controller.Some?, now)
    {
      match e {
        case QuitEvent => running := false;
        case KeyQ => running := false;
        case KeyX => FireProjectile(now);
        case ThemeKey(index) =>
          if index <= 1 {
            SwitchTheme(index);
          }
        case JoyButtonDown(b) =>
          if controller.Some? {
            if b == 0 {
              HandleJumpInput(keys.space, controller.value.buttonA);
            } else if b == 1 {
              FireProjectile(now);
            }
          }
        case OtherEvent =>
      }
    }

    /** The main loop's event handling: every queued event in order, the i-th one
        with the clock reading clock(i). */
    method HandleEvents(events: seq<ForestEvent>, keys: Keys, controller: Option<Controller>, clock: nat -> int)
      requires Valid()
      modifies this`running, this`lastFireTime, this`projectiles, this`verticalVelocity,
        this`isJumping, this`isOnGround, this`doubleJumpAvailable, this`theme
      ensures Valid()
      ensures EventView() == EventsApplied(old(EventView()), events, Shot(playerRect, facingRight, fireW, fireH),
        keys.space || (controller.Some? && controller.value.buttonA), controller.Some?, clock)
      ensures (exists i :: 0 <= i < |events| && (events[i].QuitEvent? || events[i].KeyQ?)) ==> !running
      ensures running ==> old(running)
      ensures |old(projectiles)| <= |projectiles| && projectiles[..|old(projectiles)|] == old(projectiles)
      ensures forall i :: |old(projectiles)| <= i < |projectiles| ==>
        projectiles[i] == Shot(playerRect, facingRight, fireW, fireH)
      ensures (forall i, j :: 0 <= i < j < |events| ==> clock(j) - clock(i) < FireCooldownMs) ==>
        |projectiles| <= |old(projectiles)| + 1
      ensures (forall i :: 0 <= i < |events| ==> !events[i].ThemeKey?) ==> theme == old(theme)
    {
      ghost var start := EventView();
      ghost var shot := Shot(playerRect, facingRight, fireW, fireH);
      ghost var jumpPressed := keys.space || (controller.Some? && controller.value.buttonA);
      EventLoop(events, keys, controller, clock);
      ghost var r := EventView();
      assert ((exists i :: 0 <= i < |events| && (events[i].QuitEvent? || events[i].KeyQ?)) ==> !r.running) &&
        (r.running ==> start.running) by {
        EventsStopRunning(start, events, shot, jumpPressed, controller.Some?, clock);
      }
      assert |start.projectiles| <= |r.projectiles| && r.projectiles[..|start.projectiles|] == start.projectiles &&
        forall i :: |start.projectiles| <= i < |r.projectiles| ==> r.projectiles[i] == shot by {
        EventsFireShots(start, events, shot, jumpPressed, controller.Some?, clock);
      }
      assert (forall i, j :: 0 <= i < j < |events| ==> clock(j) - clock(i) < FireCooldownMs) ==>
        |r.projectiles| <= |start.projectiles| + 1 by {
        if forall i, j :: 0 <= i < j < |events| ==> clock(j) - clock(i) < FireCooldownMs {
          EventsFireOnce(start, events, shot, jumpPressed, controller.Some?, clock);
        }
      }
      assert (forall i :: 0 <= i < |events| ==> !events[i].ThemeKey?) ==> r.theme == start.theme by {
        EventsThemes(start, events, shot, jumpPressed, controller.Some?, clock);
      }
    }

    /** The loop over the queued events, the i-th one handled at clock(i). */
    method EventLoop(events: seq<ForestEvent>, keys: Keys, controller: Option<Controller>, clock: nat -> int)
      requires Valid()
      modifies this`running, this`lastFireTime, this`projectiles, this`verticalVelocity,
        this`isJumping, this`isOnGround, this`doubleJumpAvailable, this`theme
      ensures Valid()
      ensures EventView() == EventsApplied(old(EventView()), events, Shot(playerRect, facingRight, fireW, fireH),
        keys.space || (controller.Some? && controller.value.buttonA), controller.Some?, clock)
    {
      ghost var start := EventView();
      ghost var shot := Shot(playerRect, facingRight, fireW, fireH);
      ghost var jumpPressed := keys.space || (controller.Some? && controller.value.buttonA);
      var e := 0;
      while e < |events|
        invariant 0 <= e <= |events| && Valid()
        invariant EventView() == EventsApplied(start, events[..e], shot, jumpPressed, controller.Some?, clock)
      {
        HandleEvent(events[e], keys, controller, clock(e));
        EventsAppliedStep(start, events, e, shot, jumpPressed, controller.Some?, clock);
        e := e + 1;
      }
      assert events[..e] == events;
    }

    /** The main loop's keyboard movement: Right and Left give the direction and the
        facing; both held leave the direction at its reset value. */
    method KeyboardMove(keys: Keys)
      requires Valid()
      modifies this`facingRight, this`directionX
      ensures Valid()
      ensures !keys.left && !keys.right ==>
        facingRight == old(facingRight) && directionX == old(directionX)
      ensures keys.left || keys.right ==> facingRight == !keys.left
      ensures keys.left && keys.right ==> directionX == old(directionX)
      ensures keys.left != keys.right ==> directionX == (if keys.right then 1 else -1)
      ensures View() == KeyboardSteered(old(View()), keys)
    {
      if keys.left || keys.right {
        if keys.right {
          facingRight := true;
        }
        if keys.left {
          facingRight := false;
        }
        var vx := (if keys.right then 1 else 0) - (if keys.left then 1 else 0);
        if vx != 0 {
          directionX := vx;
        }
      }
    }

    /** handle_controller_input: a stick deflection under the dead zone counts as 0;
        any other deflection sets the facing and (normalised) the direction. */
    method HandleControllerInput(controller: Option<Controller>)
      requires Valid()
      modifies this`facingRight, this`directionX
      ensures Valid()
      ensures controller.None? || Abs(controller.value.axisX) < ControllerDeadzone ==>
        facingRight == old(facingRight) && directionX == old(directionX)
      ensures controller.Some? && Abs(controller.value.axisX) >= ControllerDeadzone ==>
        facingRight == (controller.value.axisX > 0.0) &&
        directionX == (if controller.value.axisX > 0.0 then 1 else -1)
      ensures View() == ControllerSteered(old(View()), controller)
    {
      if controller.None? {
        return;
      }
      var leftX := controller.value.axisX;
      if Abs(leftX) < ControllerDeadzone {
        leftX := 0.0;
      }
      if leftX > 0.1 {
        facingRight := true;
      } else if leftX < -0.1 {
        facingRight := false;
      }
      if leftX != 0.0 {
        directionX := if leftX > 0.0 then 1 else -1;
      }
    }

    /** Gravity into the velocity, then the vertical step, then the horizontal step,
        then the ground test: landing snaps to the ground and restores the air jump. */
    method ApplyPhysics(dt: real)
      requires Valid()
      modifies this`verticalVelocity, this`playerRect, this`isOnGround, this`isJumping,
        this`doubleJumpAvailable
      ensures Valid()
      ensures playerRect.Bottom() <= GroundLevel
      ensures isOnGround <==> playerRect.Bottom() == GroundLevel
      ensures var v := old(verticalVelocity) + Gravity * dt;
        var moved := Slid(Fallen(old(playerRect), v, dt), directionX, dt);
        if moved.Bottom() >= GroundLevel then
          playerRect == moved.WithBottom(GroundLevel) && verticalVelocity == 0.0 &&
          isOnGround && !isJumping && doubleJumpAvailable
        else
          playerRect == moved && verticalVelocity == v && !isOnGround &&
          isJumping == old(isJumping) && doubleJumpAvailable == old(doubleJumpAvailable)
      ensures View() == Fell(old(View()), dt)
    {
      var velocity := verticalVelocity + Gravity * dt;
      var rect := Fallen(playerRect, velocity, dt);
      rect := Slid(rect, directionX, dt);
      if rect.Bottom() >= GroundLevel {
        playerRect, verticalVelocity, isOnGround, isJumping, doubleJumpAvailable :=
          rect.WithBottom(GroundLevel), 0.0, true, false, true;
      } else {
        playerRect, verticalVelocity, isOnGround := rect, velocity, false;
      }
    }

    /** The main loop's screen clamp. */
    method ClampPlayer()
      requires Valid()
      modifies this`playerRect
      ensures Valid()
      ensures playerRect == KeepOnScreen(old(playerRect))
      ensures 0 <= playerRect.Left() && playerRect.Right() <= ScreenWidth
      ensures 0 <= playerRect.Top() && playerRect.Bottom() <= ScreenHeight
    {
      playerRect := KeepOnScreen(playerRect);
    }

    /** update_projectiles: move every projectile; each destroys the first monster it
        touches for KillScore points; keep the ones that hit nothing and are on screen. */
    method UpdateProjectiles(dt: real)
      modifies this`projectiles, this`monsters, this`score
      ensures var o := ProjectilePass(old(projectiles), old(monsters), dt);
        projectiles == o.kept && monsters == o.monsters && score == old(score) + o.gained
      ensures score - old(score) == KillScore * (|old(monsters)| - |monsters|)
      ensures |monsters| <= |old(monsters)|
      ensures View() == ProjectilesResolved(old(View()), dt)
    {
      ghost var s0 := View();
      var o := RunProjectiles(projectiles, monsters, dt);
      ProjectilePassScore(projectiles, monsters, dt);
      projectiles, monsters, score := o.kept, o.monsters, score + o.gained;
      assert View() == s0.(ev := s0.ev.(projectiles := o.kept), monsters := o.monsters, score := s0.score + o.gained);
    }

    /** update_monsters: move every monster; unless invincible, the first monster
        touching the player costs one health point, starts the invincibility window
        and knocks the player 50 pixels along the given vector. */
    method UpdateMonsters(dt: real, now: int, knockback: (Rect, Rect) -> (real, real))
      modifies this`monsters, this`playerHealth, this`invincible, this`invincibleTimer, this`playerRect
      ensures monsters == MovedMonsters(old(monsters), dt)
      ensures old(playerHealth) - 1 <= playerHealth <= old(playerHealth)
      ensures old(invincible) ==> playerHealth == old(playerHealth)
      ensures playerRect.w == old(playerRect).w && playerRect.h == old(playerRect).h
      ensures var contact := if old(invincible) then None else FirstOverlap(old(playerRect), monsters);
        match contact
        case None =>
          playerHealth == old(playerHealth) && invincible == old(invincible) &&
          invincibleTimer == old(invincibleTimer) && playerRect == old(playerRect)
        case Some(j) =>
          playerHealth == old(playerHealth) - 1 && invincible && invincibleTimer == now &&
          playerRect == KnockedBack(old(playerRect), knockback(old(playerRect), monsters[j].rect))
      ensures View() == MonstersResolved(old(View()), dt, now, knockback)
    {
      ghost var s0 := View();
      var moved, v := RunMonsters(monsters, Vitals(playerHealth, invincible, invincibleTimer, playerRect),
                                  dt, now, knockback);
      monsters, playerHealth, invincible, invincibleTimer, playerRect := moved, v.health, v.invincible, v.timer, v.rect;
      assert View() == s0.(monsters := moved, playerHealth := v.health, invincible := v.invincible,
                           invincibleTimer := v.timer, playerRect := v.rect);
    }

    /** The game-over test: the loop stops once health is 0 or below. */
    method CheckGameOver()
      modifies this`running
      ensures running == (old(running) && playerHealth > 0)
    {
      if playerHealth <= 0 {
        running := false;
      }
    }

    /** The start of a pass of the main loop: spawn timer, invincibility timer and
        direction reset. */
    method FrameTimers(now: int, spawn: SpawnPoint)
      requires Valid()
      requires spawn.Ground? ==> 0 <= spawn.x <= ScreenWidth
      modifies this`monsters, this`monsterSpawnTimer, this`invincible, this`directionX
      ensures Valid() && directionX == 0
      ensures |monsters| == |old(monsters)| + if now - old(monsterSpawnTimer) > MonsterSpawnIntervalMs then 1 else 0
      ensures invincible == (old(invincible) && now - invincibleTimer <= InvincibleDurationMs)
      ensures View() == Timed(old(View()), now, spawn, monsterW, monsterH)
    {
      SpawnTick(now, spawn);
      InvincibilityTick(now);
      directionX := 0;
    }

    /** The input part of a pass: events, keyboard, jump key and controller. Health,
        score, monsters and the player's rectangle are untouched. */
    method FrameControls(input: FrameInput)
      requires Valid()
      modifies this`directionX, this`facingRight, this`running, this`lastFireTime, this`projectiles,
        this`verticalVelocity, this`isJumping, this`isOnGround, this`doubleJumpAvailable, this`theme
      ensures Valid()
      ensures running ==> old(running)
      ensures (exists i :: 0 <= i < |input.events| && (input.events[i].QuitEvent? || input.events[i].KeyQ?)) ==> !running
      ensures View() == Controlled(old(View()), input, fireW, fireH)
    {
      ghost var s0 := View();
      ControlledFacts(s0, input, fireW, fireH);
      HandleEvents(input.events, input.keys, input.controller, input.clock);
      ghost var s1 := View();
      assert s1 == s0.(ev := EventsApplied(s0.ev, input.events, Shot(s0.playerRect, s0.facingRight, fireW, fireH),
        input.keys.space || (input.controller.Some? && input.controller.value.buttonA),
        input.controller.Some?, input.clock));
      FrameSteering(input.keys, input.controller);
    }

    /** The polled input of a pass: keyboard movement, the space-bar jump and the
        controller's stick. */
    method FrameSteering(keys: Keys, controller: Option<Controller>)
      requires Valid()
      modifies this`directionX, this`facingRight, this`verticalVelocity, this`isJumping, this`isOnGround,
        this`doubleJumpAvailable
      ensures Valid()
      ensures View() == InputSteered(old(View()), keys, controller)
    {
      KeyboardMove(keys);
      ghost var s1 := View();
      if keys.space {
        HandleJumpInput(true, controller.Some? && controller.value.buttonA);
      }
      assert View() == if keys.space then s1.(ev := Jumped(s1.ev, true)) else s1;
      HandleControllerInput(controller);
    }

    /** Gravity, movement, ground test and screen clamp. Health, score and the
        monsters are untouched. */
    method FrameMovement(dt: real)
      requires Valid()
      modifies this`verticalVelocity, this`playerRect, this`isOnGround, this`isJumping,
        this`doubleJumpAvailable
      ensures Valid()
      ensures 0 <= playerRect.Left() && playerRect.Right() <= ScreenWidth
      ensures 0 <= playerRect.Top() && playerRect.Bottom() <= ScreenHeight
      ensures View() == PlayerMoved(old(View()), dt)
    {
      ApplyPhysics(dt);
      ghost var f := View();
      ClampPlayer();
      assert View() == f.(playerRect := KeepOnScreen(f.playerRect));
    }

    /** The end of a pass: projectiles, monsters and the game-over test. */
    method FrameCombat(dt: real, hitNow: int, knockback: (Rect, Rect) -> (real, real))
      requires Valid()
      modifies this`playerRect, this`projectiles, this`monsters, this`score,
        this`playerHealth, this`invincible, this`invincibleTimer, this`running
      ensures Valid()
      ensures old(playerHealth) - 1 <= playerHealth <= old(playerHealth)
      ensures old(invincible) ==> playerHealth == old(playerHealth)
      ensures score - old(score) == KillScore * (|old(monsters)| - |monsters|)
      ensures |monsters| <= |old(monsters)|
      ensures running == (old(running) && playerHealth > 0)
      ensures View() == Fought(old(View()), dt, hitNow, knockback)
    {
      UpdateProjectiles(dt);
      UpdateMonsters(dt, hitNow, knockback);
      ghost var m := View();
      CheckGameOver();
      assert View() == m.(ev := m.ev.(running := m.ev.running && m.playerHealth > 0));
    }

    /** One pass of the main loop, rendering left out. */
    method Frame(input: FrameInput, knockback: (Rect, Rect) -> (real, real))
      requires Valid() && running
      requires input.spawn.Ground? ==> 0 <= input.spawn.x <= ScreenWidth
      modifies this
      ensures Valid()
      ensures old(playerHealth) - 1 <= playerHealth <= old(playerHealth)
      ensures old(invincible) && input.now - old(invincibleTimer) <= InvincibleDurationMs ==>
        playerHealth == old(playerHealth)
      ensures var spawned := if input.now - old(monsterSpawnTimer) > MonsterSpawnIntervalMs then 1 else 0;
        |monsters| <= |old(monsters)| + spawned &&
        score - old(score) == KillScore * (|old(monsters)| + spawned - |monsters|)
      ensures playerHealth <= 0 ==> !running
      ensures View() == FrameStep(old(View()), input, knockback, fireW, fireH, monsterW, monsterH)
    {
      ghost var s0 := View();
      FrameStepFacts(s0, input, knockback, fireW, fireH, monsterW, monsterH);
      FrameTimers(input.now, input.spawn);
      FrameControls(input);
      FrameMovement(input.dt);
      FrameCombat(input.dt, input.hitNow, knockback);
    }
  }
}
