/** What the companion's tick promises: how long an attack and a death last, when a
    death is triggered, when the companion idles or turns, where a step takes it, and
    how often onAnimationFrame lets a tick through. */
module EngineProperties {
  import opened Wrappers
  import opened JsBuiltins
  import opened Catalog
  import opened SpriteSheets
  import opened Engine

  // ---------------------------------------------------------------------------
  // setSprite

  /** setSprite shows the chosen sheet scaled to the display height, at the column
      `frameIndex % frames`, mirrored when facing left, centred on the companion; the
      background image is replaced only when the sheet changes. */
  lemma SetSpriteShows(a: Agent, env: Env, name: string, frameIndex: int)
    requires env.Valid() && !env.sprites.IsEmpty()
    ensures var n := ChooseSpriteName(env.sprites, name).value;
      var sheet := env.sprites.sheets[n];
      var r := SetSprite(a, env, name, frameIndex);
      && r.meta.Some? && r.meta.value.name == n && r.meta.value.frames == sheet.frames
      && r.element.height == env.tuning.displayHeight
      && r.element.width == r.meta.value.renderWidth
      && r.element.height == r.meta.value.renderHeight
      && r.element.width * sheet.frameHeight == sheet.frameWidth * env.tuning.displayHeight
      && r.element.sheetWidth == r.element.width * sheet.frames as real
      && r.element.offsetX == -(ShownColumn(frameIndex, sheet.frames) as real * r.element.width)
      && r.element.mirrored == a.facingLeft
      && r.element.image == (if a.meta.Some? && a.meta.value.name == n then a.element.image else sheet.url)
      && r.element.left == a.posX - r.element.width / 2.0
      && r.element.top == a.posY - r.element.height / 2.0
  {
    var n := ChooseSpriteName(env.sprites, name).value;
    var sheet := env.sprites.sheets[n];
    var scale := env.tuning.displayHeight / sheet.frameHeight;
    assert sheet.frameHeight * scale == env.tuning.displayHeight;
    assert sheet.frameWidth * scale * sheet.frameHeight == sheet.frameWidth * env.tuning.displayHeight;
  }

  // ---------------------------------------------------------------------------
  // Attacking

  /** One attack tick: the attack frame advances, and the attack ends exactly when it
      has shown every frame of its sheet for three ticks; the companion stays put. */
  lemma AttackTick(a: Agent, env: Env, tick: TickInput)
    requires env.Valid() && a.isAttacking
    requires FirstLoaded(env.sprites, AttackSheets).Some?
    requires var frames := env.sprites.sheets[FirstLoaded(env.sprites, AttackSheets).value].frames;
      0 <= a.attackFrame < AttackFrameDuration * frames
    ensures var frames := env.sprites.sheets[FirstLoaded(env.sprites, AttackSheets).value].frames;
      var r := Frame(a, env, tick);
      && r.isAttacking == (a.attackFrame + 1 < AttackFrameDuration * frames)
      && r.attackFrame == (if r.isAttacking then a.attackFrame + 1 else 0)
      && r.posX == a.posX && r.posY == a.posY && r.facingLeft == a.facingLeft
      && r.isDead == a.isDead && r.idleTimer == a.idleTimer
  {
    var frames := env.sprites.sheets[FirstLoaded(env.sprites, AttackSheets).value].frames;
    var next := a.attackFrame + 1;
    if next < AttackFrameDuration * frames {
      assert next / AttackFrameDuration < frames by {
        assert next / AttackFrameDuration * AttackFrameDuration <= next;
      }
    } else {
      assert next / AttackFrameDuration >= frames;
    }
  }

  /** Ticks of an attack in progress: it is still on until 3 × frames ticks after it
      began, and it ends on that tick; the companion neither moves, turns nor dies. */
  lemma {:induction false} AttackRun(a: Agent, env: Env, ticks: seq<TickInput>)
    requires env.Valid() && a.isAttacking
    requires FirstLoaded(env.sprites, AttackSheets).Some?
    requires var frames := env.sprites.sheets[FirstLoaded(env.sprites, AttackSheets).value].frames;
      0 <= a.attackFrame < AttackFrameDuration * frames
      && a.attackFrame + |ticks| <= AttackFrameDuration * frames
    ensures var frames := env.sprites.sheets[FirstLoaded(env.sprites, AttackSheets).value].frames;
      var r := Run(a, env, ticks);
      && r.isAttacking == (a.attackFrame + |ticks| < AttackFrameDuration * frames)
      && r.attackFrame == (if r.isAttacking then a.attackFrame + |ticks| else 0)
      && r.posX == a.posX && r.posY == a.posY && r.facingLeft == a.facingLeft
      && r.isDead == a.isDead && r.frameCount == a.frameCount + |ticks|
    decreases |ticks|
  {
    if ticks != [] {
      AttackTick(a, env, ticks[0]);
      var b := Frame(a, env, ticks[0]);
      assert Run(a, env, ticks) == Run(b, env, ticks[1..]);
      if b.isAttacking {
        AttackRun(b, env, ticks[1..]);
      } else {
        assert ticks[1..] == [];
      }
    }
  }

  /** A click on a living, idle companion starts an attack that lasts exactly
      3 × frames ticks of the sheet it is shown with. */
  lemma AttackLastsThreeTicksPerFrame(a: Agent, env: Env, ticks: seq<TickInput>)
    requires env.Valid() && !a.isDead && !a.isAttacking
    requires FirstLoaded(env.sprites, AttackSheets).Some?
    requires |ticks| <= AttackFrameDuration * env.sprites.sheets[FirstLoaded(env.sprites, AttackSheets).value].frames
    ensures var r := Run(Click(a), env, ticks);
      && (r.isAttacking <==> |ticks| < AttackFrameDuration * env.sprites.sheets[FirstLoaded(env.sprites, AttackSheets).value].frames)
      && !r.isDead && r.posX == a.posX && r.posY == a.posY
  {
    AttackRun(Click(a), env, ticks);
  }

  // ---------------------------------------------------------------------------
  // Dying

  /** One death tick: the death frame advances and the companion revives once it
      reaches deathDurationFrames; it neither moves nor attacks. */
  lemma DeathTick(a: Agent, env: Env, tick: TickInput)
    requires env.Valid() && a.isDead && !a.isAttacking
    requires FirstLoaded(env.sprites, DeathSheets).Some?
    ensures var r := Frame(a, env, tick);
      && r.isDead == (a.deathFrame + 1 < env.tuning.deathDurationFrames)
      && r.deathFrame == (if r.isDead then a.deathFrame + 1 else 0)
      && !r.isAttacking && r.posX == a.posX && r.posY == a.posY && r.facingLeft == a.facingLeft
  {
  }

  /** Ticks of a death in progress: it lasts until deathFrame reaches
      deathDurationFrames, then the companion revives. */
  lemma {:induction false} DeathRun(a: Agent, env: Env, ticks: seq<TickInput>)
    requires env.Valid() && a.isDead && !a.isAttacking
    requires FirstLoaded(env.sprites, DeathSheets).Some?
    requires 0 <= a.deathFrame < env.tuning.deathDurationFrames
    requires a.deathFrame + |ticks| <= env.tuning.deathDurationFrames
    ensures var r := Run(a, env, ticks);
      && r.isDead == (a.deathFrame + |ticks| < env.tuning.deathDurationFrames)
      && r.deathFrame == (if r.isDead then a.deathFrame + |ticks| else 0)
      && !r.isAttacking && r.posX == a.posX && r.posY == a.posY && r.facingLeft == a.facingLeft
      && r.frameCount == a.frameCount + |ticks|
    decreases |ticks|
  {
    if ticks != [] {
      DeathTick(a, env, ticks[0]);
      var b := Frame(a, env, ticks[0]);
      assert Run(a, env, ticks) == Run(b, env, ticks[1..]);
      if b.isDead {
        DeathRun(b, env, ticks[1..]);
      } else {
        assert ticks[1..] == [];
      }
    }
  }

  /** A triggered death lasts exactly deathDurationFrames ticks. */
  lemma DeathLastsDeathDurationFrames(a: Agent, env: Env, ticks: seq<TickInput>)
    requires env.Valid() && !a.isAttacking
    requires FirstLoaded(env.sprites, DeathSheets).Some?
    requires |ticks| <= env.tuning.deathDurationFrames
    ensures var r := Run(TriggerDeath(a), env, ticks);
      (r.isDead <==> |ticks| < env.tuning.deathDurationFrames) && r.posX == a.posX && r.posY == a.posY
  {
    DeathRun(TriggerDeath(a), env, ticks);
  }

  /** handleDeathState shows the death sheet at frame deathFrame / 4, held at its last
      frame once the animation has run out. */
  lemma DeathStepShowsHeldFrame(a: Agent, env: Env)
    requires env.Valid() && a.deathFrame >= 0
    requires FirstLoaded(env.sprites, DeathSheets).Some?
    requires a.deathFrame + 1 < env.tuning.deathDurationFrames
    ensures var n := FirstLoaded(env.sprites, DeathSheets).value;
      var frames := env.sprites.sheets[n].frames;
      var r := DeathStep(a, env);
      var shown := DeathIndex(a.deathFrame, frames);
      && 0 <= shown <= frames - 1
      && (a.deathFrame < DeathFrameDuration * frames ==> shown == a.deathFrame / DeathFrameDuration)
      && r.meta.Some? && r.meta.value.name == n
      && r.element.offsetX == -(shown as real * r.element.width)
  {
    var n := FirstLoaded(env.sprites, DeathSheets).value;
    var frames := env.sprites.sheets[n].frames;
    var shown := DeathIndex(a.deathFrame, frames);
    DeathIndexIsHeld(a.deathFrame, frames);
    SetSpriteShows(a, env, n, shown);
  }

  /** The death frame index is a real column of the sheet: deathFrame / 4 until the
      sheet runs out, then the last column. */
  lemma DeathIndexIsHeld(deathFrame: int, frames: int)
    requires deathFrame >= 0 && frames >= 1
    ensures var shown := DeathIndex(deathFrame, frames);
      && 0 <= shown <= frames - 1
      && ShownColumn(shown, frames) == shown
      && (deathFrame < DeathFrameDuration * frames ==> shown == deathFrame / DeathFrameDuration)
      && (deathFrame >= DeathFrameDuration * frames ==> shown == frames - 1)
  {
    if deathFrame < DeathFrameDuration * frames {
      assert deathFrame / DeathFrameDuration < frames by {
        assert deathFrame / DeathFrameDuration * DeathFrameDuration <= deathFrame;
      }
    }
  }

  /** The same, for a tick of a dead companion. */
  lemma DeathShowsHeldFrame(a: Agent, env: Env, tick: TickInput)
    requires env.Valid() && a.isDead && !a.isAttacking && a.deathFrame >= 0
    requires FirstLoaded(env.sprites, DeathSheets).Some?
    requires a.deathFrame + 1 < env.tuning.deathDurationFrames
    ensures var n := FirstLoaded(env.sprites, DeathSheets).value;
      var r := Frame(a, env, tick);
      && r.meta.Some? && r.meta.value.name == n
      && r.element.offsetX == -(DeathIndex(a.deathFrame, env.sprites.sheets[n].frames) as real * r.element.width)
  {
    var counted := a.(frameCount := a.frameCount + 1);
    DeathStepShowsHeldFrame(counted, env);
    assert Frame(a, env, tick) == DeathStep(counted, env);
  }

  /** When none of the dead, idle and run sheets is loaded, a dead companion never
      revives: handleDeathState returns before counting. */
  lemma {:induction false} DeathWithoutSheetsNeverEnds(a: Agent, env: Env, ticks: seq<TickInput>)
    requires env.Valid() && a.isDead && !a.isAttacking
    requires FirstLoaded(env.sprites, DeathSheets).None?
    ensures var r := Run(a, env, ticks);
      r.isDead && !r.isAttacking && r.deathFrame == a.deathFrame && r.posX == a.posX && r.posY == a.posY
    decreases |ticks|
  {
    if ticks != [] {
      DeathWithoutSheetsNeverEnds(Frame(a, env, ticks[0]), env, ticks[1..]);
    }
  }

  /** With none of the attack, run and idle sheets loaded, handleAttackState returns at
      once: a started attack never ends and the companion stays where it is. */
  lemma {:induction false} AttackWithoutSheetsNeverEnds(a: Agent, env: Env, ticks: seq<TickInput>)
    requires env.Valid() && a.isAttacking && !a.isDead
    requires FirstLoaded(env.sprites, AttackSheets).None?
    ensures var r := Run(a, env, ticks);
      r.isAttacking && !r.isDead && r.attackFrame == a.attackFrame && r.posX == a.posX && r.posY == a.posY
    decreases |ticks|
  {
    if ticks != [] {
      AttackWithoutSheetsNeverEnds(Frame(a, env, ticks[0]), env, ticks[1..]);
    }
  }

  // ---------------------------------------------------------------------------
  // Living and not attacking

  /** The scripted death: a living companion dies on a tick exactly when it is neither
      attacking nor moving and deathIntervalSeconds have passed since the last death;
      the death is then stamped with the elapsed whole seconds. */
  lemma DeathTriggeredWhenDue(a: Agent, env: Env, tick: TickInput)
    requires env.Valid() && !a.isDead
    ensures var r := Frame(a, env, tick);
      && (r.isDead <==> !a.isAttacking && IsIdle(env, tick.distance) && DeathDue(a, env, tick.nowMs))
      && (r.isDead ==> r.deathFrame == 0 && r.lastDeathTrigger == ElapsedSeconds(env.startMs, tick.nowMs))
      && (!r.isDead ==> r.lastDeathTrigger == a.lastDeathTrigger)
  {
  }

  /** The idle branch: while neither attacking nor dead, the idle timer counts the ticks
      spent within reach of the pointer and is reset by every move. */
  lemma IdleWhenPointerIsNear(a: Agent, env: Env, tick: TickInput)
    requires env.Valid() && !a.isDead && !a.isAttacking
    ensures var r := Frame(a, env, tick);
      && r.idleTimer == (if IsIdle(env, tick.distance) then a.idleTimer + 1 else 0)
      && (IsIdle(env, tick.distance) ==> r.posX == a.posX && r.posY == a.posY && r.facingLeft == a.facingLeft)
  {
  }

  /** The companion turns only on a move, and only towards a pointer more than one pixel
      to that side. */
  lemma TurnsOnlyPastOnePixel(a: Agent, env: Env, tick: TickInput)
    requires env.Valid()
    ensures var r := Frame(a, env, tick);
      r.facingLeft != a.facingLeft ==>
        && !a.isAttacking && !a.isDead && !IsIdle(env, tick.distance)
        && (if r.facingLeft then a.posX - a.mouseX > 1.0 else a.posX - a.mouseX < -1.0)
  {
  }

  /** A step of `speed` towards the pointer, before clamping, leaves the companion
      exactly `speed` closer to it. */
  lemma StepShortensDistance(a: Agent, speed: real, distance: real)
    requires IsPointerDistance(a, distance) && 0.0 < speed <= distance
    ensures var p := StepTowardPointer(a, speed, distance);
      IsPointerDistance(a.(posX := p.0, posY := p.1), distance - speed)
  {
    var dx, dy := a.posX - a.mouseX, a.posY - a.mouseY;
    var k := (distance - speed) / distance;
    var p := StepTowardPointer(a, speed, distance);
    ShrinkTowardZero(dx, distance, speed);
    ShrinkTowardZero(dy, distance, speed);
    assert p.0 - a.mouseX == dx * k;
    assert p.1 - a.mouseY == dy * k;
    SumOfScaledSquares(dx, dy, k);
    assert distance * k == distance - speed;
    SquareOfProduct(distance, k);
  }

  /** x - (x / d) * s == x * ((d - s) / d) */
  lemma ShrinkTowardZero(x: real, d: real, s: real)
    requires d > 0.0
    ensures x - x / d * s == x * ((d - s) / d)
  {
    assert x / d * s == x * s / d;
    assert x * ((d - s) / d) == (x * d - x * s) / d;
  }

  lemma SumOfScaledSquares(x: real, y: real, k: real)
    ensures (x * k) * (x * k) + (y * k) * (y * k) == (x * x + y * y) * (k * k)
  {
  }

  lemma SquareOfProduct(x: real, k: real)
    ensures (x * k) * (x * k) == (x * x) * (k * k)
  {
  }

  /** The moving branch lands on the step towards the pointer, clamped so that the
      sprite stays inside the viewport whenever the viewport is at least as large as
      the sprite. */
  lemma MoveStepStaysInViewport(a: Agent, env: Env, tick: TickInput)
    requires env.Valid() && !env.sprites.IsEmpty() && tick.distance != 0.0
    ensures var r := MoveStep(a, env, tick);
      var p := StepTowardPointer(a, env.tuning.speed, tick.distance);
      var w, h := r.element.width, r.element.height;
      && h == env.tuning.displayHeight
      && r.posX == Clamp(p.0, w / 2.0, tick.innerWidth - w / 2.0)
      && r.posY == Clamp(p.1, h / 2.0, tick.innerHeight - h / 2.0)
      && (tick.innerWidth >= w ==> 0.0 <= r.element.left && r.element.left + w <= tick.innerWidth)
      && (tick.innerHeight >= h ==> 0.0 <= r.element.top && r.element.top + h <= tick.innerHeight)
  {
    var turned := a.(idleTimer := 0, facingLeft := Facing(a.facingLeft, a.posX - a.mouseX));
    var name := if "run" in env.sprites.sheets then "run" else "idle";
    var shown := SetSprite(turned, env, name, turned.frameCount / RunFrameDivider);
    SetSpriteShows(turned, env, name, turned.frameCount / RunFrameDivider);
    assert RenderWidth(shown, env.tuning.displayHeight) == shown.element.width;
    assert RenderHeight(shown, env.tuning.displayHeight) == env.tuning.displayHeight;
  }

  /** The same, for a tick of a living companion out of reach of the pointer. */
  lemma MoveStaysInViewport(a: Agent, env: Env, tick: TickInput)
    requires env.Valid() && !env.sprites.IsEmpty()
    requires !a.isDead && !a.isAttacking && !IsIdle(env, tick.distance)
    ensures var r := Frame(a, env, tick);
      var p := StepTowardPointer(a, env.tuning.speed, tick.distance);
      var w, h := r.element.width, r.element.height;
      && r.posX == Clamp(p.0, w / 2.0, tick.innerWidth - w / 2.0)
      && r.posY == Clamp(p.1, h / 2.0, tick.innerHeight - h / 2.0)
      && (tick.innerWidth >= w ==> 0.0 <= r.element.left && r.element.left + w <= tick.innerWidth)
      && (tick.innerHeight >= h ==> 0.0 <= r.element.top && r.element.top + h <= tick.innerHeight)
  {
    var counted := a.(frameCount := a.frameCount + 1);
    FrameOfMover(a, env, tick);
    StepIgnoresFrameCount(a, a.frameCount + 1, env.tuning.speed, tick.distance);
    MoveStepStaysInViewport(counted, env, tick);
  }

  lemma FrameOfMover(a: Agent, env: Env, tick: TickInput)
    requires env.Valid() && !a.isDead && !a.isAttacking && !IsIdle(env, tick.distance)
    ensures Frame(a, env, tick) == MoveStep(a.(frameCount := a.frameCount + 1), env, tick)
  {
  }

  lemma StepIgnoresFrameCount(a: Agent, n: int, speed: real, distance: real)
    requires distance != 0.0
    ensures StepTowardPointer(a.(frameCount := n), speed, distance) == StepTowardPointer(a, speed, distance)
  {
    var p, q := StepTowardPointer(a.(frameCount := n), speed, distance), StepTowardPointer(a, speed, distance);
    assert p.0 == q.0 && p.1 == q.1;
  }

  // ---------------------------------------------------------------------------
  // Invariants over many ticks and events

  /** Every tick, click and pointer move keeps the companion from attacking while dead. */
  lemma EventsKeepExclusive(a: Agent, env: Env, tick: TickInput, timestamp: real, connected: bool,
                            clientX: real, clientY: real)
    requires env.Valid() && Exclusive(a)
    ensures Exclusive(InitialAgent)
    ensures Exclusive(Frame(a, env, tick))
    ensures Exclusive(OnAnimationFrame(a, env, timestamp, connected, tick).0)
    ensures Exclusive(Click(a))
    ensures Exclusive(MouseMove(a, clientX, clientY))
  {
  }

  /** Over any run of ticks the frame counter counts them and the companion is never
      attacking while dead. */
  lemma {:induction false} RunCountsTicks(a: Agent, env: Env, ticks: seq<TickInput>)
    requires env.Valid() && Exclusive(a)
    ensures Run(a, env, ticks).frameCount == a.frameCount + |ticks|
    ensures Exclusive(Run(a, env, ticks))
    decreases |ticks|
  {
    if ticks != [] {
      RunCountsTicks(Frame(a, env, ticks[0]), env, ticks[1..]);
    }
  }

  /** A click starts an attack exactly when the companion is alive and not attacking. */
  lemma ClickStartsAttack(a: Agent)
    ensures Click(a).isAttacking <==> a.isAttacking || !a.isDead
    ensures !a.isDead && !a.isAttacking ==> Click(a) == a.(isAttacking := true, attackFrame := 0)
    ensures a.isDead || a.isAttacking ==> Click(a) == a
  {
  }

  // ---------------------------------------------------------------------------
  // The animation-frame throttle

  /** While the element is attached, a frame is always requested again, and a tick runs
      exactly when a previous timestamp is set and at least 100 ms have passed since it;
      the first callback only records its timestamp. A detached element stops the loop
      and changes nothing. */
  lemma ThrottleTicksEvery100ms(a: Agent, env: Env, timestamp: real, connected: bool, tick: TickInput)
    requires env.Valid()
    ensures var (r, again) := OnAnimationFrame(a, env, timestamp, connected, tick);
      var fired := !Unset(a.lastFrameTimestamp) && timestamp - a.lastFrameTimestamp.value >= TickInterval;
      && again == connected
      && (!connected ==> r == a)
      && (connected ==> (r.frameCount == a.frameCount + 1 <==> fired))
      && (connected && !fired ==> r == a.(lastFrameTimestamp := r.lastFrameTimestamp))
      && (connected && (fired || Unset(a.lastFrameTimestamp)) ==> r.lastFrameTimestamp == Some(timestamp))
      && (connected && !fired && !Unset(a.lastFrameTimestamp) ==> r.lastFrameTimestamp == a.lastFrameTimestamp)
  {
  }

  /** After a tick at a non-zero timestamp, the next tick runs no earlier than 100 ms
      later. */
  lemma TicksAreAtLeast100msApart(a: Agent, env: Env, t1: real, t2: real, tick1: TickInput, tick2: TickInput)
    requires env.Valid() && t1 != 0.0
    requires var (b, _) := OnAnimationFrame(a, env, t1, true, tick1); b.frameCount == a.frameCount + 1
    ensures var (b, _) := OnAnimationFrame(a, env, t1, true, tick1);
      var (c, _) := OnAnimationFrame(b, env, t2, true, tick2);
      c.frameCount == b.frameCount + 1 <==> t2 - t1 >= TickInterval
  {
    ThrottleTicksEvery100ms(a, env, t1, true, tick1);
    var (b, _) := OnAnimationFrame(a, env, t1, true, tick1);
    ThrottleTicksEvery100ms(b, env, t2, true, tick2);
  }
}
