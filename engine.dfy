/** The companion's per-tick behaviour (companion.js:241-262 and 354-531) as functions of
    its state: setSprite, the attack, death and idle handlers, the moving branch of
    frame(), the 100 ms throttle of onAnimationFrame, and the click and mouse-move
    listeners. The class in follower.dfy runs the same steps on mutable fields and is
    proved equal to these functions. */
module Engine {
  import opened Wrappers
  import opened JsBuiltins
  import opened Catalog
  import opened SpriteSheets

  const AttackFrameDuration: int := 3
  const DeathFrameDuration: int := 4
  const IdleFrameDivider: int := 6
  const RunFrameDivider: int := 2
  /** Minimum milliseconds between two ticks. */
  const TickInterval: real := 100.0

  /** currentSpriteMeta: what setSprite last showed. */
  datatype SpriteMeta = SpriteMeta(name: string, renderWidth: real, renderHeight: real,
                                   scale: real, frames: int)

  /** The numbers the companion element's inline style is written from. */
  datatype Element = Element(
    image: string,      // url in backgroundImage
    sheetWidth: real,   // first value of backgroundSize
    width: real,        // style.width
    height: real,       // style.height
    offsetX: real,      // first value of backgroundPosition
    mirrored: bool,     // transform is scaleX(-1)
    left: real,         // style.left
    top: real)          // style.top

  const BlankElement: Element := Element("", 0.0, 0.0, 0.0, 0.0, false, 0.0, 0.0)

  /** The module-level variables of the companion script. */
  datatype Agent = Agent(
    posX: real, posY: real,           // companionPosX / companionPosY
    mouseX: real, mouseY: real,       // mousePosX / mousePosY
    frameCount: int, idleTimer: int, attackFrame: int, deathFrame: int,
    isAttacking: bool, isDead: bool,
    lastDeathTrigger: int,            // whole seconds since start of the last death
    facingLeft: bool,
    meta: Option<SpriteMeta>,
    element: Element,
    lastFrameTimestamp: Option<real>) // None while undefined

  const InitialAgent: Agent :=
    Agent(64.0, 64.0, 0.0, 0.0, 0, 0, 0, 0, false, false, 0, false, None, BlankElement, None)

  /** What is fixed once the companion runs: the loaded sheets, the tunables after the
      overrides, and Date.now() at startup. */
  datatype Env = Env(sprites: SpriteSet, tuning: Tuning, startMs: int)
  {
    predicate Valid() { sprites.Valid() && tuning.Valid() }
  }

  /** What the host supplies to one tick: Date.now(), the pointer distance
      Math.sqrt(diffX ** 2 + diffY ** 2), and the viewport size. */
  datatype TickInput = TickInput(nowMs: int, distance: real, innerWidth: real, innerHeight: real)

  /** `distance` is the Euclidean distance from the companion to the pointer. */
  predicate IsPointerDistance(a: Agent, distance: real) {
    var dx, dy := a.posX - a.mouseX, a.posY - a.mouseY;
    distance >= 0.0 && distance * distance == dx * dx + dy * dy
  }

  function Min(x: real, y: real): real { if x <= y then x else y }
  function Max(x: real, y: real): real { if x >= y then x else y }
  function MinInt(x: int, y: int): int { if x <= y then x else y }

  /** Math.min(Math.max(lo, v), hi). */
  function Clamp(v: real, lo: real, hi: real): (r: real)
    ensures lo <= hi ==> lo <= r <= hi
    ensures lo <= v <= hi ==> r == v
  {
    Min(Max(lo, v), hi)
  }

  /** The column setSprite shows for a frame index: `frameIndex % frames`. */
  function ShownColumn(frameIndex: int, frames: int): (c: int)
    requires frames >= 1
    ensures c < frames
    ensures frameIndex >= 0 ==> 0 <= c && c == frameIndex % frames
  {
    Remainder(frameIndex, frames)
  }

  /** The width and height updateElementPosition centres on, and frame() clamps with. */
  function RenderWidth(a: Agent, displayHeight: real): real {
    if a.meta.Some? then a.meta.value.renderWidth else displayHeight
  }

  function RenderHeight(a: Agent, displayHeight: real): real {
    if a.meta.Some? then a.meta.value.renderHeight else displayHeight
  }

  /** updateElementPosition: the element is centred on the companion's position. */
  function PlaceElement(a: Agent, displayHeight: real): Agent {
    a.(element := a.element.(left := a.posX - RenderWidth(a, displayHeight) / 2.0,
                             top := a.posY - RenderHeight(a, displayHeight) / 2.0))
  }

  /** The size a sheet's frames are drawn at: scaled to `displayHeight` pixels high. */
  function Scaled(spriteName: string, sheet: Sheet, displayHeight: real): (m: SpriteMeta)
    requires sheet.frameHeight > 0.0
    ensures m.renderHeight == displayHeight
  {
    var scale := displayHeight / sheet.frameHeight;
    SpriteMeta(spriteName, sheet.frameWidth * scale, sheet.frameHeight * scale, scale, sheet.frames)
  }

  /** The drawn width of the whole sheet. */
  function SheetWidth(sheet: Sheet, scale: real): real {
    sheet.frameWidth * sheet.frames as real * scale
  }

  /** The background offset that shows `column`. */
  function OffsetOf(column: int, renderWidth: real): real {
    column as real * -renderWidth
  }

  /** setSprite(name, frameIndex). */
  function SetSprite(a: Agent, env: Env, name: string, frameIndex: int): (r: Agent)
    requires env.sprites.Valid()
    ensures r == a.(meta := r.meta, element := r.element)
    ensures env.sprites.IsEmpty() ==> r == a
  {
    if env.sprites.IsEmpty() then a
    else
      var spriteName := ChooseSpriteName(env.sprites, name).value;
      var sheet := env.sprites.sheets[spriteName];
      var frame := ShownColumn(frameIndex, sheet.frames);
      var meta := Scaled(spriteName, sheet, env.tuning.displayHeight);
      var image := if a.meta.None? || a.meta.value.name != spriteName then sheet.url else a.element.image;
      var element := Element(image, SheetWidth(sheet, meta.scale), meta.renderWidth, meta.renderHeight,
                             OffsetOf(frame, meta.renderWidth), a.facingLeft, a.element.left, a.element.top);
      PlaceElement(a.(meta := Some(meta), element := element), env.tuning.displayHeight)
  }

  function TriggerDeath(a: Agent): Agent {
    a.(isDead := true, deathFrame := 0)
  }

  function Revive(a: Agent, env: Env): Agent
    requires env.sprites.Valid()
  {
    SetSprite(a.(isDead := false, deathFrame := 0), env, "idle", 0)
  }

  const AttackSheets: seq<string> := ["attack", "run", "idle"]
  const DeathSheets: seq<string> := ["dead", "idle", "run"]
  const IdleSheets: seq<string> := ["idle", "run"]

  /** handleAttackState. */
  function AttackStep(a: Agent, env: Env): (r: Agent)
    requires env.sprites.Valid()
    ensures r == a.(meta := r.meta, element := r.element, isAttacking := r.isAttacking,
                    attackFrame := r.attackFrame)
    ensures r.isAttacking ==> a.isAttacking
  {
    match FirstLoaded(env.sprites, AttackSheets)
    case None => a
    case Some(name) =>
      var shown := SetSprite(a, env, name, a.attackFrame / AttackFrameDuration);
      var next := a.attackFrame + 1;
      if next / AttackFrameDuration >= env.sprites.sheets[name].frames then
        SetSprite(shown.(isAttacking := false, attackFrame := 0), env, "idle", 0)
      else shown.(attackFrame := next)
  }

  /** The frame index handleDeathState asks for: the last frame once the animation is over. */
  function DeathIndex(deathFrame: int, frames: int): int {
    MinInt(frames - 1, deathFrame / DeathFrameDuration)
  }

  /** handleDeathState. */
  function DeathStep(a: Agent, env: Env): (r: Agent)
    requires env.sprites.Valid()
    ensures r == a.(meta := r.meta, element := r.element, isDead := r.isDead,
                    deathFrame := r.deathFrame)
    ensures r.isDead ==> a.isDead
  {
    match FirstLoaded(env.sprites, DeathSheets)
    case None => a
    case Some(name) =>
      var shown := SetSprite(a, env, name, DeathIndex(a.deathFrame, env.sprites.sheets[name].frames));
      var next := a.deathFrame + 1;
      if next >= env.tuning.deathDurationFrames then Revive(shown.(deathFrame := next), env)
      else shown.(deathFrame := next)
  }

  /** Math.floor((Date.now() - startTimestamp) / 1000). */
  function ElapsedSeconds(startMs: int, nowMs: int): int {
    (nowMs - startMs) / 1000
  }

  /** The scripted death is due: `elapsedSeconds >= lastDeathTrigger + deathIntervalSeconds`. */
  predicate DeathDue(a: Agent, env: Env, nowMs: int) {
    ElapsedSeconds(env.startMs, nowMs) as real >= a.lastDeathTrigger as real + env.tuning.deathIntervalSeconds
  }

  /** handleIdleState. */
  function IdleStep(a: Agent, env: Env, nowMs: int): (r: Agent)
    requires env.sprites.Valid()
    ensures r == a.(meta := r.meta, element := r.element, idleTimer := a.idleTimer + 1,
                    isDead := r.isDead, deathFrame := r.deathFrame,
                    lastDeathTrigger := r.lastDeathTrigger)
  {
    var counted := a.(idleTimer := a.idleTimer + 1);
    var shown :=
      match FirstLoaded(env.sprites, IdleSheets)
      case None => counted
      case Some(name) => SetSprite(counted, env, name, counted.idleTimer / IdleFrameDivider);
    if !shown.isDead && DeathDue(shown, env, nowMs) then
      TriggerDeath(shown.(lastDeathTrigger := ElapsedSeconds(env.startMs, nowMs)))
    else shown
  }

  /** The idle branch is taken when the pointer is closer than one step or than the idle
      distance; at equality the companion moves. */
  predicate IsIdle(env: Env, distance: real) {
    distance < env.tuning.speed || distance < env.tuning.idleDistance
  }

  /** facingLeft after a move: it changes only when the pointer is more than one pixel
      to the side. */
  function Facing(facingLeft: bool, diffX: real): bool {
    if diffX > 1.0 then true else if diffX < -1.0 then false else facingLeft
  }

  /** The point one step of `speed` pixels towards the pointer. */
  function StepTowardPointer(a: Agent, speed: real, distance: real): (real, real)
    requires distance != 0.0
  {
    (a.posX - (a.posX - a.mouseX) / distance * speed,
     a.posY - (a.posY - a.mouseY) / distance * speed)
  }

  /** The moving branch of frame(). */
  function MoveStep(a: Agent, env: Env, tick: TickInput): (r: Agent)
    requires env.sprites.Valid() && tick.distance != 0.0
    ensures r == a.(meta := r.meta, element := r.element, idleTimer := 0,
                    facingLeft := Facing(a.facingLeft, a.posX - a.mouseX),
                    posX := r.posX, posY := r.posY)
  {
    var turned := a.(idleTimer := 0, facingLeft := Facing(a.facingLeft, a.posX - a.mouseX));
    var shown := SetSprite(turned, env, if "run" in env.sprites.sheets then "run" else "idle",
                           turned.frameCount / RunFrameDivider);
    var target := StepTowardPointer(shown, env.tuning.speed, tick.distance);
    var w := RenderWidth(shown, env.tuning.displayHeight);
    var h := RenderHeight(shown, env.tuning.displayHeight);
    var moved := shown.(posX := Clamp(target.0, w / 2.0, tick.innerWidth - w / 2.0),
                        posY := Clamp(target.1, h / 2.0, tick.innerHeight - h / 2.0));
    PlaceElement(moved, env.tuning.displayHeight)
  }

  /** frame(): one tick of the state machine. */
  function Frame(a: Agent, env: Env, tick: TickInput): (r: Agent)
    requires env.Valid()
    ensures r.frameCount == a.frameCount + 1
    ensures r.mouseX == a.mouseX && r.mouseY == a.mouseY
    ensures r.lastFrameTimestamp == a.lastFrameTimestamp
    ensures Exclusive(a) ==> Exclusive(r)
  {
    var counted := a.(frameCount := a.frameCount + 1);
    if counted.isAttacking then AttackStep(counted, env)
    else if counted.isDead then DeathStep(counted, env)
    else if IsIdle(env, tick.distance) then IdleStep(counted, env, tick.nowMs)
    else MoveStep(counted, env, tick)
  }

  /** The companion is never attacking and dead at once. */
  predicate Exclusive(a: Agent) { !(a.isAttacking && a.isDead) }

  /** `!lastFrameTimestamp`: undefined and 0 are both falsy. */
  predicate Unset(last: Option<real>) { last.None? || last.value == 0.0 }

  /** onAnimationFrame(timestamp): the new state and whether another frame was requested.
      A detached element stops the loop. */
  function OnAnimationFrame(a: Agent, env: Env, timestamp: real, connected: bool, tick: TickInput): (Agent, bool)
    requires env.Valid()
  {
    if !connected then (a, false)
    else
      var last := if Unset(a.lastFrameTimestamp) then timestamp else a.lastFrameTimestamp.value;
      if timestamp - last >= TickInterval then
        (Frame(a.(lastFrameTimestamp := Some(timestamp)), env, tick), true)
      else (a.(lastFrameTimestamp := Some(last)), true)
  }

  /** The click listener: an attack starts only from the living, non-attacking state. */
  function Click(a: Agent): Agent {
    if !a.isDead && !a.isAttacking then a.(isAttacking := true, attackFrame := 0) else a
  }

  /** The mousemove listener. */
  function MouseMove(a: Agent, clientX: real, clientY: real): Agent {
    a.(mouseX := clientX, mouseY := clientY)
  }

  /** Several ticks in a row. */
  function Run(a: Agent, env: Env, ticks: seq<TickInput>): Agent
    requires env.Valid()
    decreases |ticks|
  {
    if ticks == [] then a else Run(Frame(a, env, ticks[0]), env, ticks[1..])
  }
}
