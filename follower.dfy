/** The companion as the script runs it (companion.js:241-577): its module-level
    variables are the fields of a Companion object, and each function of the script that
    updates them is a method proved to compute what the Engine, Persistence and
    SpriteSheets functions describe. Startup is the static method Boot. */
module Follower {
  import opened Wrappers
  import opened JsBuiltins
  import opened Catalog
  import opened Overrides
  import opened SpriteSheets
  import opened Engine
  import opened Persistence

  class Companion {
    // Fixed once the companion starts: the tunables after the overrides, whether the
    // position is persisted, the storage key, and Date.now() when the script ran.
    const tuning: Tuning
    const persistPosition: bool
    const storageKey: string
    const startMs: int

    /** The `sprites` dictionary, filled by loadSprites. */
    var sprites: SpriteSet

    var posX: real
    var posY: real
    var mouseX: real
    var mouseY: real
    var frameCount: int
    var idleTimer: int
    var attackFrame: int
    var deathFrame: int
    var isAttacking: bool
    var isDead: bool
    var lastDeathTrigger: int
    var facingLeft: bool
    var meta: Option<SpriteMeta>
    var element: Element
    var lastFrameTimestamp: Option<real>

    /** The state variables as one value. */
    function State(): Agent
      reads this
    {
      Agent(posX, posY, mouseX, mouseY, frameCount, idleTimer, attackFrame, deathFrame,
            isAttacking, isDead, lastDeathTrigger, facingLeft, meta, element, lastFrameTimestamp)
    }

    /** The sheets, tunables and start time the state machine runs with. */
    function Context(): Env
      reads this
    {
      Env(sprites, tuning, startMs)
    }

    predicate Valid()
      reads this
    {
      Context().Valid()
    }

    /** The script's initial variables, before any sprite has loaded. */
    constructor (tuning: Tuning, persistPosition: bool, storageKey: string, startMs: int)
      ensures State() == InitialAgent && sprites == NoSprites
      ensures this.tuning == tuning && this.persistPosition == persistPosition
      ensures this.storageKey == storageKey && this.startMs == startMs
    {
      this.tuning := tuning;
      this.persistPosition := persistPosition;
      this.storageKey := storageKey;
      this.startMs := startMs;
      sprites := NoSprites;
      posX, posY := 64.0, 64.0;
      mouseX, mouseY := 0.0, 0.0;
      frameCount, idleTimer, attackFrame, deathFrame := 0, 0, 0, 0;
      isAttacking, isDead := false, false;
      lastDeathTrigger := 0;
      facingLeft := false;
      meta := None;
      element := BlankElement;
      lastFrameTimestamp := None;
    }

    // -------------------------------------------------------------------------
    // Loading

    /** loadSprites: the images settle in the given order, and each one that loads adds
        its sheet to the dictionary. */
    method LoadSprites(sources: map<string, string>, settled: seq<Settled>)
      requires sprites.Valid() && HaveHeights(settled)
      modifies this
      ensures sprites == LoadAll(old(sprites), sources, settled)
      ensures State() == old(State())
    {
      var loaded := sprites;
      var i := 0;
      while i < |settled|
        invariant 0 <= i <= |settled|
        invariant loaded == LoadAll(sprites, sources, settled[..i])
      {
        var e := settled[i];
        if e.Loaded? && e.name in sources {
          loaded := Put(loaded, e.name, InferSheet(sources[e.name], e.width, e.height));
        }
        assert settled[..i + 1][..i] == settled[..i];
        i := i + 1;
      }
      assert settled[..|settled|] == settled;
      sprites := loaded;
    }

    // -------------------------------------------------------------------------
    // Drawing

    /** updateElementPosition. */
    method UpdateElementPosition()
      modifies this
      ensures State() == PlaceElement(old(State()), tuning.displayHeight)
      ensures sprites == old(sprites)
    {
      var width := if meta.Some? then meta.value.renderWidth else tuning.displayHeight;
      var height := if meta.Some? then meta.value.renderHeight else tuning.displayHeight;
      element := element.(left := posX - width / 2.0, top := posY - height / 2.0);
    }

    /** setSprite(name, frameIndex). */
    method SetSprite(name: string, frameIndex: int)
      requires Valid()
      modifies this
      ensures State() == Engine.SetSprite(old(State()), old(Context()), name, frameIndex)
      ensures sprites == old(sprites)
    {
      if |sprites.order| == 0 {
        return;
      }
      var spriteName := ChooseSpriteName(sprites, name).value;
      var sprite := sprites.sheets[spriteName];
      var frame := ShownColumn(frameIndex, sprite.frames);
      var drawn := Scaled(spriteName, sprite, tuning.displayHeight);
      if meta.None? || meta.value.name != spriteName {
        element := element.(image := sprite.url);
      }
      element := element.(sheetWidth := SheetWidth(sprite, drawn.scale), width := drawn.renderWidth,
                          height := drawn.renderHeight, offsetX := OffsetOf(frame, drawn.renderWidth),
                          mirrored := facingLeft);
      meta := Some(drawn);
      UpdateElementPosition();
    }

    // -------------------------------------------------------------------------
    // The state machine

    method TriggerDeath()
      modifies this
      ensures State() == Engine.TriggerDeath(old(State()))
      ensures sprites == old(sprites)
    {
      isDead := true;
      deathFrame := 0;
    }

    method Revive()
      requires Valid()
      modifies this
      ensures State() == Engine.Revive(old(State()), old(Context()))
      ensures sprites == old(sprites)
    {
      isDead := false;
      deathFrame := 0;
      SetSprite("idle", 0);
    }

    /** handleIdleState. */
    method HandleIdleState(nowMs: int)
      requires Valid()
      modifies this
      ensures State() == IdleStep(old(State()), old(Context()), nowMs)
      ensures sprites == old(sprites)
    {
      idleTimer := idleTimer + 1;
      var sprite := FirstLoaded(sprites, IdleSheets);
      if sprite.Some? {
        SetSprite(sprite.value, idleTimer / IdleFrameDivider);
      }
      var elapsedSeconds := ElapsedSeconds(startMs, nowMs);
      if !isDead && elapsedSeconds as real >= lastDeathTrigger as real + tuning.deathIntervalSeconds {
        lastDeathTrigger := elapsedSeconds;
        TriggerDeath();
      }
    }

    /** handleAttackState. */
    method HandleAttackState()
      requires Valid()
      modifies this
      ensures State() == AttackStep(old(State()), old(Context()))
      ensures sprites == old(sprites)
    {
      var sprite := FirstLoaded(sprites, AttackSheets);
      if sprite.None? {
        return;
      }
      var frames := sprites.sheets[sprite.value].frames;
      SetSprite(sprite.value, attackFrame / AttackFrameDuration);
      ghost var shown := State();
      attackFrame := attackFrame + 1;
      assert State() == shown.(attackFrame := attackFrame);
      if attackFrame / AttackFrameDuration >= frames {
        isAttacking := false;
        attackFrame := 0;
        SetSprite("idle", 0);
      }
    }

    /** handleDeathState. */
    method HandleDeathState()
      requires Valid()
      modifies this
      ensures State() == DeathStep(old(State()), old(Context()))
      ensures sprites == old(sprites)
    {
      var sprite := FirstLoaded(sprites, DeathSheets);
      if sprite.None? {
        return;
      }
      var frames := sprites.sheets[sprite.value].frames;
      SetSprite(sprite.value, DeathIndex(deathFrame, frames));
      deathFrame := deathFrame + 1;
      if deathFrame >= tuning.deathDurationFrames {
        Revive();
      }
    }

    /** frame(): one tick, given the host's clock, pointer distance and viewport. */
    method Frame(tick: TickInput)
      requires Valid()
      modifies this
      ensures State() == Engine.Frame(old(State()), old(Context()), tick)
      ensures sprites == old(sprites)
    {
      frameCount := frameCount + 1;
      if isAttacking {
        HandleAttackState();
        return;
      }
      if isDead {
        HandleDeathState();
        return;
      }
      if tick.distance < tuning.speed || tick.distance < tuning.idleDistance {
        HandleIdleState(tick.nowMs);
        return;
      }
      MoveTowardPointer(tick);
    }

    /** The moving branch of frame(): turn towards the pointer, show the run sheet, step
        `speed` pixels towards the pointer and keep the sprite inside the viewport. */
    method MoveTowardPointer(tick: TickInput)
      requires Valid() && tick.distance != 0.0
      modifies this
      ensures State() == MoveStep(old(State()), old(Context()), tick)
      ensures sprites == old(sprites)
    {
      var diffX := posX - mouseX;
      var diffY := posY - mouseY;
      idleTimer := 0;
      if diffX > 1.0 {
        facingLeft := true;
      } else if diffX < -1.0 {
        facingLeft := false;
      }
      ghost var turned := State();
      assert turned == old(State()).(idleTimer := 0, facingLeft := Facing(old(facingLeft), diffX));
      if "run" in sprites.sheets {
        SetSprite("run", frameCount / RunFrameDivider);
      } else {
        SetSprite("idle", frameCount / RunFrameDivider);
      }
      MoveStepOf(old(State()), old(Context()), tick, turned, State());
      StepAndClamp(tick);
      UpdateElementPosition();
    }

    /** The step of the moving branch: `speed` pixels towards the pointer, then clamped so
        that the sprite stays inside the viewport. */
    method StepAndClamp(tick: TickInput)
      requires tick.distance != 0.0
      modifies this
      ensures State() == SteppedPosition(old(State()), old(Context()), tick)
      ensures sprites == old(sprites)
    {
      ghost var before := State();
      var targetX := posX - (posX - mouseX) / tick.distance * tuning.speed;
      var targetY := posY - (posY - mouseY) / tick.distance * tuning.speed;
      assert StepTowardPointer(before, tuning.speed, tick.distance).0 == targetX;
      assert StepTowardPointer(before, tuning.speed, tick.distance).1 == targetY;
      var width := if meta.Some? then meta.value.renderWidth else tuning.displayHeight;
      var height := if meta.Some? then meta.value.renderHeight else tuning.displayHeight;
      posX := Min(Max(width / 2.0, targetX), tick.innerWidth - width / 2.0);
      posY := Min(Max(height / 2.0, targetY), tick.innerHeight - height / 2.0);
    }

    /** onAnimationFrame(timestamp); returns whether another frame is requested. */
    method OnAnimationFrame(timestamp: real, connected: bool, tick: TickInput) returns (again: bool)
      requires Valid()
      modifies this
      ensures State() == Engine.OnAnimationFrame(old(State()), old(Context()), timestamp, connected, tick).0
      ensures again == Engine.OnAnimationFrame(old(State()), old(Context()), timestamp, connected, tick).1
      ensures sprites == old(sprites)
    {
      if !connected {
        return false;
      }
      if Unset(lastFrameTimestamp) {
        lastFrameTimestamp := Some(timestamp);
      }
      if timestamp - lastFrameTimestamp.value >= TickInterval {
        lastFrameTimestamp := Some(timestamp);
        Frame(tick);
      }
      return true;
    }

    /** The click listener. */
    method OnClick()
      modifies this
      ensures State() == Click(old(State()))
      ensures sprites == old(sprites)
    {
      if !isDead && !isAttacking {
        isAttacking := true;
        attackFrame := 0;
      }
    }

    /** The mousemove listener. */
    method OnMouseMove(clientX: real, clientY: real)
      modifies this
      ensures State() == MouseMove(old(State()), clientX, clientY)
      ensures sprites == old(sprites)
    {
      mouseX := clientX;
      mouseY := clientY;
    }

    // -------------------------------------------------------------------------
    // Persistence

    /** persistState (run on beforeunload). */
    method PersistState(store: LocalStorage)
      modifies store
      ensures store.Contents() == AfterPersist(old(store.Contents()), storageKey, State(), persistPosition)
    {
      if !persistPosition {
        return;
      }
      if !store.available {
        return;
      }
      store.items := store.items[storageKey := Parsed(Payload(State()))];
    }

    /** restoreState. */
    method RestoreState(store: LocalStorage)
      modifies this
      ensures State() == Restored(old(State()), persistPosition, store.Contents(), storageKey)
      ensures sprites == old(sprites)
    {
      if !persistPosition || !store.available || storageKey !in store.items {
        return;
      }
      match store.items[storageKey]
      case Parsed(stored) =>
        posX := stored.companionPosX.GetOr(posX);
        posY := stored.companionPosY.GetOr(posY);
        frameCount := stored.frameCount.GetOr(frameCount);
      case Blank =>
      case Unparseable =>
    }

    // -------------------------------------------------------------------------
    // Startup

    /** The whole script: stop under reduced motion, select the variant, apply the
        overrides, then launch. */
    static method Boot(reducedMotion: bool, dataset: Option<map<string, string>>,
                       settled: seq<Settled>, store: LocalStorage, startMs: int)
      returns (r: Result<Companion, StartupError>)
      requires HaveHeights(settled)
      ensures var expected := Startup(reducedMotion, dataset, settled, store.Contents(), startMs);
        && (r.Failure? <==> expected.Failure?)
        && (r.Failure? ==> r.error == expected.error)
        && (r.Success? ==>
              && fresh(r.value) && r.value.Valid()
              && r.value.State() == expected.value.agent
              && r.value.Context() == expected.value.env
              && r.value.persistPosition == expected.value.persistPosition
              && r.value.storageKey == expected.value.storageKey)
    {
      if reducedMotion {
        return Failure(ReducedMotion);
      }
      var selected := SelectVariant(VariantAttribute(dataset));
      if selected.Failure? {
        return Failure(selected.error);
      }
      var key, variant := selected.value.0, selected.value.1;
      CatalogWellFormed();
      var settings := new Settings(variant.tuning);
      settings.ApplyDatasetOverrides(dataset);
      OverridesKeepValid(Config(true, variant.tuning), dataset);
      r := Launch(key, variant, settings.Current(), settled, store, startMs);
    }

    /** Load the sheets, stop when none loaded, then restore the saved state and show
        the idle sprite. */
    static method Launch(key: string, variant: Variant, config: Config, settled: seq<Settled>,
                         store: LocalStorage, startMs: int)
      returns (r: Result<Companion, StartupError>)
      requires config.tuning.Valid() && HaveHeights(settled)
      ensures var expected := Launched(key, variant, config, settled, store.Contents(), startMs);
        && (r.Failure? <==> expected.Failure?)
        && (r.Failure? ==> r.error == expected.error)
        && (r.Success? ==>
              && fresh(r.value) && r.value.Valid()
              && r.value.State() == expected.value.agent
              && r.value.Context() == expected.value.env
              && r.value.persistPosition == expected.value.persistPosition
              && r.value.storageKey == expected.value.storageKey)
    {
      var c := new Companion(config.tuning, config.persistPosition, StorageKey(variant, key), startMs);
      c.LoadSprites(SpriteSources(variant), settled);
      if |c.sprites.order| == 0 {
        return Failure(NoSpritesLoaded(key));
      }
      c.RestoreState(store);
      c.SetSprite("idle", 0);
      return Success(c);
    }
  }

  /** `scriptEl?.dataset?.variant`. */
  function VariantAttribute(dataset: Option<map<string, string>>): Option<string> {
    if dataset.Some? && "variant" in dataset.value then Some(dataset.value["variant"]) else None
  }

  /** A running companion: its state, what it runs with, and its persistence settings. */
  datatype Started = Started(agent: Agent, env: Env, persistPosition: bool, storageKey: string)

  /** What startup yields, as a function of the browser's answers. */
  function Startup(reducedMotion: bool, dataset: Option<map<string, string>>,
                   settled: seq<Settled>, store: Storage, startMs: int): Result<Started, StartupError>
    requires HaveHeights(settled)
  {
    if reducedMotion then Failure(ReducedMotion)
    else
      match SelectVariant(VariantAttribute(dataset))
      case Failure(e) => Failure(e)
      case Success(selected) =>
        CatalogWellFormed();
        OverridesKeepValid(Config(true, selected.1.tuning), dataset);
        Launched(selected.0, selected.1, Overridden(Config(true, selected.1.tuning), dataset),
                 settled, store, startMs)
  }

  /** What startup yields once the variant and the settings are known. */
  function Launched(key: string, variant: Variant, config: Config, settled: seq<Settled>,
                    store: Storage, startMs: int): Result<Started, StartupError>
    requires config.tuning.Valid() && HaveHeights(settled)
  {
    var sprites := LoadAll(NoSprites, SpriteSources(variant), settled);
    if sprites.IsEmpty() then Failure(NoSpritesLoaded(key))
    else
      var env := Env(sprites, config.tuning, startMs);
      var storageKey := StorageKey(variant, key);
      var restored := Restored(InitialAgent, config.persistPosition, store, storageKey);
      Success(Started(Engine.SetSprite(restored, env, "idle", 0), env, config.persistPosition, storageKey))
  }

  /** The position the moving branch steps to: `speed` pixels towards the pointer,
      clamped to the viewport by the sprite's rendered size. */
  function SteppedPosition(shown: Agent, env: Env, tick: TickInput): Agent
    requires tick.distance != 0.0
  {
    var target := StepTowardPointer(shown, env.tuning.speed, tick.distance);
    var w := RenderWidth(shown, env.tuning.displayHeight);
    var h := RenderHeight(shown, env.tuning.displayHeight);
    shown.(posX := Clamp(target.0, w / 2.0, tick.innerWidth - w / 2.0),
           posY := Clamp(target.1, h / 2.0, tick.innerHeight - h / 2.0))
  }

  /** The moving branch of frame() taken one assignment at a time. */
  lemma MoveStepOf(a: Agent, env: Env, tick: TickInput, turned: Agent, shown: Agent)
    requires env.sprites.Valid() && tick.distance != 0.0
    requires turned == a.(idleTimer := 0, facingLeft := Facing(a.facingLeft, a.posX - a.mouseX))
    requires shown == Engine.SetSprite(turned, env, if "run" in env.sprites.sheets then "run" else "idle",
                                       turned.frameCount / RunFrameDivider)
    ensures MoveStep(a, env, tick) == PlaceElement(SteppedPosition(shown, env, tick), env.tuning.displayHeight)
  {
  }
}
