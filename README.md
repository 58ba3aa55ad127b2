# companion.js and the music page, in Dafny

This project models two scripts of a personal web page.

`companion.js` is a desktop companion: a pixel-art character that follows the mouse pointer. It covers:

- **Configuration.** The variant named by the script tag's `data-variant` is normalised to a slug and looked up in a catalog of nine skins, each merged with the default behaviour. An unknown name aborts startup with a warning. The name `constructor` is the exception: `variants` inherits it from Object.prototype, so the lookup succeeds and startup ends in a TypeError instead. The `data-*` attributes may then override the tunables.
- **Sprite sheets.** When a sheet's image loads, its frame layout is inferred from the width and height. A fixed fallback order decides which loaded sheet stands in for a requested animation.
- **The tick.** `frame()` drives the state machine. It has four modes:
  - attacking, entered by a click;
  - dead, triggered on a schedule while idle and lasting a fixed number of ticks;
  - idle, when the pointer is within reach;
  - moving, a step of `speed` pixels towards the pointer, clamped to the viewport.

  `onAnimationFrame` lets a tick through at most every 100 ms.
- **Persistence.** The position and frame count are saved under `follower-<key>` and restored at startup.

From `script.js` the model takes:

- `formatTime`, which writes a time in seconds as `m:ss`;
- the playlist position that the previous, next and `ended` handlers move;
- `Particle.update`, which wraps a background particle around the canvas.

Where the script works by changing variables step by step, the model does the same.

- **Companion.** `Follower.Companion` holds the script's module-level variables as fields. Each of its methods is proved to compute a function of `Engine`, `Persistence` or `SpriteSheets`, named in its row of the table below (`HandleIdleState` computes `Engine.IdleStep`, `LoadSprites` computes `SpriteSheets.LoadAll`). The properties are proved as lemmas about those functions (`EngineProperties`, the lemmas in each module).
- **Overrides.** `Overrides.Settings` holds the tunables that `applyDatasetOverrides` reassigns.
- **Music player.** `Player.MusicPlayer` holds `currentSongIndex`.
- **Particles.** `Particles.Particle` holds a particle's position.

The code that is pure becomes functions and lemmas. This covers:

- normalisation and the catalog;
- `parseInt` and `parseFloat`;
- frame inference;
- the sprite fallback;
- `formatTime`.

JavaScript numbers are modelled as `real`, and counters as `int`.

- **Floor of a quotient.** `Math.floor(a / b)` with a positive integer `b` is Dafny's `/` on `int`.
- **Remainder.** JavaScript's `%` truncates toward zero. It is written out as `JsBuiltins.Remainder` on integers and as `Player.RealRemainder` on reals.
- **Host inputs.** The host supplies the parts that are I/O: the pointer distance (`Math.sqrt`), `Date.now()`, the viewport size, and the order and sizes in which the images settle.

## Model

| member | source | states |
|---|---|---|
| VariantName.WordLength | companion.js:14 | the run of `[a-z0-9]` characters a string starts with ends before the first other character |
| VariantName.NormalizeVariant | companion.js:11-15 | normalizeVariant; what it yields is stated by the NormalizeIsJoinOfWords and NormalizeVariantIsSlug rows |
| VariantName.GapLength | companion.js:14 | a match of `[^a-z0-9]+` at the start ends before the first kept character |
| VariantName.Words | companion.js:14 | every element of the split is a non-empty run of `[a-z0-9]` |
| VariantName.JoinIsSlug | companion.js:11-15 | words joined by single hyphens form a slug that starts and ends with a letter or digit |
| VariantName.TrimReplaceIsJoin | companion.js:14-15 | replacing each run of other characters with `-` and trimming hyphens joins the maximal `[a-z0-9]` runs with single hyphens |
| VariantName.NormalizeIsJoinOfWords | companion.js:11-15 | normalizeVariant lower-cases the name (or `"shinobi"` when it is absent or empty) and joins its `[a-z0-9]` runs with single hyphens |
| VariantName.NormalizeVariantIsSlug | companion.js:11-15 | the key never holds anything but `[a-z0-9-]`, never starts or ends with `-`, and never holds `--` |
| VariantName.WordsOfJoin | companion.js:11-15 | splitting hyphen-joined words into runs gives the words back |
| VariantName.SlugIsLowerCase | companion.js:13 | toLowerCase leaves a slug unchanged |
| VariantName.NormalizeVariantIdempotent | companion.js:11-15 | normalizing a non-empty key again gives the same key |
| VariantName.NormalizeJoinedWords | companion.js:11-15 | a name spelled as words joined by single hyphens normalizes to itself |
| JsBuiltins.LowerChar | companion.js:13 | the model of toLowerCase maps exactly the ASCII capitals, each to the letter 32 code points later |
| JsBuiltins.ToLowerCase | companion.js:13 | toLowerCase keeps the length, leaves no ASCII capital, and is the identity on text without one |
| JsBuiltins.NatToString | script.js:147 | the decimal text of a number is non-empty and all digits, without a leading zero |
| JsBuiltins.DigitsValueOfNatToString | script.js:147 | the decimal text of n has the value n |
| JsBuiltins.Remainder | companion.js:360 | `%` on integers: the remainder lies strictly between -b and b and takes the dividend's sign; it is the Euclidean remainder for a dividend that is not negative |
| JsBuiltins.ParseInt | companion.js:196 | parseInt(s, 10); ParseIntOfIntToString and ParseIgnoresLeadingWhiteSpace state what it reads |
| JsBuiltins.ParseFloat | companion.js:203 | parseFloat; ParseFloatOfDigits and ParseIgnoresLeadingWhiteSpace state what it reads |
| JsBuiltins.ParseIntOfIntToString | companion.js:196 | `parseInt(text, 10)` reads back every integer's decimal text and stops at the first non-digit after it |
| JsBuiltins.ParseFloatOfNatToString | companion.js:203 | parseFloat reads back the decimal text of every natural number |
| JsBuiltins.ParseFloatOfDigits | companion.js:203 | parseFloat of any run of decimal digits, leading zeros included, is its value |
| JsBuiltins.ParseIgnoresLeadingWhiteSpace | companion.js:196 | leading white space changes neither parseInt nor parseFloat |
| JsBuiltins.ParseJsonLiteral | companion.js:183-185 | JSON.parse gives true exactly for `true`, false exactly for `false` or `null`, and fails on any other text, surrounding JSON white space aside |
| Catalog.MergeBehavior | companion.js:137-145 | each of the five tunables given in an entry's behavior replaces the default, and each missing one keeps it |
| Catalog.PairsToMap | companion.js:143 | the sprites object has exactly the animation names of the entry as keys |
| Catalog.PairsToMapLookup | companion.js:143 | a name that no later pair repeats maps to its own file |
| Catalog.VariantsOf | companion.js:136-146 | the variants object has exactly the catalog's keys |
| Catalog.VariantsOfLookup | companion.js:136-146 | a key that no later entry repeats maps to the merge of its entry |
| Catalog.Merge | companion.js:136-146 | the merged variant; MergeBehavior and PairsToMapLookup state its tunables and sprites |
| Catalog.SheetsHaveFourAnimations | companion.js:31-36 | each entry's sprites are idle, run, attack and dead |
| Catalog.CatalogWellFormed | companion.js:17-146 | every variant has positive tunables and all four animations |
| Catalog.CatalogKeysListed | companion.js:155 | Object.keys(variants) lists the nine keys in catalog order |
| Catalog.CatalogKeysDistinct | companion.js:25-134 | no two catalog entries share a key |
| Catalog.EveryKeySelectsItsEntry | companion.js:151-152 | each catalog key, given as data-variant, selects its own merged entry |
| Catalog.MissingVariantSelectsShinobi | companion.js:151-152 | without data-variant the shinobi variant is selected |
| Catalog.SelectVariant | companion.js:151-160 | the lookup of the normalized name; the rows around it state each of its outcomes |
| Catalog.UnknownVariantIsReported | companion.js:154-160 | `nonexistent` aborts startup, reporting it and the available keys |
| Catalog.UnknownNamesAreReported | companion.js:151-160 | every name outside the catalog other than `constructor` aborts startup with the warning, reporting the normalized name and the nine keys |
| Catalog.InheritedSlugIsConstructor | companion.js:136 | of the property names a plain object inherits from Object.prototype, only `constructor` is a slug |
| Catalog.OnlyConstructorIsInherited | companion.js:151-152 | the only inherited name a normalized data-variant can reach is `constructor` |
| Catalog.ConstructorSelectionThrows | companion.js:151-232 | a name that normalizes to `constructor` skips the unknown-variant warning and ends startup with the TypeError of `basePath.replace` |
| Catalog.ConstructorVariantThrows | companion.js:151-232 | `constructor` and `Constructor` both end startup that way |
| Catalog.StorageKey | companion.js:231 | the key is `follower-` followed by the variant's storage key, or by the variant key when that is empty |
| Catalog.BasePath | companion.js:232 | the base path ends in exactly one added `/`, and a path already ending in `/` is kept |
| Catalog.SpriteSources | companion.js:234-240 | each animation's path is the base path followed by its file |
| Overrides.Attribute | companion.js:195 | a data attribute counts only when it is present and not empty |
| Overrides.AcceptedInt | companion.js:224-227 | an integer override is taken exactly when parseInt gives a value above zero, and is that value |
| Overrides.AcceptedHeight | companion.js:195-200 | the height override is taken exactly when parseInt gives a value above zero, and is that many pixels |
| Overrides.AcceptedFloat | companion.js:202-207 | a float override is taken exactly when parseFloat gives a value above zero, and is that value |
| Overrides.Settings.constructor | companion.js:162-167 | persistence starts on, with the variant's tunables |
| Overrides.Settings.ApplyDatasetOverrides | companion.js:173-229 | the settings become the overridden configuration of the settings before |
| Overrides.Overridden | companion.js:173-229 | the settings after applyDatasetOverrides; the lemmas below state what each attribute does |
| Overrides.PersistFlag | companion.js:176-193 | the persistPosition setting; PersistAttributeKeeps and PersistAttributeDisables state its cases |
| Overrides.OverridesKeepValid | companion.js:195-228 | positive tunables stay positive whatever the attributes say |
| Overrides.OverrideComesFromAttribute | companion.js:195-228 | a tunable that changed comes from its attribute, parsed to a positive number by the parser the source uses for it; and an attribute that parses to a positive number is always taken |
| Overrides.IntAttributeOfDecimal | companion.js:196-199 | integer text, possibly followed by a unit, is taken exactly when its value is above zero |
| Overrides.FloatAttributeOfDecimal | companion.js:203-206 | a whole decimal number is taken as a float override unless it is zero |
| Overrides.HeightWithUnitIsAccepted | companion.js:195-200 | `data-height="120px"` gives a height of 120 |
| Overrides.BadHeightsAreRefused | companion.js:195-200 | heights of `0`, `-5` and `tall` are refused |
| Overrides.PersistAttributeKeeps | companion.js:176-193 | an empty or `TRUE` data-persist-position keeps persistence on, and unparseable text keeps the current value |
| Overrides.PersistAttributeDisables | companion.js:176-193 | `false` or ` Null ` turns persistence off |
| Overrides.AbsentAttributesChangeNothing | companion.js:173-229 | without a dataset, or with only empty attributes, nothing changes |
| SpriteSheets.FrameCount | companion.js:273-276 | an image always holds at least one frame |
| SpriteSheets.InferSheet | companion.js:271-283 | the sheet is valid, has the image's height, and its frames are exactly as wide together as the image |
| SpriteSheets.RoundRatioIsNearest | companion.js:275 | Math.round(w / h) is the integer nearest to w / h, rounding halves up |
| SpriteSheets.InferredFramesAreNearest | companion.js:273-276 | the frame count is the integer nearest to width / height, and 1 for an image narrower than half its height |
| SpriteSheets.Put | companion.js:278 | storing a sheet keeps the dictionary valid; a new name goes to the end of the key order, and an existing name keeps its place |
| SpriteSheets.FirstLoaded | companion.js:420 | `sprites.a`, or else `sprites.b`, and so on, picks a loaded name from the list, and picks none exactly when no listed sheet is loaded |
| SpriteSheets.ChooseSpriteName | companion.js:338-352 | the choice is a loaded name; there is none exactly when nothing is loaded; a loaded request is chosen as is |
| SpriteSheets.ChooseIsFirstLoadedFallback | companion.js:338-352 | the choice is the first loaded of attack, run, idle (for attack), of dead, idle, run (for dead) or of run, idle (for run), and otherwise the first loaded key |
| SpriteSheets.ChosenSheetIsValid | companion.js:355-358 | with any sheet loaded, setSprite always finds a valid sheet |
| SpriteSheets.Settle | companion.js:271-291 | a loaded image of a requested animation stores the sheet inferred from its size under that name; any other settled image changes nothing |
| SpriteSheets.LoadAll | companion.js:265-297 | each animation whose image loaded holds the sheet inferred from the size of its last load, with its source path as url; every sheet held before whose animation did not load is kept |
| SpriteSheets.LoadAllAddsTheLoaded | companion.js:265-297 | after loading, the dictionary holds exactly the sheets it held before and those whose image loaded |
| SpriteSheets.LoadedSheetsPointAtSources | companion.js:269-279 | each sheet added by loading has its animation's source path as its url |
| SpriteSheets.LoadAllKeepsEarlierKeys | companion.js:278 | loading only appends keys, so earlier keys keep their places |
| SpriteSheets.NothingLoadedIffNoImageLoaded | companion.js:567-573 | startup finds no sprites exactly when no requested image loaded |
| Engine.Clamp | companion.js:521-528 | `Math.min(Math.max(lo, v), hi)` lies in [lo, hi] when lo <= hi, and leaves a value already there unchanged |
| Engine.ShownColumn | companion.js:360 | the column shown is below the frame count, and is `frameIndex % frames` for a non-negative index |
| Engine.Scaled | companion.js:361-363 | every sheet is drawn at the display height |
| Engine.SetSprite | companion.js:354-390 | setSprite changes only the sprite meta and the element, and does nothing when no sheet is loaded |
| Engine.AttackStep | companion.js:419-436 | an attack tick changes only the drawing, isAttacking and attackFrame, and never starts an attack |
| Engine.DeathStep | companion.js:438-456 | a death tick changes only the drawing, isDead and deathFrame, and never kills |
| Engine.IdleStep | companion.js:403-417 | an idle tick counts the idle timer and changes only it, the drawing and the death fields |
| Engine.MoveStep | companion.js:497-530 | a move resets the idle timer, turns by the one-pixel rule, and changes only the position and the drawing besides |
| Engine.Frame | companion.js:475-531 | every tick counts frameCount, leaves the pointer and the throttle timestamp alone, and never makes the companion attack while dead |
| Engine.TriggerDeath | companion.js:392-395 | triggerDeath; DeathLastsDeathDurationFrames states how long the death lasts |
| Engine.Revive | companion.js:397-401 | revive; DeathRun states when it happens |
| Engine.IsIdle | companion.js:492 | the idle test; IdleWhenPointerIsNear states the branch it selects |
| Engine.Facing | companion.js:499-503 | the facing rule; TurnsOnlyPastOnePixel states it |
| Engine.OnAnimationFrame | companion.js:461-473 | onAnimationFrame; ThrottleTicksEvery100ms and TicksAreAtLeast100msApart state the throttle |
| Engine.Click | companion.js:554-560 | the click handler; ClickStartsAttack states it |
| Engine.MouseMove | companion.js:549-552 | the mousemove handler; EventsKeepExclusive states what it keeps |
| EngineProperties.SetSpriteShows | companion.js:354-390 | the chosen sheet is shown at the display height and at the frame's width ratio, at column `frameIndex % frames`, mirrored when facing left and centred on the position; the image is replaced only when the sheet changes |
| EngineProperties.AttackTick | companion.js:419-436 | one attack tick advances attackFrame and ends the attack exactly at 3 × frames, without moving, turning or dying |
| EngineProperties.AttackRun | companion.js:478-481 | over ticks of an attack it stays on until 3 × frames ticks, then clears isAttacking and attackFrame; position and facing stay |
| EngineProperties.AttackLastsThreeTicksPerFrame | companion.js:554-560 | an attack started by a click lasts exactly 3 × frames ticks of the sheet it is shown with |
| EngineProperties.DeathTick | companion.js:438-456 | one dead tick advances deathFrame and revives exactly at deathDurationFrames, without moving or attacking |
| EngineProperties.DeathRun | companion.js:438-456 | a death lasts until deathFrame reaches deathDurationFrames, then isDead and deathFrame are cleared |
| EngineProperties.DeathLastsDeathDurationFrames | companion.js:392-395 | a triggered death lasts exactly deathDurationFrames ticks |
| EngineProperties.DeathIndexIsHeld | companion.js:450 | the death frame is deathFrame / 4 until the sheet runs out, then the last frame, never past it |
| EngineProperties.DeathStepShowsHeldFrame | companion.js:448-451 | handleDeathState shows the death sheet at that held frame |
| EngineProperties.DeathShowsHeldFrame | companion.js:483-486 | a dead tick shows the death sheet at that held frame |
| EngineProperties.DeathWithoutSheetsNeverEnds | companion.js:439-440 | with none of dead, idle and run loaded, a death never ends |
| EngineProperties.AttackWithoutSheetsNeverEnds | companion.js:419-421 | with none of attack, run and idle loaded, an attack never ends and the companion does not move |
| EngineProperties.DeathTriggeredWhenDue | companion.js:412-416 | a living companion dies exactly on an idle, non-attacking tick where deathIntervalSeconds have passed since the last death, and the death is stamped with the elapsed whole seconds |
| EngineProperties.IdleWhenPointerIsNear | companion.js:492-497 | the idle branch is taken when distance < speed or distance < idleDistance, strictly; it counts the idle timer and keeps the position, and a move resets the timer |
| EngineProperties.TurnsOnlyPastOnePixel | companion.js:499-503 | facing changes only on a move, towards a pointer more than one pixel to that side |
| EngineProperties.StepShortensDistance | companion.js:511-512 | before clamping, a step leaves the companion exactly `speed` closer to the pointer |
| EngineProperties.MoveStepStaysInViewport | companion.js:511-528 | a move lands on the clamped step, and the sprite lies inside a viewport at least as large as it |
| EngineProperties.MoveStaysInViewport | companion.js:488-530 | the same for a tick of a living, non-attacking companion out of reach of the pointer |
| EngineProperties.EventsKeepExclusive | companion.js:554-560 | ticks, clicks and pointer moves never make the companion attack while dead |
| EngineProperties.RunCountsTicks | companion.js:476 | over any run of ticks frameCount counts them, and attacking and dead stay exclusive |
| EngineProperties.ClickStartsAttack | companion.js:554-560 | a click starts an attack exactly when the companion is alive and not attacking, and otherwise changes nothing |
| EngineProperties.ThrottleTicksEvery100ms | companion.js:461-473 | while attached, a frame is always requested again, and a tick runs exactly when a previous timestamp is set and 100 ms have passed since it; a detached element changes nothing |
| EngineProperties.TicksAreAtLeast100msApart | companion.js:465-471 | after a tick, the next tick runs exactly when 100 ms more have passed |
| Follower.Companion.constructor | companion.js:242-259 | the companion starts at (64, 64) with every counter and flag cleared and no sheet loaded |
| Follower.Companion.LoadSprites | companion.js:265-297 | the sprites dictionary becomes the fold of the settled images over it, and nothing else changes |
| Follower.Companion.UpdateElementPosition | companion.js:327-336 | the element is centred on the position |
| Follower.Companion.SetSprite | companion.js:354-390 | the state becomes `Engine.SetSprite` of the old state |
| Follower.Companion.TriggerDeath | companion.js:392-395 | the state becomes `Engine.TriggerDeath` of the old state |
| Follower.Companion.Revive | companion.js:397-401 | the state becomes `Engine.Revive` of the old state |
| Follower.Companion.HandleIdleState | companion.js:403-417 | the state becomes `Engine.IdleStep` of the old state |
| Follower.Companion.HandleAttackState | companion.js:419-436 | the state becomes `Engine.AttackStep` of the old state |
| Follower.Companion.HandleDeathState | companion.js:438-456 | the state becomes `Engine.DeathStep` of the old state |
| Follower.Companion.Frame | companion.js:475-531 | the state becomes `Engine.Frame` of the old state |
| Follower.Companion.MoveTowardPointer | companion.js:497-530 | the state becomes `Engine.MoveStep` of the old state |
| Follower.Companion.StepAndClamp | companion.js:511-528 | the position becomes the step towards the pointer, clamped by the rendered size |
| Follower.Companion.OnAnimationFrame | companion.js:461-473 | the state and the repeat request are those of `Engine.OnAnimationFrame` |
| Follower.Companion.OnClick | companion.js:554-560 | the state becomes `Engine.Click` of the old state |
| Follower.Companion.OnMouseMove | companion.js:549-552 | the pointer position becomes the event's |
| Follower.Companion.PersistState | companion.js:299-311 | the storage becomes `AfterPersist` of the old storage |
| Follower.Companion.RestoreState | companion.js:313-325 | the state becomes `Restored` of the old state |
| Follower.Companion.Boot | companion.js:4-229 | startup fails exactly when `Startup` does, with the same error; otherwise it yields a fresh companion whose state, sheets, settings and key are those of `Startup` |
| Follower.Companion.Launch | companion.js:544-575 | a companion whose sheets, restored state and idle sprite are those of `Launched`, or the no-sprites error exactly when `Launched` gives it |
| Follower.Startup | companion.js:4-229 | what startup yields; Boot is proved to compute it |
| Follower.Launched | companion.js:544-575 | what startup yields once the variant is known; Launch is proved to compute it |
| Persistence.PersistThenRestore | companion.js:299-325 | persisting then restoring brings back the saved position and frame count and changes nothing else |
| Persistence.AfterPersist | companion.js:299-311 | persistState; PersistThenRestore and PersistTouchesOnlyItsKey state what it writes |
| Persistence.Restored | companion.js:313-325 | restoreState; NothingToRestore and RestoreTakesRecordedFields state what it takes |
| Persistence.DisabledPersistenceDoesNothing | companion.js:299-314 | with persistPosition off, neither function does anything |
| Persistence.PersistTouchesOnlyItsKey | companion.js:307 | persisting writes only the companion's own key |
| Persistence.NothingToRestore | companion.js:315-324 | a missing, empty or unparseable record, or unavailable storage, leaves the state unchanged |
| Persistence.RestoreTakesRecordedFields | companion.js:319-321 | restoring changes only the position and the frame count, each only to the value recorded for it |
| Player.PadStart | script.js:147 | padStart reaches the requested length and keeps the text at the end |
| Player.FormatTime | script.js:143-148 | formatTime; FormatTimeReadsBack and NaNShowsZero state what it shows |
| Player.WholeSeconds | script.js:145-146 | for a time that is not negative, the minutes are floor(s) / 60 and the seconds are floor(s) mod 60 |
| Player.TwoDigitSeconds | script.js:147 | a seconds count below 60 is written as exactly two digits |
| Player.FormatTimeIsMinutesColonSeconds | script.js:143-148 | a time that is not negative is shown as the whole minutes, a colon and two digits of seconds |
| Player.MinutesColonSecondsReadBack | script.js:147 | in `m:ss` text, parseInt reads the minutes and the last two characters are the seconds |
| Player.FormatTimeReadsBack | script.js:143-148 | reading the text back gives minutes × 60 + seconds = the whole seconds elapsed, with the tens of seconds below 6 |
| Player.NaNShowsZero | script.js:144 | NaN is shown as `0:00` |
| Player.MovesStayInPlaylist | script.js:183-200 | next and previous keep the index in the playlist, wrapping from the last song to the first and back |
| Player.NextIndex | script.js:200 | the next move; MovesStayInPlaylist and AdvancingIsModular state it |
| Player.PreviousIndex | script.js:183 | the previous move; MovesStayInPlaylist and PreviousAndNextAreInverse state it |
| Player.PreviousAndNextAreInverse | script.js:183-200 | previous undoes next and next undoes previous |
| Player.AdvancingIsModular | script.js:200 | k presses of next move (i + k) mod 4 |
| Player.FullCycleReturns | script.js:200 | four presses of next return to the starting song |
| Player.MusicPlayer.constructor | script.js:134 | the player starts on the first song |
| Player.MusicPlayer.Previous | script.js:183 | the index becomes `(i - 1 + 4) % 4` and stays in the playlist |
| Player.MusicPlayer.Next | script.js:200 | the index becomes `(i + 1) % 4` and stays in the playlist |
| Player.MusicPlayer.Ended | script.js:233-235 | the end of a song moves the index exactly as the next button does |
| Particles.WrapLandsOnCanvas | script.js:25-28 | a wrapped coordinate is on the canvas; one already there is kept, one past the far edge restarts at 0, one below 0 at the far edge |
| Particles.Wrap | script.js:25-28 | the two wrap checks; WrapLandsOnCanvas states them |
| Particles.Particle.Update | script.js:21-29 | x and y move by the speed, wrap around the canvas, and end in [0, width] and [0, height] |

## Left out

- **Browser plumbing.** Image objects, Promises, encodeURI, requestAnimationFrame scheduling, `isConnected` and console logging are left out. The settle order and image sizes, the timestamp, the attached flag and `Date.now()` are parameters.
- **Reduced motion.** The matchMedia check is the boolean `reducedMotion` passed to `Follower.Companion.Boot`.
- **CSS style strings.** They are not modelled. The element is the record of numbers they are written from (`Engine.Element`).
- **Math.sqrt.** It is a host input, the tick's `distance`. `EngineProperties.StepShortensDistance` assumes it is the exact Euclidean distance.
- **Floating point.** Reals are exact, so double rounding, NaN from `0/0` and overflow are not modelled.
- **Zero-height images.** An image that loads with height 0 gives NaN and Infinity frame values in the source. The model requires every loaded image to have a height (`SpriteSheets.HaveHeights`).
- **Stored JSON.** It is represented by what JSON.parse makes of it. A stored field that is not a number, such as a string or an object, is not modelled.
- **Overrides.PersistFlag.** Only the JSON literals true, false and null are modelled. Other JSON values, such as `0` or `"x"`, keep the current setting, whereas the source would take their truthiness.
- ToLowerCase: only the ASCII capitals are mapped (`JsBuiltins.LowerChar`). JavaScript also maps other letters, such as U+212A KELVIN SIGN to `k`, so a data-variant written with such a letter selects a different key in the source than in the model.
- LowerChar: the same restriction, for one character.
- JsBuiltins.ParseFloat: the text `Infinity`, with or without a sign, is not read; JavaScript parses it as Infinity. The model refuses it as NaN.
- Overrides.AcceptedFloat: so `data-speed`, `data-idle-distance` or `data-death-interval` of `Infinity` is refused here, whereas the source takes it. With an infinite speed or idle distance the companion idles forever; with an infinite death interval it never dies.
- Persistence.Restored: a stored frameCount that is not a whole number, such as 2.5, cannot be represented, because the record holds it as an integer. The source restores it as it is.
- **Number#toString.** `JsBuiltins.IntToString` does not model the exponent notation used at magnitudes of 10^21 and above.
- **Particle construction.** Creating particles from Math.random, and drawing them, are not modelled. `Particles.Particle.constructor` takes the position and speed as parameters.
- **Animation loop.** The loop that updates all 150 particles is not modelled.
- **Music player I/O.** loadSong's DOM writes and all audio control (play, pause, seek, progress bar) are left out. So are the tilt and touch handlers, the companion script manager and spectre.js, which are DOM and Web Audio wiring.
- **Player.FormatTime.** It is stated for non-negative finite times, NaN and the infinities. Negative times are computed but not characterised by a lemma: the audio element never reports one.
