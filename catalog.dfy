/** The variant catalog and the configuration derived from it at startup
    (companion.js:17-160 and 231-240): the default behaviour, the nine skins, the merge
    of each catalog entry with the defaults, the selection of the requested variant,
    the storage key and the sprite-sheet paths. */
module Catalog {
  import opened Wrappers
  import opened JsBuiltins
  import opened VariantName

  /** The behaviour tunables of a variant. */
  datatype Tuning = Tuning(
    speed: real,                 // pixels moved per tick
    displayHeight: real,         // rendered height in pixels
    idleDistance: real,          // distance below which the companion idles
    deathIntervalSeconds: real,  // seconds between scripted deaths
    deathDurationFrames: int)    // ticks a death lasts
  {
    predicate Valid() {
      speed > 0.0 && displayHeight > 0.0 && idleDistance > 0.0
      && deathIntervalSeconds > 0.0 && deathDurationFrames > 0
    }
  }

  const DefaultBehavior: Tuning := Tuning(9.5, 80.0, 54.0, 42.0, 75)

  /** The optional `behavior` object of a catalog entry: a present field overrides
      the default. No entry of the shipped catalog has one. */
  datatype Behavior = Behavior(
    speed: Option<real>, displayHeight: Option<real>, idleDistance: Option<real>,
    deathIntervalSeconds: Option<real>, deathDurationFrames: Option<int>)

  const NoBehavior: Behavior := Behavior(None, None, None, None, None)

  /** One entry of variantCatalog; `sprites` lists animation name and file, in order. */
  datatype Entry = Entry(
    key: string, displayName: string, storageKey: string, basePath: string,
    sprites: seq<(string, string)>, behavior: Behavior)

  /** A merged variant: the entry without its key, with the tunables filled in. */
  datatype Variant = Variant(
    displayName: string, storageKey: string, basePath: string,
    sprites: map<string, string>, tuning: Tuning)

  function Sheets(attackFile: string): seq<(string, string)> {
    [("idle", "Idle.png"), ("run", "Run.png"), ("attack", attackFile), ("dead", "Dead.png")]
  }

  const VariantCatalog: seq<Entry> := [
    Entry("shinobi", "Shinobi", "shinobi", "./Assets/Shinobi", Sheets("Attack_3.png"), NoBehavior),
    Entry("samurai", "Samurai", "samurai", "./Assets/Samurai", Sheets("Attack_2.png"), NoBehavior),
    Entry("fighter", "Fighter", "fighter", "./Assets/Fighter", Sheets("Attack_3.png"), NoBehavior),
    Entry("fire-wizard", "Fire Wizard", "fire-wizard", "./Assets/Fire Wizard",
          Sheets("Flame_jet.png"), NoBehavior),
    Entry("lightning-mage", "Lightning Mage", "lightning-mage", "./Assets/Lightning Mage",
          Sheets("Light_charge.png"), NoBehavior),
    Entry("wanderer-magician", "Wanderer Magician", "wanderer-magician",
          "./Assets/Wanderer Magican", Sheets("Attack_1.png"), NoBehavior),
    Entry("knight-1", "Knight 1", "knight-1", "./Assets/Knight_1", Sheets("Attack_1.png"), NoBehavior),
    Entry("knight-2", "Knight 2", "knight-2", "./Assets/Knight_2", Sheets("Attack_1.png"), NoBehavior),
    Entry("knight-3", "Knight 3", "knight-3", "./Assets/Knight_3", Sheets("Attack_1.png"), NoBehavior)
  ]

  /** `{ ...defaultBehavior, ...behavior }` on the tunables. */
  function MergeBehavior(defaults: Tuning, b: Behavior): (t: Tuning)
    ensures b == NoBehavior ==> t == defaults
    ensures b.speed.Some? ==> t.speed == b.speed.value
    ensures b.speed.None? ==> t.speed == defaults.speed
    ensures b.displayHeight.Some? ==> t.displayHeight == b.displayHeight.value
    ensures b.displayHeight.None? ==> t.displayHeight == defaults.displayHeight
    ensures b.idleDistance.Some? ==> t.idleDistance == b.idleDistance.value
    ensures b.idleDistance.None? ==> t.idleDistance == defaults.idleDistance
    ensures b.deathIntervalSeconds.Some? ==> t.deathIntervalSeconds == b.deathIntervalSeconds.value
    ensures b.deathIntervalSeconds.None? ==> t.deathIntervalSeconds == defaults.deathIntervalSeconds
    ensures b.deathDurationFrames.Some? ==> t.deathDurationFrames == b.deathDurationFrames.value
    ensures b.deathDurationFrames.None? ==> t.deathDurationFrames == defaults.deathDurationFrames
  {
    Tuning(
      b.speed.GetOr(defaults.speed), b.displayHeight.GetOr(defaults.displayHeight),
      b.idleDistance.GetOr(defaults.idleDistance),
      b.deathIntervalSeconds.GetOr(defaults.deathIntervalSeconds),
      b.deathDurationFrames.GetOr(defaults.deathDurationFrames))
  }

  /** An object built from name/file pairs; a later pair with the same name wins. */
  function PairsToMap(pairs: seq<(string, string)>): (m: map<string, string>)
    ensures forall name :: name in m <==> name in Names(pairs)
  {
    if pairs == [] then map[]
    else
      var rest := PairsToMap(pairs[1..]);
      assert Names(pairs) == [pairs[0].0] + Names(pairs[1..]);
      if pairs[0].0 in rest then rest else rest[pairs[0].0 := pairs[0].1]
  }

  /** A name that no later pair repeats maps to its own file. */
  lemma {:induction false} PairsToMapLookup(pairs: seq<(string, string)>, i: nat)
    requires i < |pairs|
    requires forall j :: i < j < |pairs| ==> pairs[j].0 != pairs[i].0
    ensures pairs[i].0 in PairsToMap(pairs) && PairsToMap(pairs)[pairs[i].0] == pairs[i].1
  {
    assert Names(pairs)[i] == pairs[i].0;
    if i > 0 {
      assert forall j :: i - 1 < j < |pairs| - 1 ==> pairs[1..][j] == pairs[j + 1];
      PairsToMapLookup(pairs[1..], i - 1);
    } else {
      assert forall k :: 0 <= k < |pairs| - 1 ==> Names(pairs[1..])[k] == pairs[k + 1].0;
      assert pairs[0].0 !in Names(pairs[1..]);
    }
  }

  function Names(pairs: seq<(string, string)>): seq<string> {
    seq(|pairs|, i requires 0 <= i < |pairs| => pairs[i].0)
  }

  /** The merge of companion.js:136-146. */
  function Merge(e: Entry): Variant {
    Variant(e.displayName, e.storageKey, e.basePath, PairsToMap(e.sprites),
            MergeBehavior(DefaultBehavior, e.behavior))
  }

  function KeysOf(es: seq<Entry>): seq<string> {
    seq(|es|, i requires 0 <= i < |es| => es[i].key)
  }

  /** Object.fromEntries over the merged entries: a later entry with the same key wins. */
  function VariantsOf(es: seq<Entry>): (vs: map<string, Variant>)
    ensures forall k :: k in vs <==> k in KeysOf(es)
  {
    if es == [] then map[]
    else
      var rest := VariantsOf(es[1..]);
      assert KeysOf(es) == [es[0].key] + KeysOf(es[1..]);
      if es[0].key in rest then rest else rest[es[0].key := Merge(es[0])]
  }

  lemma {:induction false} VariantsOfLookup(es: seq<Entry>, i: nat)
    requires i < |es|
    requires forall j :: i < j < |es| ==> es[j].key != es[i].key
    ensures es[i].key in VariantsOf(es) && VariantsOf(es)[es[i].key] == Merge(es[i])
  {
    assert KeysOf(es)[i] == es[i].key;
    if i > 0 {
      assert forall j :: i - 1 < j < |es| - 1 ==> es[1..][j] == es[j + 1];
      VariantsOfLookup(es[1..], i - 1);
    } else {
      assert es[i].key !in KeysOf(es[1..]);
    }
  }

  function Variants(): map<string, Variant> { VariantsOf(VariantCatalog) }

  /** What every variant must offer: valid tunables and the four animations. */
  predicate WellFormed(v: Variant) {
    v.tuning.Valid() && v.sprites.Keys == {"idle", "run", "attack", "dead"}
  }

  lemma {:induction false} VariantsOfWellFormed(es: seq<Entry>)
    requires forall i :: 0 <= i < |es| ==> WellFormed(Merge(es[i]))
    ensures forall k :: k in VariantsOf(es) ==> WellFormed(VariantsOf(es)[k])
  {
    if es != [] {
      assert forall i :: 0 <= i < |es| - 1 ==> es[1..][i] == es[i + 1];
      VariantsOfWellFormed(es[1..]);
    }
  }

  lemma SheetsHaveFourAnimations(attackFile: string)
    ensures PairsToMap(Sheets(attackFile)).Keys == {"idle", "run", "attack", "dead"}
  {
    var names := Names(Sheets(attackFile));
    assert names == ["idle", "run", "attack", "dead"];
    forall k
      ensures k in PairsToMap(Sheets(attackFile)) <==> k in {"idle", "run", "attack", "dead"}
    {
      assert k in names <==> k == "idle" || k == "run" || k == "attack" || k == "dead";
    }
  }

  /** Every variant of the catalog has positive tunables and all four animations. */
  lemma CatalogWellFormed()
    ensures forall k :: k in Variants() ==> WellFormed(Variants()[k])
  {
    forall i | 0 <= i < |VariantCatalog|
      ensures WellFormed(Merge(VariantCatalog[i]))
    {
      var e := VariantCatalog[i];
      assert e.behavior == NoBehavior;
      assert e.sprites == Sheets(e.sprites[2].1);
      SheetsHaveFourAnimations(e.sprites[2].1);
    }
    VariantsOfWellFormed(VariantCatalog);
  }

  /** Each catalog key, written as the words it is made of. */
  const KeyWords: seq<seq<string>> := [
    ["shinobi"], ["samurai"], ["fighter"], ["fire", "wizard"], ["lightning", "mage"],
    ["wanderer", "magician"], ["knight", "1"], ["knight", "2"], ["knight", "3"]
  ]

  lemma KeyWordsAreWords(i: nat)
    requires i < |KeyWords|
    ensures KeyWords[i] != [] && forall k :: 0 <= k < |KeyWords[i]| ==> IsWord(KeyWords[i][k])
  {
  }

  lemma KeyWordsSpellKeys(i: nat)
    requires i < |VariantCatalog|
    ensures JoinWithHyphens(KeyWords[i]) == VariantCatalog[i].key
  {
  }

  // ---------------------------------------------------------------------------
  // Selecting the variant

  /** Why startup stopped: the user prefers reduced motion, the variant is unknown, the
      key named a member `variants` inherits from Object.prototype, or no sprite sheet
      loaded. */
  datatype StartupError =
    | ReducedMotion
    | UnknownVariant(key: string, available: seq<string>)
    | InheritedVariant(key: string)
    | NoSpritesLoaded(key: string)

  /** Object.keys(variants), in insertion order. */
  function CatalogKeys(): seq<string> { KeysOf(VariantCatalog) }

  /** The properties of Object.prototype. `variants` is a plain object, so indexing it
      with one of these names finds a truthy value that is not a variant. */
  const ObjectPrototypeNames: set<string> := {
    "constructor", "hasOwnProperty", "isPrototypeOf", "propertyIsEnumerable",
    "toLocaleString", "toString", "valueOf", "__proto__",
    "__defineGetter__", "__defineSetter__", "__lookupGetter__", "__lookupSetter__"
  }

  /** normalizeVariant(dataset.variant) and the lookup in `variants`. An unknown key
      aborts startup with the list of the available keys. An inherited name passes the
      `!selectedVariant` test; its missing basePath then makes the `replace` call of
      companion.js:232 throw, which ends the script. */
  function SelectVariant(dataVariant: Option<string>): Result<(string, Variant), StartupError> {
    var key := NormalizeVariant(dataVariant);
    if key in Variants() then Success((key, Variants()[key]))
    else if key in ObjectPrototypeNames then Failure(InheritedVariant(key))
    else Failure(UnknownVariant(key, CatalogKeys()))
  }

  lemma CatalogKeysListed()
    ensures CatalogKeys() == ["shinobi", "samurai", "fighter", "fire-wizard", "lightning-mage",
                              "wanderer-magician", "knight-1", "knight-2", "knight-3"]
  {
  }

  lemma CatalogKeysDistinct()
    ensures forall a, b :: 0 <= a < b < |VariantCatalog| ==> VariantCatalog[a].key != VariantCatalog[b].key
  {
    var ks := CatalogKeys();
    CatalogKeysListed();
    forall a, b | 0 <= a < b < |ks|
      ensures ks[a] != ks[b]
    {
      assert |ks[a]| != |ks[b]| || ks[a][1] != ks[b][1] || (|ks[a]| == 8 && ks[a][7] != ks[b][7]);
    }
  }

  /** Every catalog key, given as data-variant, selects its own entry. */
  lemma EveryKeySelectsItsEntry(i: nat)
    requires i < |VariantCatalog|
    ensures SelectVariant(Some(VariantCatalog[i].key)) == Success((VariantCatalog[i].key, Merge(VariantCatalog[i])))
  {
    KeyWordsAreWords(i);
    KeyWordsSpellKeys(i);
    NormalizeJoinedWords(KeyWords[i]);
    CatalogKeysDistinct();
    VariantsOfLookup(VariantCatalog, i);
  }

  /** Without a data-variant attribute the shinobi variant is selected. */
  lemma MissingVariantSelectsShinobi()
    ensures SelectVariant(None) == SelectVariant(Some("shinobi"))
    ensures SelectVariant(None).Success? && SelectVariant(None).value.0 == "shinobi"
  {
    EveryKeySelectsItsEntry(0);
  }

  lemma NoKeyStartsWithN()
    ensures forall j :: 0 <= j < |CatalogKeys()| ==> CatalogKeys()[j] != [] && CatalogKeys()[j][0] != 'n'
  {
    var ks := CatalogKeys();
    CatalogKeysListed();
    forall j | 0 <= j < |ks|
      ensures ks[j] != [] && ks[j][0] != 'n'
    {
    }
  }

  /** A name that holds a character other than `[a-z0-9-]` is no slug. */
  lemma NotSlugAt(name: string, i: nat)
    requires i < |name| && !IsSlugChar(name[i]) && name[i] != '-'
    ensures !IsSlug(name)
  {
  }

  /** Of the names Object.prototype carries, only "constructor" is a slug: every other
      one holds a capital or an underscore. */
  lemma InheritedSlugIsConstructor(key: string)
    requires IsSlug(key) && key in ObjectPrototypeNames
    ensures key == "constructor"
  {
    NotSlugAt("hasOwnProperty", 3);
    NotSlugAt("isPrototypeOf", 2);
    NotSlugAt("propertyIsEnumerable", 10);
    NotSlugAt("toLocaleString", 2);
    NotSlugAt("toString", 2);
    NotSlugAt("valueOf", 5);
    NotSlugAt("__proto__", 0);
    NotSlugAt("__defineGetter__", 0);
    NotSlugAt("__defineSetter__", 0);
    NotSlugAt("__lookupGetter__", 0);
    NotSlugAt("__lookupSetter__", 0);
  }

  /** So "constructor" is the one inherited name a data-variant can reach, since
      normalizeVariant leaves only `[a-z0-9-]`. */
  lemma OnlyConstructorIsInherited(dataVariant: Option<string>)
    ensures NormalizeVariant(dataVariant) in ObjectPrototypeNames ==> NormalizeVariant(dataVariant) == "constructor"
  {
    var key := NormalizeVariant(dataVariant);
    NormalizeVariantIsSlug(dataVariant);
    if key in ObjectPrototypeNames {
      InheritedSlugIsConstructor(key);
    }
  }

  /** Every name outside the catalog other than "constructor" aborts startup with the
      warning: the normalized name and the nine valid keys. */
  lemma UnknownNamesAreReported(dataVariant: Option<string>)
    requires NormalizeVariant(dataVariant) !in CatalogKeys()
    requires NormalizeVariant(dataVariant) != "constructor"
    ensures SelectVariant(dataVariant) == Failure(UnknownVariant(NormalizeVariant(dataVariant), CatalogKeys()))
  {
    OnlyConstructorIsInherited(dataVariant);
  }

  /** A single word outside the catalog, such as "nonexistent", aborts startup and lists
      the nine valid keys. */
  lemma UnknownVariantIsReported(name: string)
    requires name == "nonexistent"
    ensures SelectVariant(Some(name)) == Failure(UnknownVariant(name, CatalogKeys()))
  {
    NonexistentIsNoKey(name);
    assert name[0] != "constructor"[0];
    UnknownNamesAreReported(Some(name));
  }

  lemma NonexistentIsNoKey(name: string)
    requires name == "nonexistent"
    ensures NormalizeVariant(Some(name)) == name && name !in CatalogKeys()
  {
    assert name[0] == 'n';
    NoKeyStartsWithN();
    NormalizeJoinedWords([name]);
  }

  /** A data-variant that normalizes to "constructor" finds Object.prototype.constructor,
      skips the warning, and ends startup with the TypeError of companion.js:232. */
  lemma ConstructorSelectionThrows(dataVariant: Option<string>)
    requires NormalizeVariant(dataVariant) == "constructor"
    ensures SelectVariant(dataVariant) == Failure(InheritedVariant("constructor"))
  {
    var name := "constructor";
    assert name in ObjectPrototypeNames;
    assert name[0] == 'c';
    CatalogKeysListed();
    assert name !in CatalogKeys();
  }

  /** "constructor" and "Constructor" both end startup with that TypeError. */
  lemma ConstructorVariantThrows(name: string)
    requires name == "constructor" || name == "Constructor"
    ensures SelectVariant(Some(name)) == Failure(InheritedVariant("constructor"))
  {
    ConstructorNormalizes(name);
    ConstructorSelectionThrows(Some(name));
  }

  lemma ConstructorNormalizes(name: string)
    requires name == "constructor" || name == "Constructor"
    ensures NormalizeVariant(Some(name)) == "constructor"
  {
    NormalizeJoinedWords(["constructor"]);
    if name == "Constructor" {
      CapitalizedConstructor();
    }
  }

  lemma CapitalizedConstructor()
    ensures NormalizeVariant(Some("Constructor")) == NormalizeVariant(Some("constructor"))
  {
    var lower := ToLowerCase("Constructor");
    assert lower[0] == 'c';
    assert lower == "constructor";
  }

  // ---------------------------------------------------------------------------
  // Derived configuration

  /** `follower-${selectedVariant.storageKey || variantKey}`. */
  function StorageKey(v: Variant, variantKey: string): (k: string)
    ensures |k| >= 9 && k[..9] == "follower-"
    ensures v.storageKey != "" ==> k[9..] == v.storageKey
    ensures v.storageKey == "" ==> k[9..] == variantKey
  {
    "follower-" + (if v.storageKey != "" then v.storageKey else variantKey)
  }

  /** basePath.replace(/\/?$/, "/"): the path with exactly one added trailing slash
      when it has none. */
  function BasePath(p: string): (r: string)
    ensures r != [] && r[|r| - 1] == '/'
    ensures r == p || r == p + "/"
    ensures p != [] && p[|p| - 1] == '/' ==> r == p
  {
    if p != [] && p[|p| - 1] == '/' then p else p + "/"
  }

  /** spriteSources: each animation's file, prefixed with the base path. */
  function SpriteSources(v: Variant): (sources: map<string, string>)
    ensures sources.Keys == v.sprites.Keys
    ensures forall name :: name in sources ==> sources[name] == BasePath(v.basePath) + v.sprites[name]
  {
    map name | name in v.sprites :: BasePath(v.basePath) + v.sprites[name]
  }
}
