/** Sprite sheets (companion.js:265-297 and 338-352): the frame geometry inferred from a
    loaded image, the `sprites` dictionary with its key order, and the fallback rule
    that picks which loaded sheet stands in for a requested animation. */
module SpriteSheets {
  import opened Wrappers

  /** One loaded sheet: `{ url, frames, frameWidth, frameHeight }`. */
  datatype Sheet = Sheet(url: string, frames: int, frameWidth: real, frameHeight: real)
  {
    predicate Valid() { frames >= 1 && frameHeight > 0.0 }
  }

  /** Math.round(w / h) for a non-negative ratio: halves round up. */
  function RoundRatio(w: nat, h: nat): (r: nat)
    requires h > 0
  {
    (2 * w + h) / (2 * h)
  }

  /** The frames of a sheet are laid out side by side, each as wide as the sheet is tall,
      so their count is `max(1, round(width / height))`. */
  function FrameCount(width: nat, height: nat): (n: int)
    requires height > 0
    ensures n >= 1
  {
    if RoundRatio(width, height) < 1 then 1 else RoundRatio(width, height)
  }

  /** The sheet an image of `width` by `height` pixels holds. */
  function InferSheet(url: string, width: nat, height: nat): (s: Sheet)
    requires height > 0
    ensures s.Valid() && s.url == url
    ensures s.frames == FrameCount(width, height)
    ensures s.frameHeight == height as real
    ensures s.frameWidth * s.frames as real == width as real
  {
    var frames := FrameCount(width, height);
    Sheet(url, frames, width as real / frames as real, height as real)
  }

  /** round(w / h) is the integer nearest to w / h, halves rounding up. */
  lemma RoundRatioIsNearest(w: nat, h: nat)
    requires h > 0
    ensures (2 * RoundRatio(w, h) - 1) * h <= 2 * w < (2 * RoundRatio(w, h) + 1) * h
  {
    var q, m := (2 * w + h) / (2 * h), (2 * w + h) % (2 * h);
    assert 2 * w + h == q * (2 * h) + m && 0 <= m < 2 * h;
    assert (2 * q - 1) * h == q * (2 * h) - h;
    assert (2 * q + 1) * h == q * (2 * h) + h;
  }

  /** The inferred frame count: the nearest integer to width / height, but at least one;
      a sheet narrower than half its height still counts as one frame. */
  lemma InferredFramesAreNearest(width: nat, height: nat)
    requires height > 0
    ensures 2 * width < height ==> FrameCount(width, height) == 1
    ensures 2 * width >= height ==>
      (2 * FrameCount(width, height) - 1) * height <= 2 * width < (2 * FrameCount(width, height) + 1) * height
  {
    RoundRatioIsNearest(width, height);
    var q := RoundRatio(width, height);
    if 2 * width >= height {
      assert q >= 1 by {
        assert 2 * width + height >= 2 * height;
      }
    }
  }

  // ---------------------------------------------------------------------------
  // The `sprites` dictionary

  /** The loaded sheets by animation name, with the order in which the names were first
      added (the order Object.keys reports). */
  datatype SpriteSet = SpriteSet(sheets: map<string, Sheet>, order: seq<string>)
  {
    predicate Valid() {
      && (forall name :: name in sheets ==> name in order)
      && (forall i :: 0 <= i < |order| ==> order[i] in sheets)
      && (forall i, j :: 0 <= i < j < |order| ==> order[i] != order[j])
      && (forall name :: name in sheets ==> sheets[name].Valid())
    }

    predicate IsEmpty() { |order| == 0 }
  }

  const NoSprites: SpriteSet := SpriteSet(map[], [])

  /** `sprites[name] = sheet`: a new name goes to the end of the key order, a name already
      present keeps its place. */
  function Put(s: SpriteSet, name: string, sheet: Sheet): (r: SpriteSet)
    requires s.Valid() && sheet.Valid()
    ensures r.Valid()
    ensures r.sheets == s.sheets[name := sheet]
    ensures name in s.sheets ==> r.order == s.order
    ensures name !in s.sheets ==> r.order == s.order + [name]
  {
    if name in s.sheets then SpriteSet(s.sheets[name := sheet], s.order)
    else SpriteSet(s.sheets[name := sheet], s.order + [name])
  }

  /** The first of `names` whose sheet is loaded (`sprites.a || sprites.b || ...`). */
  function FirstLoaded(s: SpriteSet, names: seq<string>): (r: Option<string>)
    ensures r.Some? ==> r.value in s.sheets && r.value in names
    ensures r.None? <==> forall i :: 0 <= i < |names| ==> names[i] !in s.sheets
  {
    if names == [] then None
    else if names[0] in s.sheets then Some(names[0])
    else FirstLoaded(s, names[1..])
  }

  /** The stand-ins tried for a requested animation, in order of preference. */
  function Fallbacks(requested: string): seq<string> {
    if requested == "attack" then ["attack", "run", "idle"]
    else if requested == "dead" then ["dead", "idle", "run"]
    else if requested == "run" then ["run", "idle"]
    else [requested]
  }

  /** chooseSpriteName(requested): the requested sheet when loaded, else its stand-ins
      in order, else the first loaded key; None when nothing is loaded. */
  function ChooseSpriteName(s: SpriteSet, requested: string): (r: Option<string>)
    requires s.Valid()
    ensures r.Some? ==> r.value in s.sheets
    ensures r.None? <==> s.IsEmpty()
    ensures requested in s.sheets ==> r == Some(requested)
  {
    if requested in s.sheets then Some(requested)
    else if requested == "attack" && "run" in s.sheets then Some("run")
    else if requested == "attack" && "idle" in s.sheets then Some("idle")
    else if requested == "dead" && "idle" in s.sheets then Some("idle")
    else if requested == "dead" && "run" in s.sheets then Some("run")
    else if requested == "run" && "idle" in s.sheets then Some("idle")
    else if |s.order| > 0 then Some(s.order[0])
    else None
  }

  /** The choice is the first loaded stand-in, or else the first loaded key. */
  lemma ChooseIsFirstLoadedFallback(s: SpriteSet, requested: string)
    requires s.Valid()
    ensures ChooseSpriteName(s, requested) ==
      match FirstLoaded(s, Fallbacks(requested))
      case Some(name) => Some(name)
      case None => if s.IsEmpty() then None else Some(s.order[0])
  {
    var fs := Fallbacks(requested);
    assert fs[0] == requested;
    if |fs| > 1 {
      assert fs[1..][0] == fs[1];
    }
    if |fs| > 2 {
      assert fs[1..][1..][0] == fs[2];
      assert fs[1..][1..][1..] == [];
    } else if |fs| == 2 {
      assert fs[1..][1..] == [];
    } else {
      assert fs[1..] == [];
    }
  }

  /** A sprite set with some sheet loaded always yields a loaded, valid sheet. */
  lemma ChosenSheetIsValid(s: SpriteSet, requested: string)
    requires s.Valid() && !s.IsEmpty()
    ensures ChooseSpriteName(s, requested).Some?
    ensures s.sheets[ChooseSpriteName(s, requested).value].Valid()
  {
  }

  // ---------------------------------------------------------------------------
  // loadSprites

  /** How one sprite image settled: onload with the image's size, or onerror. */
  datatype Settled = Loaded(name: string, width: nat, height: nat) | Failed(name: string)

  /** Every loaded image has a height (a zero-height image is not modelled). */
  predicate HaveHeights(settled: seq<Settled>) {
    forall i :: 0 <= i < |settled| ==> settled[i].Loaded? ==> settled[i].height > 0
  }

  /** One settled image: onload stores the inferred sheet under the animation's name,
      with the source path as its url; onerror adds nothing. */
  function Settle(s: SpriteSet, sources: map<string, string>, e: Settled): (r: SpriteSet)
    requires s.Valid() && (e.Loaded? ==> e.height > 0)
    ensures r.Valid()
    ensures e.Loaded? && e.name in sources ==>
      r.sheets == s.sheets[e.name := InferSheet(sources[e.name], e.width, e.height)]
    ensures !(e.Loaded? && e.name in sources) ==> r == s
  {
    if e.Loaded? && e.name in sources then Put(s, e.name, InferSheet(sources[e.name], e.width, e.height))
    else s
  }

  /** The i-th settled image is the last one of its animation to load. */
  predicate IsLastLoad(settled: seq<Settled>, i: nat)
    requires i < |settled|
  {
    && settled[i].Loaded?
    && forall j :: i < j < |settled| ==> !(settled[j].Loaded? && settled[j].name == settled[i].name)
  }

  /** The sprites dictionary after the images settled in the order given: each animation
      whose image loaded holds the sheet inferred from its last load, and every other
      sheet is the one held before. */
  function LoadAll(s: SpriteSet, sources: map<string, string>, settled: seq<Settled>): (r: SpriteSet)
    requires s.Valid() && HaveHeights(settled)
    ensures r.Valid()
    ensures forall i :: 0 <= i < |settled| && IsLastLoad(settled, i) && settled[i].name in sources ==>
      settled[i].name in r.sheets
      && r.sheets[settled[i].name] == InferSheet(sources[settled[i].name], settled[i].width, settled[i].height)
    ensures forall name :: name in s.sheets && name !in LoadedNames(sources, settled) ==>
      name in r.sheets && r.sheets[name] == s.sheets[name]
    decreases |settled|
  {
    if settled == [] then s
    else
      var init := settled[..|settled| - 1];
      var e := settled[|settled| - 1];
      assert forall i :: 0 <= i < |init| ==> init[i] == settled[i];
      assert forall i :: 0 <= i < |init| && IsLastLoad(settled, i) ==> IsLastLoad(init, i);
      LoadedNamesOfSnoc(sources, init, e);
      assert init + [e] == settled;
      Settle(LoadAll(s, sources, init), sources, e)
  }

  /** The names of the requested animations whose image loaded. */
  function LoadedNames(sources: map<string, string>, settled: seq<Settled>): set<string> {
    set i | 0 <= i < |settled| && settled[i].Loaded? && settled[i].name in sources :: settled[i].name
  }

  /** After loading, the dictionary holds exactly the sheets it held before and those
      whose image loaded. */
  lemma {:induction false} LoadAllAddsTheLoaded(s: SpriteSet, sources: map<string, string>, settled: seq<Settled>)
    requires s.Valid() && HaveHeights(settled)
    ensures LoadAll(s, sources, settled).sheets.Keys == s.sheets.Keys + LoadedNames(sources, settled)
    decreases |settled|
  {
    if settled != [] {
      var init := settled[..|settled| - 1];
      var e := settled[|settled| - 1];
      LoadAllAddsTheLoaded(s, sources, init);
      LoadedNamesOfSnoc(sources, init, e);
      assert init + [e] == settled;
    }
  }

  /** Each sheet added by loading points at its animation's source path. */
  lemma {:induction false} LoadedSheetsPointAtSources(s: SpriteSet, sources: map<string, string>, settled: seq<Settled>)
    requires s.Valid() && HaveHeights(settled)
    ensures var r := LoadAll(s, sources, settled);
      forall name :: name in r.sheets && name !in s.sheets ==> name in sources && r.sheets[name].url == sources[name]
    decreases |settled|
  {
    if settled != [] {
      LoadedSheetsPointAtSources(s, sources, settled[..|settled| - 1]);
    }
  }

  /** Loading only appends keys: the keys already present keep their places in front. */
  lemma {:induction false} LoadAllKeepsEarlierKeys(s: SpriteSet, sources: map<string, string>, settled: seq<Settled>)
    requires s.Valid() && HaveHeights(settled)
    ensures var r := LoadAll(s, sources, settled);
      |s.order| <= |r.order| && r.order[..|s.order|] == s.order
    decreases |settled|
  {
    if settled != [] {
      var init := settled[..|settled| - 1];
      var e := settled[|settled| - 1];
      LoadAllKeepsEarlierKeys(s, sources, init);
      var mid := LoadAll(s, sources, init);
      if e.Loaded? && e.name in sources && e.name !in mid.sheets {
        assert (mid.order + [e.name])[..|s.order|] == mid.order[..|s.order|];
      }
    }
  }

  lemma LoadedNamesOfSnoc(sources: map<string, string>, settled: seq<Settled>, e: Settled)
    ensures LoadedNames(sources, settled + [e]) ==
      LoadedNames(sources, settled) + (if e.Loaded? && e.name in sources then {e.name} else {})
  {
    var all := settled + [e];
    forall name | name in LoadedNames(sources, all)
      ensures name in LoadedNames(sources, settled) || (e.Loaded? && e.name in sources && name == e.name)
    {
      var i :| 0 <= i < |all| && all[i].Loaded? && all[i].name in sources && all[i].name == name;
      if i < |settled| {
        assert settled[i] == all[i];
      }
    }
    forall name | name in LoadedNames(sources, settled)
      ensures name in LoadedNames(sources, all)
    {
      var i :| 0 <= i < |settled| && settled[i].Loaded? && settled[i].name in sources && settled[i].name == name;
      assert all[i] == settled[i];
    }
    if e.Loaded? && e.name in sources {
      assert all[|settled|] == e;
    }
  }

  /** Nothing is loaded from an empty dictionary exactly when no image loaded. */
  lemma NothingLoadedIffNoImageLoaded(sources: map<string, string>, settled: seq<Settled>)
    requires HaveHeights(settled)
    ensures LoadAll(NoSprites, sources, settled).IsEmpty()
        <==> forall i :: 0 <= i < |settled| ==> settled[i].Loaded? ==> settled[i].name !in sources
  {
    LoadAllAddsTheLoaded(NoSprites, sources, settled);
    var r := LoadAll(NoSprites, sources, settled);
    if !r.IsEmpty() {
      assert r.order[0] in r.sheets;
      assert r.order[0] in LoadedNames(sources, settled);
    }
    if exists i :: 0 <= i < |settled| && settled[i].Loaded? && settled[i].name in sources {
      var i :| 0 <= i < |settled| && settled[i].Loaded? && settled[i].name in sources;
      assert settled[i].name in r.sheets;
    }
  }
}
