/** applyDatasetOverrides (companion.js:162-229): the script tag's data attributes may
    replace the selected variant's tunables and switch position persistence off. A
    numeric override is taken only when it parses to a number greater than zero. */
module Overrides {
  import opened Wrappers
  import opened JsBuiltins
  import opened Catalog

  /** The settings the overrides may change. */
  datatype Config = Config(persistPosition: bool, tuning: Tuning)

  /** `scriptEl.dataset[key]` as a truthy value: present and not the empty string. */
  function Attribute(dataset: map<string, string>, key: string): (r: Option<string>)
    ensures r.Some? <==> key in dataset && dataset[key] != ""
    ensures r.Some? ==> r.value == dataset[key]
  {
    if key in dataset && dataset[key] != "" then Some(dataset[key]) else None
  }

  /** parseInt(value, 10) when the attribute is set and the result is above zero. */
  function AcceptedInt(value: Option<string>): (r: Option<int>)
    ensures r.Some? <==> value.Some? && ParseInt(value.value).Some? && ParseInt(value.value).value > 0
    ensures r.Some? ==> ParseInt(value.value) == r && r.value > 0
  {
    if value.None? then None
    else
      match ParseInt(value.value)
      case Some(n) => if n > 0 then Some(n) else None
      case None => None
  }

  /** The height override: parseInt(value, 10) as a number of pixels, when above zero. */
  function AcceptedHeight(value: Option<string>): (r: Option<real>)
    ensures r.Some? <==> value.Some? && ParseInt(value.value).Some? && ParseInt(value.value).value > 0
    ensures r.Some? ==> r.value == ParseInt(value.value).value as real && r.value > 0.0
  {
    match AcceptedInt(value)
    case Some(n) => Some(n as real)
    case None => None
  }

  /** parseFloat(value) when the attribute is set and the result is above zero. */
  function AcceptedFloat(value: Option<string>): (r: Option<real>)
    ensures r.Some? <==> value.Some? && ParseFloat(value.value).Some? && ParseFloat(value.value).value > 0.0
    ensures r.Some? ==> ParseFloat(value.value) == r && r.value > 0.0
  {
    if value.None? then None
    else
      match ParseFloat(value.value)
      case Some(x) => if x > 0.0 then Some(x) else None
      case None => None
  }

  /** The persistPosition attribute: present and empty means true; otherwise the
      truthiness of JSON.parse of its lower-cased text, the current value when that
      text does not parse. */
  function PersistFlag(dataset: map<string, string>, current: bool): bool {
    if "persistPosition" !in dataset then current
    else if dataset["persistPosition"] == "" then true
    else ParseJsonLiteral(ToLowerCase(dataset["persistPosition"])).GetOr(current)
  }

  /** The configuration after applyDatasetOverrides; nothing changes without a dataset. */
  function Overridden(c: Config, dataset: Option<map<string, string>>): Config {
    if dataset.None? then c
    else
      var d := dataset.value;
      var t := c.tuning;
      Config(
        PersistFlag(d, c.persistPosition),
        Tuning(
          AcceptedFloat(Attribute(d, "speed")).GetOr(t.speed),
          AcceptedHeight(Attribute(d, "height")).GetOr(t.displayHeight),
          AcceptedFloat(Attribute(d, "idleDistance")).GetOr(t.idleDistance),
          AcceptedFloat(Attribute(d, "deathInterval")).GetOr(t.deathIntervalSeconds),
          AcceptedInt(Attribute(d, "deathDuration")).GetOr(t.deathDurationFrames)))
  }

  /** The mutable settings of the companion script, initialised from the variant. */
  class Settings {
    var persistPosition: bool
    var speed: real
    var displayHeight: real
    var idleDistance: real
    var deathIntervalSeconds: real
    var deathDurationFrames: int

    function Current(): Config
      reads this
    {
      Config(persistPosition, Tuning(speed, displayHeight, idleDistance,
                                               deathIntervalSeconds, deathDurationFrames))
    }

    /** `let persistPosition = true` and the variant's tunables. */
    constructor (t: Tuning)
      ensures Current() == Config(true, t)
    {
      persistPosition := true;
      speed := t.speed;
      displayHeight := t.displayHeight;
      idleDistance := t.idleDistance;
      deathIntervalSeconds := t.deathIntervalSeconds;
      deathDurationFrames := t.deathDurationFrames;
    }

    method ApplyDatasetOverrides(dataset: Option<map<string, string>>)
      modifies this
      ensures Current() == Overridden(old(Current()), dataset)
    {
      if dataset.None? {
        return;
      }
      var d := dataset.value;
      if "persistPosition" in d {
        if d["persistPosition"] == "" {
          persistPosition := true;
        } else {
          var parsed := ParseJsonLiteral(ToLowerCase(d["persistPosition"]));
          if parsed.Some? {
            persistPosition := parsed.value;
          }
        }
      }
      // Each numeric attribute replaces its setting only when it was accepted.
      displayHeight := AcceptedHeight(Attribute(d, "height")).GetOr(displayHeight);
      speed := AcceptedFloat(Attribute(d, "speed")).GetOr(speed);
      idleDistance := AcceptedFloat(Attribute(d, "idleDistance")).GetOr(idleDistance);
      deathIntervalSeconds := AcceptedFloat(Attribute(d, "deathInterval")).GetOr(deathIntervalSeconds);
      deathDurationFrames := AcceptedInt(Attribute(d, "deathDuration")).GetOr(deathDurationFrames);
    }
  }

  // ---------------------------------------------------------------------------
  // Properties

  /** Positive tunables stay positive whatever the attributes say. */
  lemma OverridesKeepValid(c: Config, dataset: Option<map<string, string>>)
    requires c.tuning.Valid()
    ensures Overridden(c, dataset).tuning.Valid()
  {
  }

  /** A changed tunable always comes from its attribute, parsed to a positive number;
      and an attribute that parses to a positive number is always taken. */
  lemma OverrideComesFromAttribute(c: Config, d: map<string, string>)
    ensures var t := Overridden(c, Some(d)).tuning;
      && ("speed" in d && ParseFloat(d["speed"]).Some? && ParseFloat(d["speed"]).value > 0.0 ==>
            t.speed == ParseFloat(d["speed"]).value)
      && ("height" in d && ParseInt(d["height"]).Some? && ParseInt(d["height"]).value > 0 ==>
            t.displayHeight == ParseInt(d["height"]).value as real)
      && ("idleDistance" in d && ParseFloat(d["idleDistance"]).Some? && ParseFloat(d["idleDistance"]).value > 0.0 ==>
            t.idleDistance == ParseFloat(d["idleDistance"]).value)
      && ("deathInterval" in d && ParseFloat(d["deathInterval"]).Some? && ParseFloat(d["deathInterval"]).value > 0.0 ==>
            t.deathIntervalSeconds == ParseFloat(d["deathInterval"]).value)
      && ("deathDuration" in d && ParseInt(d["deathDuration"]).Some? && ParseInt(d["deathDuration"]).value > 0 ==>
            t.deathDurationFrames == ParseInt(d["deathDuration"]).value)
      && (t.speed != c.tuning.speed ==>
            "speed" in d && ParseFloat(d["speed"]) == Some(t.speed) && t.speed > 0.0)
      && (t.displayHeight != c.tuning.displayHeight ==>
            "height" in d && ParseInt(d["height"]).Some?
            && ParseInt(d["height"]).value as real == t.displayHeight && t.displayHeight > 0.0)
      && (t.idleDistance != c.tuning.idleDistance ==>
            "idleDistance" in d && ParseFloat(d["idleDistance"]) == Some(t.idleDistance))
      && (t.deathIntervalSeconds != c.tuning.deathIntervalSeconds ==>
            "deathInterval" in d && ParseFloat(d["deathInterval"]) == Some(t.deathIntervalSeconds))
      && (t.deathDurationFrames != c.tuning.deathDurationFrames ==>
            "deathDuration" in d && ParseInt(d["deathDuration"]) == Some(t.deathDurationFrames)
            && t.deathDurationFrames > 0)
  {
  }

  /** An integer attribute written as decimal text, possibly with a unit after it
      ("120px"), is taken exactly when its value is above zero. */
  lemma IntAttributeOfDecimal(n: int, tail: string)
    requires tail == [] || !IsDigit(tail[0])
    ensures AcceptedInt(Some(IntToString(n) + tail)) == if n > 0 then Some(n) else None
  {
    ParseIntOfIntToString(n, tail);
  }

  /** A float attribute written as a whole decimal number is taken unless it is zero. */
  lemma FloatAttributeOfDecimal(n: nat)
    ensures AcceptedFloat(Some(NatToString(n))) == if n > 0 then Some(n as real) else None
  {
    ParseFloatOfNatToString(n);
  }

  /** data-height="120px" gives a height of 120 pixels. */
  lemma HeightWithUnitIsAccepted()
    ensures AcceptedHeight(Some("120px")) == Some(120.0)
  {
    assert NatToString(120) == "120";
    ParseIntOfNatThen(120, "px");
    assert "120" + "px" == "120px";
  }

  /** data-height of "0", "-5" or "tall" is refused. */
  lemma BadHeightsAreRefused()
    ensures AcceptedHeight(Some("0")) == None
    ensures AcceptedHeight(Some("-5")) == None
    ensures AcceptedHeight(Some("tall")) == None
  {
    assert NatToString(0) == "0";
    ParseIntOfNatThen(0, "");
    assert "0" + "" == "0";
    assert NatToString(5) == "5";
    assert "-" + "5" + "" == "-5";
    ParseIntOfMinusNatThen(5, "", "-5");
    var tall := "tall";
    assert SplitSign(tall) == (false, tall);
    assert DigitRun(tall) == 0;
  }

  /** data-persist-position: empty or "TRUE" keeps persistence on; unparseable text
      leaves the current value. */
  lemma PersistAttributeKeeps(current: bool)
    ensures PersistFlag(map["persistPosition" := ""], current)
    ensures PersistFlag(map["persistPosition" := "TRUE"], current)
    ensures PersistFlag(map["persistPosition" := "nope"], current) == current
  {
    assert ToLowerCase("TRUE") == "true";
    assert TrimJsonEnd(TrimJsonStart("true")) == "true";
    assert ToLowerCase("nope") == "nope";
    assert TrimJsonEnd(TrimJsonStart("nope")) == "nope";
  }

  /** data-persist-position of "false" or " Null " switches persistence off. */
  lemma PersistAttributeDisables(current: bool)
    ensures !PersistFlag(map["persistPosition" := "false"], current)
    ensures !PersistFlag(map["persistPosition" := " Null "], current)
  {
    assert ToLowerCase("false") == "false";
    assert TrimJsonEnd(TrimJsonStart("false")) == "false";
    assert ToLowerCase(" Null ") == " null ";
    assert TrimJsonStart(" null ") == "null ";
    assert TrimJsonEnd("null ") == "null";
  }

  /** Without a script element or dataset nothing is overridden; with one, attributes
      that are absent or empty leave their setting alone. */
  lemma AbsentAttributesChangeNothing(c: Config, d: map<string, string>)
    requires forall k :: k in d ==> d[k] == "" && k != "persistPosition"
    ensures Overridden(c, None) == c
    ensures Overridden(c, Some(d)) == c
  {
  }
}
