/**
  useMasteryCalculations (frontend/src/utils/masteryHelpers.ts): the slider
  range, step and default value a mastery schema's configured levels give,
  and the fallback for a missing or non-numeric mastery value. Numbers are
  modelled as reals.
 */
module MasteryHelpers {
  import opened Text

  datatype Level = Level(minValue: real, maxValue: real)

  /** The parts of a schema's config that are read; an absent config or field is None. */
  datatype Config = Config(levels: Option<seq<Level>>, inputIncrement: Option<real>)

  datatype Calculations = Calculations(
    masteryLevels: seq<Level>,
    minValue: real,
    maxValue: real,
    sliderValueIncrement: real,
    defaultValue: real,
    hasLevels: bool)

  /** Math.min over the levels' minValue. */
  function LeastMin(levels: seq<Level>): (r: real)
    requires levels != []
    ensures forall i :: 0 <= i < |levels| ==> r <= levels[i].minValue
    ensures exists i :: 0 <= i < |levels| && r == levels[i].minValue
  {
    if |levels| == 1 then levels[0].minValue
    else
      var rest := LeastMin(levels[1..]);
      assert forall i :: 1 <= i < |levels| ==> levels[1..][i - 1] == levels[i];
      if levels[0].minValue <= rest then levels[0].minValue else rest
  }

  /** Math.max over the levels' maxValue. */
  function GreatestMax(levels: seq<Level>): (r: real)
    requires levels != []
    ensures forall i :: 0 <= i < |levels| ==> levels[i].maxValue <= r
    ensures exists i :: 0 <= i < |levels| && r == levels[i].maxValue
  {
    if |levels| == 1 then levels[0].maxValue
    else
      var rest := GreatestMax(levels[1..]);
      assert forall i :: 1 <= i < |levels| ==> levels[1..][i - 1] == levels[i];
      if levels[0].maxValue >= rest then levels[0].maxValue else rest
  }

  /** The levels of the schema's config; a schema, config or level list that is absent gives none. */
  function LevelsOf(schema: Option<Config>): seq<Level> {
    if schema.Some? && schema.value.levels.Some? then schema.value.levels.value else []
  }

  function UseMasteryCalculations(schema: Option<Config>): (r: Calculations)
    ensures r.masteryLevels == LevelsOf(schema)
    ensures r.hasLevels <==> r.masteryLevels != []
    ensures !r.hasLevels ==> r.minValue == 0.0 && r.maxValue == 100.0 && r.defaultValue == 50.0
    ensures r.hasLevels ==> (forall i :: 0 <= i < |r.masteryLevels| ==>
      r.minValue <= r.masteryLevels[i].minValue && r.masteryLevels[i].maxValue <= r.maxValue)
    ensures r.hasLevels ==> exists i :: 0 <= i < |r.masteryLevels| && r.minValue == r.masteryLevels[i].minValue
    ensures r.hasLevels ==> exists i :: 0 <= i < |r.masteryLevels| && r.maxValue == r.masteryLevels[i].maxValue
    ensures r.defaultValue - r.minValue == r.maxValue - r.defaultValue
    ensures r.sliderValueIncrement != 0.0
    ensures schema.None? || schema.value.inputIncrement.None? || schema.value.inputIncrement == Some(0.0) ==>
      r.sliderValueIncrement == 1.0
    ensures schema.Some? && schema.value.inputIncrement.Some? && schema.value.inputIncrement.value != 0.0 ==>
      r.sliderValueIncrement == schema.value.inputIncrement.value
  {
    var levels := LevelsOf(schema);
    var hasLevels := |levels| > 0;
    var minValue := if hasLevels then LeastMin(levels) else 0.0;
    var maxValue := if hasLevels then GreatestMax(levels) else 100.0;
    var increment := if schema.Some? && schema.value.inputIncrement.Some? && schema.value.inputIncrement.value != 0.0
      then schema.value.inputIncrement.value else 1.0;
    Calculations(levels, minValue, maxValue, increment, (minValue + maxValue) / 2.0, hasLevels)
  }

  /** calculateSafeMasteryValue: isNumber(value) is the caller's verdict on the value. */
  function CalculateSafeMasteryValue(c: Calculations, value: Option<real>, isNumber: bool): (r: real)
    ensures value.Some? && isNumber ==> r == value.value
    ensures value.None? || !isNumber ==> r == c.defaultValue
  {
    if value.Some? && isNumber then value.value else c.defaultValue
  }

  // ---------------------------------------------------------------- properties

  /** Each level is a range with its minimum at or below its maximum. */
  predicate WellFormed(levels: seq<Level>) {
    forall i :: 0 <= i < |levels| ==> levels[i].minValue <= levels[i].maxValue
  }

  /**
    With well-formed levels the slider range is not empty, and the default
    value, and so every fallback of calculateSafeMasteryValue, lies inside it.
   */
  lemma DefaultWithinRange(schema: Option<Config>, value: Option<real>, isNumber: bool)
    requires WellFormed(LevelsOf(schema))
    ensures var c := UseMasteryCalculations(schema);
      c.minValue <= c.defaultValue <= c.maxValue
      && (value.None? || !isNumber ==> c.minValue <= CalculateSafeMasteryValue(c, value, isNumber) <= c.maxValue)
  {
    var c := UseMasteryCalculations(schema);
    if c.hasLevels {
      assert c.minValue <= c.masteryLevels[0].minValue <= c.masteryLevels[0].maxValue <= c.maxValue;
    }
  }

  /** A schema whose levels cover 0 to 100 in two parts gives the same range as a schema without levels. */
  lemma TwoLevelsExample()
    ensures var c := UseMasteryCalculations(Some(Config(Some([Level(0.0, 40.0), Level(40.0, 100.0)]), Some(5.0))));
      c.minValue == 0.0 && c.maxValue == 100.0 && c.defaultValue == 50.0 && c.sliderValueIncrement == 5.0 && c.hasLevels
  {
    var levels := [Level(0.0, 40.0), Level(40.0, 100.0)];
    assert levels[1..] == [Level(40.0, 100.0)];
  }
}
