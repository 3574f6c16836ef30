/**
 * The outfit recommender: a temperature band picks a base outfit, then at
 * most one weather-condition override adjusts it.
 */
module Outfit {
  import opened Text

  /** `OutfitRecommendation`: what to wear, what to carry, and a sentence of advice. */
  datatype Outfit = Outfit(
    topWear: string,
    bottomWear: string,
    footwear: string,
    accessories: seq<string>,
    advice: string)

  /** The five temperature bands, coldest first. */
  datatype Band = Freezing | Cold | Mild | Warm | Hot

  /** The position of a band on the scale, coldest first. */
  function Rank(b: Band): nat
  {
    match b
    case Freezing => 0
    case Cold => 1
    case Mild => 2
    case Warm => 3
    case Hot => 4
  }

  /** The band of a temperature in degrees Celsius; every threshold belongs
      to the warmer band. */
  function BandOf(t: real): Band
  {
    if t < 0.0 then Freezing
    else if t < 10.0 then Cold
    else if t < 20.0 then Mild
    else if t < 30.0 then Warm
    else Hot
  }

  /** The base outfit of each band. */
  function BandOutfit(b: Band): Outfit
  {
    Outfit(BandTop(b), BandBottom(b), BandFootwear(b), BandAccessories(b), BandAdvice(b))
  }

  // One function per field, so that a fact about one field does not
  // unfold the text of the others.

  function BandTop(b: Band): string
  {
    match b
    case Freezing => "Heavy winter coat with sweater or thermal"
    case Cold => "Winter coat or jacket with long sleeve shirt"
    case Mild => "Light jacket or sweater"
    case Warm => "T-shirt or short sleeve shirt"
    case Hot => "Light, breathable shirt or tank top"
  }

  function BandBottom(b: Band): string
  {
    match b
    case Freezing => "Insulated pants or jeans with thermal underwear"
    case Cold => "Warm pants or jeans"
    case Mild => "Jeans or casual pants"
    case Warm => "Light pants or shorts"
    case Hot => "Shorts or light skirt"
  }

  function BandFootwear(b: Band): string
  {
    match b
    case Freezing => "Insulated winter boots"
    case Cold => "Closed shoes or boots"
    case Mild => "Sneakers or loafers"
    case Warm => "Sneakers or sandals"
    case Hot => "Sandals or light shoes"
  }

  function BandAccessories(b: Band): seq<string>
  {
    match b
    case Freezing => ["Scarf", "Gloves", "Beanie or winter hat"]
    case Cold => ["Light scarf", "Gloves"]
    case Mild => ["Light scarf (optional)"]
    case Warm => []
    case Hot => ["Hat"]
  }

  function BandAdvice(b: Band): string
  {
    match b
    case Freezing => "Layer up! Multiple thin layers trap heat better than one thick layer."
    case Cold => "It's cold outside. Make sure to wear a proper jacket."
    case Mild => "Perfect weather for layering. Bring a light jacket that can be removed if it gets warm."
    case Warm => "Comfortable weather. Light, breathable fabrics are ideal."
    case Hot => "It's hot! Wear light-colored, loose-fitting clothing to stay cool."
  }

  const RainAdvice := " Don't forget your umbrella and waterproof footwear!"
  const SnowAdvice := " Wear waterproof clothing and footwear with good traction."
  const SunAdvice := " Don't forget sun protection!"

  /** A lower-cased condition that calls for rain gear. */
  predicate IsWet(c: string)
  {
    Contains(c, "rain") || Contains(c, "drizzle")
  }

  /** A lower-cased condition that calls for snow gear. */
  predicate IsSnowy(c: string)
  {
    Contains(c, "snow")
  }

  /** A lower-cased condition, time of day and temperature that call for sun protection. */
  predicate IsSunny(c: string, isDay: bool, t: real)
  {
    Contains(c, "clear") && isDay && t > 15.0
  }

  /** The rain override: a raincoat (layered below 15 degrees), waterproof
      shoes, an umbrella and the rain sentence. */
  function WetGear(base: Outfit, t: real): Outfit
  {
    base.(topWear := "Waterproof jacket or raincoat" + (if t < 15.0 then " with layers" else ""),
          footwear := "Waterproof boots or shoes",
          accessories := base.accessories + ["Umbrella"],
          advice := base.advice + RainAdvice)
  }

  /** The snow override: insulated waterproof clothing, gloves and the snow sentence. */
  function SnowGear(base: Outfit): Outfit
  {
    base.(topWear := "Waterproof and insulated coat",
          bottomWear := "Waterproof pants",
          footwear := "Waterproof winter boots with grip",
          accessories := base.accessories + ["Waterproof gloves"],
          advice := base.advice + SnowAdvice)
  }

  /** The sun override: sunglasses, sunscreen and the sun sentence. */
  function SunGear(base: Outfit): Outfit
  {
    base.(accessories := base.accessories + ["Sunglasses", "Sunscreen"],
          advice := base.advice + SunAdvice)
  }

  /** `getOutfitRecommendation`: the band outfit, then the first override
      whose condition holds. */
  function Recommend(temperature: real, weatherCondition: string, isDay: bool): Outfit
  {
    Adjust(BandOutfit(BandOf(temperature)), Lower(weatherCondition), isDay, temperature)
  }

  /** The override chain applied to a base outfit and a lower-cased condition. */
  function Adjust(base: Outfit, c: string, isDay: bool, t: real): Outfit
  {
    if IsWet(c) then WetGear(base, t)
    else if IsSnowy(c) then SnowGear(base)
    else if IsSunny(c, isDay, t) then SunGear(base)
    else base
  }

  // ---------------------------------------------------------------------
  // Bands.

  /** Each band is exactly a half-open temperature interval. */
  lemma BandIntervals(t: real)
    ensures BandOf(t) == Freezing <==> t < 0.0
    ensures BandOf(t) == Cold <==> 0.0 <= t < 10.0
    ensures BandOf(t) == Mild <==> 10.0 <= t < 20.0
    ensures BandOf(t) == Warm <==> 20.0 <= t < 30.0
    ensures BandOf(t) == Hot <==> 30.0 <= t
  {
  }

  /** A warmer temperature never gets a colder band. */
  lemma BandMonotone(t1: real, t2: real)
    requires t1 <= t2
    ensures Rank(BandOf(t1)) <= Rank(BandOf(t2))
  {
  }

  /** The number of accessories each band starts with: three below
      freezing, two when cold, one when mild or hot, none when warm. */
  lemma BandAccessoryCount(b: Band)
    ensures b == Freezing ==> |BandAccessories(b)| == 3
    ensures b == Cold ==> |BandAccessories(b)| == 2
    ensures b == Mild || b == Hot ==> |BandAccessories(b)| == 1
    ensures b == Warm <==> |BandAccessories(b)| == 0
  {
  }

  // ---------------------------------------------------------------------
  // Overrides.

  /** Rain or drizzle, in any letter case, gives the rain outfit whatever
      else the condition says. */
  lemma RainOverride(t: real, condition: string, isDay: bool)
    requires IsWet(Lower(condition))
    ensures var r := Recommend(t, condition, isDay);
      var base := BandOutfit(BandOf(t));
      && r.topWear == (if t < 15.0 then "Waterproof jacket or raincoat with layers"
                       else "Waterproof jacket or raincoat")
      && r.bottomWear == base.bottomWear
      && r.footwear == "Waterproof boots or shoes"
      && r.accessories == base.accessories + ["Umbrella"]
      && r.advice == base.advice + RainAdvice
  {
    if t < 15.0 {
      assert "Waterproof jacket or raincoat" + " with layers" == "Waterproof jacket or raincoat with layers";
    } else {
      assert "Waterproof jacket or raincoat" + "" == "Waterproof jacket or raincoat";
    }
  }

  /** Snow without rain or drizzle gives the snow outfit. */
  lemma SnowOverride(t: real, condition: string, isDay: bool)
    requires !IsWet(Lower(condition)) && IsSnowy(Lower(condition))
    ensures var r := Recommend(t, condition, isDay);
      var base := BandOutfit(BandOf(t));
      && r.topWear == "Waterproof and insulated coat"
      && r.bottomWear == "Waterproof pants"
      && r.footwear == "Waterproof winter boots with grip"
      && r.accessories == base.accessories + ["Waterproof gloves"]
      && r.advice == base.advice + SnowAdvice
  {
  }

  /** Sun protection is added exactly when the condition is clear, it is
      day, it is above 15 degrees and no rain or snow override applies. */
  lemma SunOverride(t: real, condition: string, isDay: bool)
    ensures var r := Recommend(t, condition, isDay);
      var base := BandOutfit(BandOf(t));
      var c := Lower(condition);
      (r.accessories == base.accessories + ["Sunglasses", "Sunscreen"]
       <==> !IsWet(c) && !IsSnowy(c) && IsSunny(c, isDay, t))
  {
    var r := Recommend(t, condition, isDay);
    var base := BandOutfit(BandOf(t));
    var c := Lower(condition);
    if IsWet(c) {
      assert r.accessories[|base.accessories|] == "Umbrella";
    } else if IsSnowy(c) {
      assert r.accessories[|base.accessories|] == "Waterproof gloves";
    }
  }

  /** With no matching condition the result is the band outfit unchanged. */
  lemma NoOverride(t: real, condition: string, isDay: bool)
    requires var c := Lower(condition);
      !IsWet(c) && !IsSnowy(c) && !IsSunny(c, isDay, t)
    ensures Recommend(t, condition, isDay) == BandOutfit(BandOf(t))
  {
  }

  /** The clothes change only under rain or snow: the sun override, like
      no override, leaves the band's top, bottom and footwear. */
  lemma ClothesFromBand(t: real, condition: string, isDay: bool)
    ensures var r := Recommend(t, condition, isDay);
      var base := BandOutfit(BandOf(t));
      var c := Lower(condition);
      !IsWet(c) && !IsSnowy(c) ==>
        r.topWear == base.topWear && r.bottomWear == base.bottomWear && r.footwear == base.footwear
  {
  }

  /** At most one override applies: the band's accessories and advice are
      kept as prefixes, followed by exactly one override's additions or by
      nothing. */
  lemma AtMostOneOverride(t: real, condition: string, isDay: bool)
    ensures var r := Recommend(t, condition, isDay);
      var base := BandOutfit(BandOf(t));
      || (r.accessories == base.accessories && r.advice == base.advice)
      || (r.accessories == base.accessories + ["Umbrella"] && r.advice == base.advice + RainAdvice)
      || (r.accessories == base.accessories + ["Waterproof gloves"] && r.advice == base.advice + SnowAdvice)
      || (r.accessories == base.accessories + ["Sunglasses", "Sunscreen"] && r.advice == base.advice + SunAdvice)
  {
    AdjustCases(BandOutfit(BandOf(t)), Lower(condition), isDay, t);
  }

  /** The four possible outcomes of the override chain on any base outfit. */
  lemma AdjustCases(base: Outfit, c: string, isDay: bool, t: real)
    ensures var r := Adjust(base, c, isDay, t);
      || (r.accessories == base.accessories && r.advice == base.advice)
      || (r.accessories == base.accessories + ["Umbrella"] && r.advice == base.advice + RainAdvice)
      || (r.accessories == base.accessories + ["Waterproof gloves"] && r.advice == base.advice + SnowAdvice)
      || (r.accessories == base.accessories + ["Sunglasses", "Sunscreen"] && r.advice == base.advice + SunAdvice)
  {
  }

  /** The band's accessories always lead the list, which grows by at most two. */
  lemma AccessoriesExtendBand(t: real, condition: string, isDay: bool)
    ensures var r := Recommend(t, condition, isDay);
      var base := BandOutfit(BandOf(t));
      && base.accessories <= r.accessories
      && |base.accessories| <= |r.accessories| <= |base.accessories| + 2
      && base.advice <= r.advice
  {
    AdjustExtends(BandOutfit(BandOf(t)), Lower(condition), isDay, t);
  }

  /** Any override only appends to the accessories and the advice. */
  lemma AdjustExtends(base: Outfit, c: string, isDay: bool, t: real)
    ensures var r := Adjust(base, c, isDay, t);
      && base.accessories <= r.accessories
      && |base.accessories| <= |r.accessories| <= |base.accessories| + 2
      && base.advice <= r.advice
  {
  }

  /** Daytime matters only to the sun override: without "clear", or when
      rain, drizzle or snow is mentioned, day and night give the same outfit. */
  lemma DaytimeOnlyForSun(t: real, condition: string)
    requires var c := Lower(condition);
      !Contains(c, "clear") || IsWet(c) || IsSnowy(c)
    ensures Recommend(t, condition, true) == Recommend(t, condition, false)
  {
  }

  /** The condition is compared without regard to letter case. */
  lemma RecommendCaseInsensitive(t: real, condition: string, isDay: bool)
    ensures Recommend(t, condition, isDay) == Recommend(t, Lower(condition), isDay)
  {
    LowerIdempotent(condition);
  }

  /** A clear day below the sun threshold keeps the band outfit: below
      freezing, and at exactly 15 degrees. */
  lemma ClearButCoolExamples()
    ensures Recommend(-5.0, "Clear", true) == BandOutfit(Freezing)
    ensures Recommend(15.0, "Clear", true) == BandOutfit(Mild)
  {
    assert Lower("Clear") == "clear";
    assert !Contains("clear", "rain") && !Contains("clear", "drizzle") && !Contains("clear", "snow");
  }
}
