/** The condition classifiers of the weather utilities: the icon shown for a
    condition, the page background chosen for it, and the day/night test the
    callers feed them. Matching lower-cases the condition and then searches
    for keywords in a fixed order; the first keyword found decides. */
module Classifier {
  import opened Text

  /** The icons the app can show (stand-ins for the icon components). */
  datatype Icon = Zap | CloudRain | CloudSnow | Sun | Moon | CloudSun | Cloudy | Cloud

  /** The background gradients, one per theme. */
  datatype Theme =
    | Storm | Rainy | Snowy
    | ClearDay | ClearNight
    | CloudyDay | CloudyNight
    | NeutralDay | NeutralNight

  /** Sun by day, moon by night: the icon of a clear or unrecognised sky. */
  function Sky(isDay: bool): Icon
  {
    if isDay then Sun else Moon
  }

  /** `getWeatherIcon`: the icon for a condition. */
  function WeatherIcon(condition: string, isDay: bool): (r: Icon)
  {
    var c := Lower(condition);
    if Contains(c, "thunderstorm") then Zap
    else if Contains(c, "drizzle") || Contains(c, "rain") then CloudRain
    else if Contains(c, "snow") then CloudSnow
    else if Contains(c, "clear") then Sky(isDay)
    else if Contains(c, "clouds") then
      if Contains(c, "few") || Contains(c, "scattered") then
        (if isDay then CloudSun else Cloudy)
      else Cloud
    else if Contains(c, "mist") || Contains(c, "fog") || Contains(c, "haze") then Cloud
    else Sky(isDay)
  }

  /** `getBackgroundClass`, before the theme is spelled as a CSS class string. */
  function BackgroundTheme(condition: string, isDay: bool): (r: Theme)
  {
    var c := Lower(condition);
    if Contains(c, "thunderstorm") then Storm
    else if Contains(c, "rain") || Contains(c, "drizzle") then Rainy
    else if Contains(c, "snow") then Snowy
    else if Contains(c, "clear") then (if isDay then ClearDay else ClearNight)
    else if Contains(c, "clouds") then (if isDay then CloudyDay else CloudyNight)
    else if isDay then NeutralDay else NeutralNight
  }

  /** The CSS class string of each theme. */
  function Gradient(t: Theme): string
  {
    match t
    case Storm => "bg-gradient-to-b from-purple-800 via-gray-800 to-gray-900"
    case Rainy => "bg-gradient-to-b from-blue-800 via-blue-700 to-slate-900"
    case Snowy => "bg-gradient-to-b from-blue-300 via-indigo-500 to-indigo-800"
    case ClearDay => "bg-gradient-to-b from-blue-700 via-blue-500 to-blue-300"
    case ClearNight => "bg-gradient-to-b from-gray-900 via-blue-900 to-blue-700"
    case CloudyDay => "bg-gradient-to-b from-gray-400 via-gray-500 to-blue-700"
    case CloudyNight => "bg-gradient-to-b from-gray-800 via-gray-700 to-blue-900"
    case NeutralDay => "bg-gradient-to-b from-gray-300 via-blue-400 to-blue-700"
    case NeutralNight => "bg-gradient-to-b from-gray-900 via-gray-800 to-blue-900"
  }

  /** `getBackgroundClass`: the CSS class for a condition. */
  function BackgroundClass(condition: string, isDay: bool): string
  {
    Gradient(BackgroundTheme(condition, isDay))
  }

  /** `isDaytime`: strictly after sunrise and strictly before sunset. The
      timestamps are the source's numbers, which may have a fractional part. */
  function IsDaytime(dt: real, sunrise: real, sunset: real): (r: bool)
    ensures r ==> sunrise < sunset
    ensures r ==> sunrise < dt < sunset
  {
    dt > sunrise && dt < sunset
  }

  // ---------------------------------------------------------------------
  // Reference: the classifiers as ordered keyword tables.

  /** What a table row yields: one answer, or one by day and another by night. */
  datatype Answer<T> = Always(value: T) | ByDay(day: T, night: T)

  function Pick<T>(a: Answer<T>, isDay: bool): T
  {
    match a
    case Always(v) => v
    case ByDay(d, n) => if isDay then d else n
  }

  /** A row of a keyword table: it matches when every group has at least one
      of its keywords in the text. */
  datatype Rule<T> = Rule(groups: seq<seq<string>>, answer: Answer<T>)

  predicate AnyIn(s: string, keywords: seq<string>)
  {
    exists k :: k in keywords && Contains(s, k)
  }

  predicate Matches<T>(s: string, rule: Rule<T>)
  {
    forall g :: g in rule.groups ==> AnyIn(s, g)
  }

  /** Table lookup from row `i` down: the first matching row wins, and the
      fallback answers when no row matches. */
  function Lookup<T>(rules: seq<Rule<T>>, i: nat, s: string, isDay: bool, fallback: Answer<T>): T
    decreases |rules| - i
  {
    if i >= |rules| then Pick(fallback, isDay)
    else if Matches(s, rules[i]) then Pick(rules[i].answer, isDay)
    else Lookup(rules, i + 1, s, isDay, fallback)
  }

  const IconTable: seq<Rule<Icon>> :=
    [ Rule([["thunderstorm"]], Always(Zap)),
      Rule([["drizzle", "rain"]], Always(CloudRain)),
      Rule([["snow"]], Always(CloudSnow)),
      Rule([["clear"]], ByDay(Sun, Moon)),
      Rule([["clouds"], ["few", "scattered"]], ByDay(CloudSun, Cloudy)),
      Rule([["clouds"]], Always(Cloud)),
      Rule([["mist", "fog", "haze"]], Always(Cloud)) ]

  const ThemeTable: seq<Rule<Theme>> :=
    [ Rule([["thunderstorm"]], Always(Storm)),
      Rule([["rain", "drizzle"]], Always(Rainy)),
      Rule([["snow"]], Always(Snowy)),
      Rule([["clear"]], ByDay(ClearDay, ClearNight)),
      Rule([["clouds"]], ByDay(CloudyDay, CloudyNight)) ]

  // ---------------------------------------------------------------------
  // Properties.

  /** Clear, cloudy and neutral skies are painted differently by day and by night. */
  lemma ClearGradientsDiffer()
    ensures Gradient(ClearDay) != Gradient(ClearNight)
  {
    assert Gradient(ClearDay)[22] == 'b';
  }

  lemma CloudyGradientsDiffer()
    ensures Gradient(CloudyDay) != Gradient(CloudyNight)
  {
    assert Gradient(CloudyDay)[27] == '4';
  }

  lemma NeutralGradientsDiffer()
    ensures Gradient(NeutralDay) != Gradient(NeutralNight)
  {
    assert Gradient(NeutralDay)[27] == '3';
  }

  lemma AnyInOne(s: string, a: string)
    ensures AnyIn(s, [a]) <==> Contains(s, a)
  {
    assert a in [a];
  }

  lemma AnyInTwo(s: string, a: string, b: string)
    ensures AnyIn(s, [a, b]) <==> Contains(s, a) || Contains(s, b)
  {
    assert a in [a, b] && b in [a, b];
  }

  lemma AnyInThree(s: string, a: string, b: string, c: string)
    ensures AnyIn(s, [a, b, c]) <==> Contains(s, a) || Contains(s, b) || Contains(s, c)
  {
    assert a in [a, b, c] && b in [a, b, c] && c in [a, b, c];
  }

  /** A row with a single keyword group matches when one of its keywords is present. */
  lemma MatchesOneGroup<T>(s: string, rule: Rule<T>)
    requires |rule.groups| == 1
    ensures Matches(s, rule) <==> AnyIn(s, rule.groups[0])
  {
    assert rule.groups[0] in rule.groups;
  }

  /** `getWeatherIcon` is the icon keyword table read top to bottom, with
      sun or moon when no row matches. */
  lemma IconFollowsTable(condition: string, isDay: bool)
    ensures WeatherIcon(condition, isDay) == Lookup(IconTable, 0, Lower(condition), isDay, ByDay(Sun, Moon))
  {
    var c := Lower(condition);
    var t := IconTable;
    MatchesOneGroup(c, t[0]); AnyInOne(c, "thunderstorm");
    MatchesOneGroup(c, t[1]); AnyInTwo(c, "drizzle", "rain");
    MatchesOneGroup(c, t[2]); AnyInOne(c, "snow");
    MatchesOneGroup(c, t[3]); AnyInOne(c, "clear");
    assert t[4].groups == [["clouds"], ["few", "scattered"]];
    AnyInOne(c, "clouds"); AnyInTwo(c, "few", "scattered");
    assert Matches(c, t[4]) <==> AnyIn(c, ["clouds"]) && AnyIn(c, ["few", "scattered"]);
    MatchesOneGroup(c, t[5]);
    MatchesOneGroup(c, t[6]); AnyInThree(c, "mist", "fog", "haze");
  }

  /** `getBackgroundClass` is the theme keyword table read top to bottom,
      with the neutral theme when no row matches. */
  lemma ThemeFollowsTable(condition: string, isDay: bool)
    ensures BackgroundTheme(condition, isDay)
         == Lookup(ThemeTable, 0, Lower(condition), isDay, ByDay(NeutralDay, NeutralNight))
  {
    var c := Lower(condition);
    var t := ThemeTable;
    MatchesOneGroup(c, t[0]); AnyInOne(c, "thunderstorm");
    MatchesOneGroup(c, t[1]); AnyInTwo(c, "rain", "drizzle");
    MatchesOneGroup(c, t[2]); AnyInOne(c, "snow");
    MatchesOneGroup(c, t[3]); AnyInOne(c, "clear");
    MatchesOneGroup(c, t[4]); AnyInOne(c, "clouds");
  }

  /** The icon keywords are tried in a fixed order, and the first one found
      decides: a thunderstorm beats rain, snow and clear sky, rain or drizzle
      beats snow, and none of these three depends on the time of day. */
  lemma IconKeywordOrder(condition: string, isDay: bool)
    ensures var c := Lower(condition);
      && (Contains(c, "thunderstorm") ==> WeatherIcon(condition, isDay) == Zap)
      && (!Contains(c, "thunderstorm") && (Contains(c, "rain") || Contains(c, "drizzle"))
          ==> WeatherIcon(condition, isDay) == CloudRain)
      && (!Contains(c, "thunderstorm") && !Contains(c, "rain") && !Contains(c, "drizzle") && Contains(c, "snow")
          ==> WeatherIcon(condition, isDay) == CloudSnow)
    ensures var c := Lower(condition);
      var wet := Contains(c, "thunderstorm") || Contains(c, "rain") || Contains(c, "drizzle") || Contains(c, "snow");
      && (!wet && Contains(c, "clear") ==> WeatherIcon(condition, isDay) == Sky(isDay))
      && (!wet && !Contains(c, "clear") && Contains(c, "clouds") && (Contains(c, "few") || Contains(c, "scattered"))
          ==> WeatherIcon(condition, isDay) == (if isDay then CloudSun else Cloudy))
      && (!wet && !Contains(c, "clear") && Contains(c, "clouds") && !Contains(c, "few") && !Contains(c, "scattered")
          ==> WeatherIcon(condition, isDay) == Cloud)
      && (!wet && !Contains(c, "clear") && !Contains(c, "clouds")
          && (Contains(c, "mist") || Contains(c, "fog") || Contains(c, "haze"))
          ==> WeatherIcon(condition, isDay) == Cloud)
      && (!wet && !Contains(c, "clear") && !Contains(c, "clouds")
          && !Contains(c, "mist") && !Contains(c, "fog") && !Contains(c, "haze")
          ==> WeatherIcon(condition, isDay) == Sky(isDay))
  {
  }

  /** The word "thunderstorm", in any letter case and with any text around
      it (rain, snow or clear sky included), makes both classifiers report a
      storm. */
  lemma StormWordWins(before: string, word: string, after: string, isDay: bool)
    requires Lower(word) == "thunderstorm"
    ensures WeatherIcon(before + word + after, isDay) == Zap
    ensures BackgroundTheme(before + word + after, isDay) == Storm
  {
    LowerAppend(before + word, after);
    LowerAppend(before, word);
    assert Contains("thunderstorm", "thunderstorm");
    ContainsExtend("thunderstorm", "thunderstorm", Lower(before), Lower(after));
  }

  /** The day flag changes the icon exactly for clear skies, for few or
      scattered clouds, and for conditions no keyword recognises. */
  lemma IconDayDependence(condition: string)
    ensures var c := Lower(condition);
      WeatherIcon(condition, true) != WeatherIcon(condition, false)
      <==>
      && !Contains(c, "thunderstorm") && !Contains(c, "rain") && !Contains(c, "drizzle") && !Contains(c, "snow")
      && (|| Contains(c, "clear")
          || (Contains(c, "clouds") && (Contains(c, "few") || Contains(c, "scattered")))
          || (!Contains(c, "clouds") && !Contains(c, "mist") && !Contains(c, "fog") && !Contains(c, "haze")))
  {
  }

  /** Matching ignores letter case. */
  lemma IconCaseInsensitive(condition: string, isDay: bool)
    ensures WeatherIcon(Lower(condition), isDay) == WeatherIcon(condition, isDay)
  {
    LowerIdempotent(condition);
  }

  /** The background keywords follow the same order as the icon keywords;
      mist, fog and haze have no row of their own and fall to the default. */
  lemma ThemeKeywordOrder(condition: string, isDay: bool)
    ensures var c := Lower(condition);
      && (Contains(c, "thunderstorm") ==> BackgroundTheme(condition, isDay) == Storm)
      && (!Contains(c, "thunderstorm") && (Contains(c, "rain") || Contains(c, "drizzle"))
          ==> BackgroundTheme(condition, isDay) == Rainy)
      && (!Contains(c, "thunderstorm") && !Contains(c, "rain") && !Contains(c, "drizzle") && Contains(c, "snow")
          ==> BackgroundTheme(condition, isDay) == Snowy)
    ensures var c := Lower(condition);
      var wet := Contains(c, "thunderstorm") || Contains(c, "rain") || Contains(c, "drizzle") || Contains(c, "snow");
      && (!wet && Contains(c, "clear") ==> BackgroundTheme(condition, isDay) == (if isDay then ClearDay else ClearNight))
      && (!wet && !Contains(c, "clear") && Contains(c, "clouds")
          ==> BackgroundTheme(condition, isDay) == (if isDay then CloudyDay else CloudyNight))
      && (!wet && !Contains(c, "clear") && !Contains(c, "clouds")
          ==> BackgroundTheme(condition, isDay) == (if isDay then NeutralDay else NeutralNight))
  {
  }

  /** The background class differs between day and night exactly when the
      condition is not a thunderstorm, rain, drizzle or snow. */
  lemma BackgroundDayDependence(condition: string)
    ensures var c := Lower(condition);
      BackgroundClass(condition, true) != BackgroundClass(condition, false)
      <==>
      !Contains(c, "thunderstorm") && !Contains(c, "rain") && !Contains(c, "drizzle") && !Contains(c, "snow")
  {
    ClearGradientsDiffer();
    CloudyGradientsDiffer();
    NeutralGradientsDiffer();
  }

  /** Matching ignores letter case. */
  lemma BackgroundCaseInsensitive(condition: string, isDay: bool)
    ensures BackgroundClass(Lower(condition), isDay) == BackgroundClass(condition, isDay)
  {
    LowerIdempotent(condition);
  }

  /** The two classifiers agree on storms, rain and snow, and a clear-sky
      background always comes with the sun or moon icon. */
  lemma IconAndThemeAgree(condition: string, isDay: bool)
    ensures WeatherIcon(condition, isDay) == Zap <==> BackgroundTheme(condition, isDay) == Storm
    ensures WeatherIcon(condition, isDay) == CloudRain <==> BackgroundTheme(condition, isDay) == Rainy
    ensures WeatherIcon(condition, isDay) == CloudSnow <==> BackgroundTheme(condition, isDay) == Snowy
    ensures BackgroundTheme(condition, isDay) in {ClearDay, ClearNight} ==> WeatherIcon(condition, isDay) == Sky(isDay)
    ensures BackgroundTheme(condition, isDay) in {CloudyDay, CloudyNight}
            ==> WeatherIcon(condition, isDay) in {CloudSun, Cloudy, Cloud}
  {
  }

  /** Mist has an icon row but no background row. */
  lemma MistExample()
    ensures WeatherIcon("Mist", true) == Cloud
    ensures BackgroundTheme("Mist", true) == NeutralDay
  {
  }

  /** Day lasts strictly between sunrise and sunset: both instants are night,
      so is every instant before sunrise or after sunset, and there is no day
      at all when sunset does not come after sunrise. */
  lemma DaytimeIsOpen(dt: real, sunrise: real, sunset: real)
    ensures !IsDaytime(sunrise, sunrise, sunset)
    ensures !IsDaytime(sunset, sunrise, sunset)
    ensures dt <= sunrise || sunset <= dt ==> !IsDaytime(dt, sunrise, sunset)
    ensures sunset <= sunrise ==> !IsDaytime(dt, sunrise, sunset)
    ensures sunrise < dt < sunset ==> IsDaytime(dt, sunrise, sunset)
  {
  }

  /** A fractional timestamp just after a fractional sunrise is day; flooring
      the three numbers first would make it night. */
  lemma FractionalDaytime()
    ensures IsDaytime(100.5, 100.2, 200.0)
    ensures !IsDaytime(100.5.Floor as real, 100.2.Floor as real, 200.0)
  {
  }
}
