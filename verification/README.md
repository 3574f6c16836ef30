# Weather utilities in Dafny

A model of the pure logic of a small browser weather app. It covers:

- **Condition classifiers.** `getWeatherIcon` picks an icon for a condition string such as "Clouds" or "light rain". `getBackgroundClass` picks the page's gradient CSS class. `isDaytime` is the sunrise/sunset test that feeds both.
- **Forecast grouper.** `groupForecastByDay` folds the 3-hourly forecast samples into one summary per calendar date. Each summary has the day's name, a representative icon and condition, the temperature range and the member samples.
- **Outfit recommender.** `getOutfitRecommendation` picks a base outfit from one of five temperature bands. It then applies at most one weather override: rain, snow or sun.
- **Unit conversions.** `celsiusToFahrenheit` and `msToKmh`.

## Files

| File | What it holds |
|---|---|
| `text.dfy` | Module `Text`: ASCII lower-casing and a substring test, standing in for `toLowerCase` and `includes`. |
| `classifier.dfy` | Module `Classifier`: the icon and background classifiers, `isDaytime`, and a reference form of both classifiers as ordered keyword tables. |
| `units.dfy` | Module `Units`: the two conversions. |
| `forecast.dfy` | Module `Forecast`: the grouper as a left fold and as a loop, plus a declarative description. The description is filter-by-date, first-seen order and per-day summaries. The file proves the fold meets it. |
| `outfit.dfy` | Module `Outfit`: the band table and the override chain. |

### Classifiers

Each classifier lower-cases the condition and tries keywords in a fixed order. The first keyword found decides. The functions `WeatherIcon` and `BackgroundTheme` follow the source's `if` chains.

As an independent partner, each classifier is also written as a table of rows (`IconTable`, `ThemeTable`) read top to bottom by `Lookup`. `IconFollowsTable` and `ThemeFollowsTable` prove the chain and the table agree on every input. Icons and background themes are enumerations. `Gradient` spells each theme as its CSS class. There are nine distinct classes: thunderstorm, rain and snow, plus day and night variants of clear, clouds and the default.

### Forecast grouper

A sample keeps only the fields the grouper reads:
- the timestamp `dt`, in whole seconds;
- `temp_min` and `temp_max`;
- the `main` name and `icon` code of its first weather element.

`GroupByDay` is the source's `forEach` as a left fold of `Step`. `GroupForecastByDay` is the same loop as a method, with a linear scan for the day's accumulator, and it is proved equal to the fold.

The fold is proved to meet a declarative description (`Represents`):
- there is exactly one group per date present, with no date twice;
- groups are ordered by each date's first sample;
- every group is `Summarize` of `OnDate(xs, date)`, the input's samples on that date in input order;
- the group sizes add up to the input length.

The per-day lemmas then describe the summary:
- the temperature range is the minimum of the members' minima and the maximum of their maxima;
- the icon and condition follow the noon preference, that is, the last sample in the local 11:00–13:59 window, or otherwise the first sample.

The date key is the UTC day number `dt / 86400`. The source keys by the UTC calendar date from `toISOString`, which corresponds one-to-one to that number. The hour for the noon test is local time, computed as `((dt + tzOffset) / 3600) % 24` with a fixed offset. As in the source, the date key and the hour use different clocks.

### Outfit recommender

`Recommend` lower-cases the condition, takes the band outfit and applies `Adjust`, the rain / snow / sun override chain. The band outfit is assembled field by field from `BandTop`, `BandBottom`, `BandFootwear`, `BandAccessories` and `BandAdvice`. The strings are the source's.

## Model

| member | source | states |
|---|---|---|
| Text.Lower | src/utils/weatherUtils.ts:51 | lower-casing keeps the length, maps each character through ASCII lower-casing, and leaves no upper-case letter |
| Text.LowerIdempotent | src/utils/outfitRecommender.ts:23 | lower-casing an already lower-cased condition changes nothing |
| Text.LowerAppend | src/utils/weatherUtils.ts:51 | lower-casing a concatenation is the concatenation of the lower-cased parts |
| Text.ContainsAt | src/utils/weatherUtils.ts:53 | the left-to-right scan `Contains` holds exactly when some window of the text spells the keyword, which is what `includes` means |
| Text.ContainsExtend | src/utils/weatherUtils.ts:53 | a keyword found in a text is still found after text is added before and after it |
| Classifier.WeatherIcon | src/utils/weatherUtils.ts:50-74 | `getWeatherIcon`; specified by `IconFollowsTable`, `IconKeywordOrder`, `IconDayDependence` and `IconCaseInsensitive` |
| Classifier.BackgroundTheme | src/utils/weatherUtils.ts:127-156 | the branch `getBackgroundClass` takes; specified by `ThemeFollowsTable` and `ThemeKeywordOrder` |
| Classifier.BackgroundClass | src/utils/weatherUtils.ts:127-156 | `getBackgroundClass`, the CSS string of that branch; specified by `BackgroundDayDependence` and `BackgroundCaseInsensitive` |
| Classifier.IconFollowsTable | src/utils/weatherUtils.ts:50-74 | the icon is the first matching row of the ordered keyword table, or sun/moon when none matches, for every condition and time of day |
| Classifier.IconKeywordOrder | src/utils/weatherUtils.ts:53-73 | thunderstorm beats rain/drizzle, which beat snow, and none of the three depends on day/night. After these come clear (sun/moon), clouds with few/scattered (cloud-sun or cloudy), other clouds (cloud), mist/fog/haze (cloud), and otherwise sun/moon |
| Classifier.StormWordWins | src/utils/weatherUtils.ts:53-54 | the word "thunderstorm" in any letter case, with any text around it (rain, snow or clear included), gives the storm icon and the storm background |
| Classifier.IconDayDependence | src/utils/weatherUtils.ts:53-73 | the day flag changes the icon if and only if there is no storm/rain/drizzle/snow keyword and the condition is clear, few/scattered clouds, or matches no keyword |
| Classifier.IconCaseInsensitive | src/utils/weatherUtils.ts:51 | the icon does not depend on the letter case of the condition |
| Classifier.ThemeFollowsTable | src/utils/weatherUtils.ts:127-156 | the background theme is the first matching row of its keyword table, or the neutral theme when none matches |
| Classifier.ThemeKeywordOrder | src/utils/weatherUtils.ts:130-156 | the background tries thunderstorm, rain/drizzle, snow, clear, clouds in that order. Mist, fog and haze fall through to the neutral default |
| Classifier.BackgroundDayDependence | src/utils/weatherUtils.ts:130-156 | the class string differs between day and night if and only if the condition has no thunderstorm, rain, drizzle or snow keyword |
| Classifier.BackgroundCaseInsensitive | src/utils/weatherUtils.ts:128 | the background class does not depend on the letter case of the condition |
| Classifier.ClearGradientsDiffer | src/utils/weatherUtils.ts:140-144 | the clear-sky day and night classes are different strings |
| Classifier.CloudyGradientsDiffer | src/utils/weatherUtils.ts:146-150 | the cloudy day and night classes are different strings |
| Classifier.NeutralGradientsDiffer | src/utils/weatherUtils.ts:153-155 | the default day and night classes are different strings |
| Classifier.IconAndThemeAgree | src/utils/weatherUtils.ts:50-74 | icon and background agree on storm, rain and snow (each if and only if). A clear background comes with sun/moon, and a cloudy background with a cloud icon |
| Classifier.MistExample | src/utils/weatherUtils.ts:67-70 | "Mist" shows the cloud icon but gets the neutral day background |
| Classifier.IsDaytime | src/utils/weatherUtils.ts:77-79 | `isDaytime` on real-valued timestamps: a daytime answer implies sunrise is before sunset and the instant lies strictly between them |
| Classifier.DaytimeIsOpen | src/utils/weatherUtils.ts:77-79 | sunrise and sunset themselves are night, so is every instant before sunrise or after sunset, no instant is day when sunset is not after sunrise, and every instant strictly between them is day |
| Classifier.FractionalDaytime | src/utils/weatherUtils.ts:77-79 | an instant 0.3 s after a fractional sunrise is day, although flooring all three numbers first would make it night |
| Units.CelsiusToFahrenheit | src/utils/weatherUtils.ts:16-18 | `celsiusToFahrenheit`; specified by `FahrenheitRoundTrip` and `FahrenheitScale` |
| Units.MsToKmh | src/utils/weatherUtils.ts:45-47 | `msToKmh`; specified by `KmhScale` |
| Units.FahrenheitRoundTrip | src/utils/weatherUtils.ts:16-18 | Celsius to Fahrenheit is inverted by the reference map (f - 32) * 5 / 9, in both directions |
| Units.FahrenheitScale | src/utils/weatherUtils.ts:16-18 | the conversion is strictly increasing, maps 0 to 32 and 100 to 212, and -40 is its only fixed point |
| Units.KmhScale | src/utils/weatherUtils.ts:45-47 | m/s to km/h preserves order (strictly), maps 0 to 0 and 10 to 36, and is additive |
| Forecast.DateKey | src/utils/weatherUtils.ts:96-97 | the UTC date key of a whole-second timestamp, as a day number |
| Forecast.LocalHour | src/utils/weatherUtils.ts:116 | the local hour of a timestamp under a fixed offset from UTC |
| Forecast.FractionalTimestamp | src/utils/weatherUtils.ts:96-116 | a fractional timestamp has the same date key and the same local hour as its whole-second floor |
| Forecast.FloorDiv | src/utils/weatherUtils.ts:96-97 | flooring before a division by a positive whole number gives the same floor |
| Forecast.Seed | src/utils/weatherUtils.ts:99-109 | the fresh accumulator of a date; with `Absorb`, specified by `SummarizeTemperatures` and `SummarizeCondition` |
| Forecast.Absorb | src/utils/weatherUtils.ts:111-120 | one sample folded into its day: appended, min/max updated, icon and condition taken under the noon-or-unset rule; specified by `SummarizeTemperatures`, `SummarizeCondition` and `SummarizeConditionFromMember` |
| Forecast.Step | src/utils/weatherUtils.ts:95-121 | one iteration of the `forEach`; specified by `StepAppends`, `StepUpdates` and `StepPreserves` |
| Forecast.GroupByDay | src/utils/weatherUtils.ts:92-124 | `groupForecastByDay` as a left fold; specified by `GroupByDayRepresents`, `GroupByDayPartition`, `GroupMembers`, `GroupTemperatures` and `GroupConditions` |
| Forecast.Summarize | src/utils/weatherUtils.ts:99-120 | the summary of one day's samples starts from the first sample's date and day name and holds exactly those samples |
| Forecast.StepAppends | src/utils/weatherUtils.ts:99-109 | a sample whose date has no group yet opens a new group at the end |
| Forecast.StepUpdates | src/utils/weatherUtils.ts:99-120 | a sample is absorbed into the existing group of its date |
| Forecast.StepPreserves | src/utils/weatherUtils.ts:95-121 | one iteration keeps the declarative description true of the longer input |
| Forecast.Find | src/utils/weatherUtils.ts:99 | the accumulator lookup returns the first group with the date, or nothing when no group has it |
| Forecast.GroupForecastByDay | src/utils/weatherUtils.ts:92-124 | the loop over the forecast list, with a scan for the day's accumulator, computes the left fold `GroupByDay` |
| Forecast.OnDateCount | src/utils/weatherUtils.ts:111 | the samples of a date hold each input sample on that date exactly as often as the input does, and nothing else |
| Forecast.FirstIndex | src/utils/weatherUtils.ts:99-109 | the first-appearance position of a date points at a sample on that date, with none earlier |
| Forecast.GroupByDayRepresents | src/utils/weatherUtils.ts:92-123 | for every input, the fold satisfies the declarative description: distinct dates, one group per date present, first-seen order, each group summarising exactly its date's samples, and every sample held once |
| Forecast.GroupByDayEmpty | src/utils/weatherUtils.ts:92-123 | no samples give no days |
| Forecast.GroupByDayPartition | src/utils/weatherUtils.ts:92-123 | the groups partition the input by date. Dates are pairwise distinct and are exactly the dates present. Groups come in order of each date's first sample. Each group's samples are the input's samples on its date, in input order, and are non-empty. The sizes sum to the input length |
| Forecast.GroupAt | src/utils/weatherUtils.ts:99-113 | the day at each position is the summary of the input's non-empty samples on its date |
| Forecast.DateHasGroup | src/utils/weatherUtils.ts:96-109 | every date present in the input has a day |
| Forecast.SampleHasGroup | src/utils/weatherUtils.ts:111 | every sample is a member of the day of its own date |
| Forecast.GroupMembers | src/utils/weatherUtils.ts:99-111 | a day's members are exactly the input samples with its date. Its first member is the input's first sample on that date, and the day name is printed from that sample |
| Forecast.OnDateFirst | src/utils/weatherUtils.ts:99-111 | the first sample on a date heads that date's samples |
| Forecast.SummarizeTemperatures | src/utils/weatherUtils.ts:112-113 | the running minimum is at most every member's `temp_min` and equals one of them. The running maximum is likewise the maximum of the `temp_max` values |
| Forecast.GroupTemperatures | src/utils/weatherUtils.ts:112-113 | each day's range is bounded by, and attained at, its members' `temp_min` and `temp_max` |
| Forecast.GroupRangeOrdered | src/utils/weatherUtils.ts:112-113 | when every sample has `temp_min <= temp_max`, every day has `minTemp <= maxTemp` |
| Forecast.SummarizeConditionFromMember | src/utils/weatherUtils.ts:115-120 | the icon and condition shown for a day come together from one of its members |
| Forecast.SummarizeCondition | src/utils/weatherUtils.ts:115-120 | with non-empty icon codes, a day shows the icon and condition of its last member in the local noon window, or of its first member when none is in that window |
| Forecast.GroupConditions | src/utils/weatherUtils.ts:115-120 | the noon preference holds for every day of the grouper's output |
| Outfit.Recommend | src/utils/outfitRecommender.ts:18-83 | `getOutfitRecommendation`; specified by `RainOverride`, `SnowOverride`, `SunOverride`, `NoOverride`, `AtMostOneOverride`, `DaytimeOnlyForSun` and `RecommendCaseInsensitive` |
| Outfit.Adjust | src/utils/outfitRecommender.ts:65-80 | the override chain on a base outfit; specified by `AdjustCases` and `AdjustExtends` |
| Outfit.BandOf | src/utils/outfitRecommender.ts:33-63 | the temperature band; specified by `BandIntervals` and `BandMonotone` |
| Outfit.BandOutfit | src/utils/outfitRecommender.ts:33-63 | the band's base record, with the source's strings; its accessory counts are stated by `BandAccessoryCount` |
| Outfit.BandIntervals | src/utils/outfitRecommender.ts:33-63 | each band is exactly one half-open interval: below 0, [0,10), [10,20), [20,30), and 30 or above |
| Outfit.BandMonotone | src/utils/outfitRecommender.ts:33-63 | a warmer temperature never gets a colder band |
| Outfit.BandAccessoryCount | src/utils/outfitRecommender.ts:37-61 | the band accessory lists have lengths 3, 2, 1, 0 and 1, and only the warm band has none |
| Outfit.RainOverride | src/utils/outfitRecommender.ts:66-70 | rain or drizzle, whatever else the condition says, gives the raincoat (with layers if and only if below 15), the waterproof shoes, the band trousers, the band accessories plus an umbrella, and the band advice plus the rain sentence |
| Outfit.SnowOverride | src/utils/outfitRecommender.ts:71-76 | snow without rain or drizzle gives the insulated coat, waterproof trousers and winter boots, the band accessories plus waterproof gloves, and the band advice plus the snow sentence |
| Outfit.SunOverride | src/utils/outfitRecommender.ts:77-79 | sunglasses and sunscreen are appended if and only if the condition is clear, it is day, it is above 15 degrees and neither rain nor snow applies |
| Outfit.ClothesFromBand | src/utils/outfitRecommender.ts:65-80 | without rain or snow the top, bottom and footwear are the band's |
| Outfit.NoOverride | src/utils/outfitRecommender.ts:65-80 | with no matching condition the result is the band outfit exactly |
| Outfit.AtMostOneOverride | src/utils/outfitRecommender.ts:65-80 | the accessories and advice are the band's followed by the additions of exactly one override, or by nothing |
| Outfit.AdjustCases | src/utils/outfitRecommender.ts:65-80 | the override chain has these four outcomes on any base outfit |
| Outfit.AccessoriesExtendBand | src/utils/outfitRecommender.ts:65-80 | the band accessories and advice are prefixes of the result, and the list grows by at most two |
| Outfit.AdjustExtends | src/utils/outfitRecommender.ts:65-80 | any override only appends to the accessories and the advice |
| Outfit.DaytimeOnlyForSun | src/utils/outfitRecommender.ts:77 | without "clear", or with rain, drizzle or snow, day and night give the same outfit |
| Outfit.RecommendCaseInsensitive | src/utils/outfitRecommender.ts:23 | the recommendation does not depend on the letter case of the condition |
| Outfit.ClearButCoolExamples | src/utils/outfitRecommender.ts:77 | "Clear" by day at -5 and at exactly 15 degrees gives the plain band outfit |

## Left out

- Fetching from the weather service, JSON parsing and the mock data generators are not modelled. They are network I/O, randomness and clock reads. The sample datatype keeps only the fields the grouper reads.
- The React components are not modelled. They hold UI state and rendering. The forecast view keeps only the first five days of the grouper's output; that truncation is not modelled. The app shell's inline day test repeats `isDaytime`.
- `formatToDay`, `formatToShortDay` and `formatTime` are not modelled because they depend on locale formatting. The weekday name used by the grouper is the parameter `Locale.dayName`, a function of the day's first timestamp.
- `formatTemperature` is not modelled because it depends on floating-point rounding and number-to-string conversion.
- Temperatures and speeds are exact reals. IEEE-754 rounding, NaN and infinities are not modelled.
- Forecast.Seed: the source seeds the running minimum and maximum with plus and minus infinity. The model seeds them with the day's first sample, which gives the same values once that sample is absorbed.
- Forecast.LocalHour: the local hour uses one fixed offset from UTC. Daylight-saving changes inside the forecast window are not modelled.
- Forecast.Sample: samples with no weather element, and other malformed `any`-typed entries, are not modelled.
- Forecast.GroupConditions: the noon rule is proved only for non-empty icon codes. With an empty code, the source's "no icon yet" test fires again and a later sample replaces it. The fold models that case as written, but no lemma describes it.
- Forecast.DateKey: the date key is the UTC day number, not its `YYYY-MM-DD` text. Each determines the other, so the grouping is the same.
- Forecast.Sample: timestamps are whole seconds. The source's timestamps are numbers and may have a fractional part; `Forecast.FractionalTimestamp` proves that flooring one changes neither its date key nor its local hour, so the grouping is unaffected. `isDaytime` does depend on the fraction, so `Classifier.IsDaytime` takes real timestamps.
- Forecast.DateKey: timestamps are assumed to lie within the range of a JavaScript date. Outside it, `toISOString` throws, while the model still returns a key.
- Text.Lower: only ASCII letters are lower-cased. `toLowerCase` also maps non-ASCII letters, but the modelled keywords are all ASCII.
- The icon components are replaced by the enumeration `Classifier.Icon`.
- The optional language-model phrasing of the outfit advice is not part of this model.
