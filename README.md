# ezoteric_bot rule core in Dafny

A model of the rule code beneath an astrology, numerology and tarot Telegram
bot, with proofs of what that code promises. The chat handlers are not part of
it. Every module models one source file of the bot:

| module | source file | what it covers |
|---|---|---|
| Wrappers, Strings, Slices, Dicts (`common.dfy`) | — | Option/Result, text helpers (lower case, digits, split, join), Python slices, small dictionaries |
| Ephemeris | app/shared/astro/ephemeris.py | house-id normalisation, chart snapshots over an abstract ephemeris |
| Transits | app/shared/astro/transits.py | angular distance, house lookup on twelve cusps, the aspect scan with orb, weight, applying flag and ordering |
| Retrograde | app/shared/astro/retrograde.py | retrograde periods from a daily series, the window filter, the next period, the pre-alert day count |
| LunarPlanner | app/shared/astro/lunar_planner.py | phase buckets, moon sign, the bounded day cache (a class), action ranking with threshold relaxation |
| LunarRouter | app/features/lunar_planner/router.py | sign spans, display-action de-duplication, the best/good/avoid grouping |
| Forecast | app/shared/astro/forecast.py | missing-field validation, date and time parsing, top-N aspects |
| Interpretation | app/shared/astro/interpretation.py | the template fallback chain and the text assembly |
| AspectOfDay | app/shared/astro/aspect_of_day.py | the planet-pair scan with its per-date memo (a class), top-N, the message layout |
| ForecastRouter | app/features/astro_forecast/router.py | missing-field labels, previews, ISO-to-display dates, the premium flag |
| Scheduler | app/scheduler.py | notification-time parsing, the once-a-day guard, retrograde alert guards (a class), the daily text choice |
| Calendar, Formatters | app/shared/formatters.py | Russian plural of "day", ISO-to-display dates, weekday labels |
| Numerology, SharedCalculations | app/shared/calculations.py | digit-sum reduction with master numbers, life path, soul, name and daily numbers, date validation, the affirmation history |
| RootCalculations | calculations.py | the older calculators with their loops, and the values tests.py expects of them |
| AppCalculations | app/calculations.py | the application copy of the calculators and its affirmation choice |
| SharedStorage | app/shared/storage.py | the user store (a class): day reset, limits, streaks, achievements, challenges, retro-alert marks, capped histories, clean-up |
| RootStorage | storage.py | the older user store (a class) |
| AppStorage | app/storage.py | the application user store (a class), including two findings |
| AppUserStorage | app/user_storage.py | the minimal user store (a class) |
| BirthProfiles | app/shared/birth_profiles.py | birth-data validators, the upsert merge and the profile store (a class) |
| Texts | app/shared/texts.py | no-repeat text choice against the user's history |
| RateWindow, AppSecurity | app/security.py | sliding-window rate limiting (a class), input screening, HTML escaping, date format |
| Security | security.py | the older validator: regex screening, tag stripping, escaping, per-action rate limits |
| Tarot | app/shared/tarot_service.py | spread availability, the deck, distinct draws, question context, interpretations, yes/no answers |
| Admin | app/features/admin/router.py | argument parsing and the desired-state rule of the premium admin command |
| Compatibility | app/features/compatibility/router.py | the life-path score and the guards of the second-date step |

The helpers `_format_iso_to_display`, `_format_missing_fields` and
`_build_preview` of app/features/natal_chart/router.py (lines 22-26, 29-42
and 45-53) are the same code as those of app/features/astro_forecast/router.py.
They are modelled once, in ForecastRouter, and the ForecastRouter rows below
state their properties for both routers.

The outside world enters as parameters:
- the clock is an integer `now` in seconds, and dates are day numbers;
- random choices are chooser indices;
- the ephemeris library is an oracle function;
- the time-zone database is a set of known zone names or an offset function;
- JSON data files (templates, tarot data, number texts, master numbers) are immutable values.

Where the source mutates state, the model does too. The storage services, the
lunar day cache, the aspect memo, the scheduler and the rate limiter are
classes whose methods modify their `map` fields and state the whole new
state. Loops become methods with invariants, each proved equal to a
specification function. The properties are proved as lemmas about those
functions.

## Model

| member | source | states |
|---|---|---|
| Strings.ParseIntRoundTrip | app/shared/calculations.py:221 | `int()` reads the decimal text of any integer, sign included, back as that integer |
| Strings.ParseIntUnderscored | app/shared/calculations.py:221 | `int()` accepts an underscore between two digits: "0_5" reads as 5 |
| Strings.MisplacedUnderscoreRefused | app/shared/calculations.py:221 | `int()` refuses a leading underscore, a trailing underscore and two underscores in a row |
| Ephemeris.NormalizeHouseId | app/shared/astro/ephemeris.py:79-87 | an integer id is kept as is; a text id whose rest after the leading 'H'/'h' characters is not an integer becomes 0 |
| Ephemeris.NormalizeLabelledHouse | app/shared/astro/ephemeris.py:82-84 | a label made of 'H'/'h' characters followed by a decimal number reads as that number |
| Ephemeris.HouseMap | app/shared/astro/ephemeris.py:133-138 | the house map has distinct, positive keys, and every cusp with a positive id is in it |
| Ephemeris.HouseMapKeys | app/shared/astro/ephemeris.py:133-138 | every key of the house map is the positive id of some cusp |
| Ephemeris.HouseMapLastCusp | app/shared/astro/ephemeris.py:133-138 | under each id the house map holds the longitude of the last cusp with that id |
| Ephemeris.LastWins | app/shared/astro/ephemeris.py:133-138 | the dictionary filled from normalised (id, longitude) pairs has distinct, positive keys and holds every pair with a positive id |
| Ephemeris.PairLastWins | app/shared/astro/ephemeris.py:133-138 | on normalised pairs, each id maps to the longitude of its last pair |
| Ephemeris.PairKeys | app/shared/astro/ephemeris.py:133-138 | on normalised pairs, every key of the dictionary is the positive id of some pair |
| Ephemeris.ObjectMap | app/shared/astro/ephemeris.py:128-131 | the objects are keyed by exactly the requested codes, each with the library's position for it |
| Ephemeris.UtcOffsetHours | app/shared/astro/ephemeris.py:63-76 | the offset is the zone's offset, or 0 when the zone cannot be resolved |
| Ephemeris.BuildChart | app/shared/astro/ephemeris.py:111-146 | the snapshot keeps the given moment, kind and place, holds an object for exactly the configured planets, and only positive house ids |
| Ephemeris.TransitChart | app/shared/astro/ephemeris.py:148-181 | the snapshot reuses the natal location, is always of the transit kind, keeps the moment, and holds exactly the configured planets |
| Ephemeris.EphemerisAt | app/shared/astro/ephemeris.py:183-192 | the result holds exactly the requested planets, or the configured ones when none are requested |
| Transits.Mod360 | app/shared/astro/transits.py:50 | the floored remainder of a longitude by 360 lies in [0, 360) |
| Transits.Mod360OfNegation | app/shared/astro/transits.py:86 | the remainder of the negated longitude is 360 minus the remainder, or 0 when the remainder is 0 |
| Transits.Mod360WholeTurns | app/shared/astro/transits.py:64 | longitudes a whole number of turns apart have the same remainder |
| Transits.AngularDistance | app/shared/astro/transits.py:49-53 | the angular distance lies in [0, 180] |
| Transits.AngularDistanceSymmetric | app/shared/astro/transits.py:49-53 | the distance does not depend on the order of the two longitudes |
| Transits.AngularDistanceIsShorterArc | app/shared/astro/transits.py:49-53 | the distance is the shorter of the two arcs between the longitudes |
| Transits.AngularDistanceTurnInvariant | app/shared/astro/transits.py:49-53 | adding whole turns to a longitude leaves the distance unchanged |
| Transits.CalculateOrb | app/shared/astro/transits.py:56-57 | the orb is never negative and is 0 exactly when the actual angle equals the aspect angle |
| Transits.SortedHouses | app/shared/astro/transits.py:63 | the sorted houses are a permutation of the cusps |
| Transits.SortedHousesIncreasing | app/shared/astro/transits.py:63 | with distinct house ids the sorted houses increase strictly by id |
| Transits.CuspLongitudes | app/shared/astro/transits.py:64 | one longitude per cusp, each the cusp's longitude reduced into [0, 360) |
| Transits.HouseOf | app/shared/astro/transits.py:60-82 | None exactly for an empty cusp map; otherwise the id of one of the cusps |
| Transits.HousesCoverCircle | app/shared/astro/transits.py:67-81 | every longitude lies on the arc of some house |
| Transits.HouseOfIsFirstContainingArc | app/shared/astro/transits.py:60-82 | the chosen house is the first one, in id order, whose arc holds the longitude; the fallback to the last house is never needed |
| Transits.CuspOpensItsHouse | app/shared/astro/transits.py:72-81 | with increasing cusps, a longitude exactly on a cusp belongs to the house that starts there |
| Transits.DetermineHouse | app/shared/astro/transits.py:60-82 | the loop over the sorted cusps returns the house that the arc definition picks |
| Transits.ApplyingOffset | app/shared/astro/transits.py:86-91 | for an aspect angle in [0, 180] the offset lies in [-180, 180] |
| Transits.ApplyingOffsetCongruent | app/shared/astro/transits.py:86-91 | the offset equals the relative longitude minus the aspect angle, up to whole turns |
| Transits.IsApplying | app/shared/astro/transits.py:85-94 | past the exact angle an aspect applies only while the transit moves backwards, before it only while it moves forwards; a standing planet never applies |
| Transits.PlanetWeight | app/shared/astro/transits.py:18-29 | a planet weighs between 0.5 (unknown planets) and 1.0 |
| Transits.AspectBonus | app/shared/astro/transits.py:99-105 | the aspect bonus lies between 0.8 and 1.2 |
| Transits.BaseOrb | app/shared/astro/transits.py:10-16 | the base orb of a known aspect is 4, 5 or 6, and 6 for unknown names |
| Transits.BaseOrbMatchesTable | app/shared/astro/transits.py:10-16 | the base orb looked up by name is the orb of that aspect in the table |
| Transits.OrbPenalty | app/shared/astro/transits.py:106 | the orb penalty never drops below 0.1 and never exceeds 1 for a non-negative orb |
| Transits.OrbPenaltyAntitone | app/shared/astro/transits.py:106 | a wider orb never gives a larger penalty factor |
| Transits.WeightScale | app/shared/astro/transits.py:98-105 | planet weights times aspect bonus lie between 0.8 and 2.4 |
| Transits.AspectWeight | app/shared/astro/transits.py:97-107 | the weight is at least 0.08 and, for a non-negative orb, at most 2.4 |
| Transits.AspectWeightAntitone | app/shared/astro/transits.py:97-107 | a tighter orb never lowers an aspect's weight |
| Transits.ScanAspects | app/shared/astro/transits.py:131-149 | the inner loop collects exactly the aspect kinds within orb for one planet pair |
| Transits.ScanNatal | app/shared/astro/transits.py:129-149 | the middle loop collects the aspects of one transit planet with every natal object |
| Transits.FindTransitAspects | app/shared/astro/transits.py:110-151 | the result is every aspect within orb over the requested planets, sorted by weight and then orb |
| Transits.FindTransitAspectsSound | app/shared/astro/transits.py:118-149 | every reported aspect names a requested transit planet and a natal object, is within the aspect's base orb times the multiplier, is exact iff the orb is at most 0.1, and carries the weight, applying flag and houses the rules give |
| Transits.FindTransitAspectsComplete | app/shared/astro/transits.py:122-149 | every requested planet present in the transit chart, natal object and aspect kind within orb yields a reported aspect |
| Transits.FindTransitAspectsOrdered | app/shared/astro/transits.py:150 | the report is heaviest first, and among equal weights tightest orb first |
| Calendar.DaysInMonth | app/shared/formatters.py:22-28 | a month has 28 to 31 days, and 29 exactly for February of a leap year |
| Calendar.Weekday | app/shared/formatters.py:54 | the weekday index lies in 0..6, Monday first |
| Calendar.YearLength | app/shared/formatters.py:54 | a year has 366 days if leap and 365 otherwise, counted both by years and by months |
| Calendar.NextDayOrdinal | app/shared/formatters.py:54 | the day after a valid date is valid and has the next ordinal |
| Calendar.WeekdayAdvances | app/shared/formatters.py:54 | the weekday advances by one each day, Sunday wrapping to Monday |
| Calendar.MondayAnchor | app/shared/formatters.py:44-54 | 1 January 2024 falls on a Monday |
| Formatters.PluralizeDays | app/shared/formatters.py:89-103 | "день" exactly when the last digit is 1 but not in 11; "дня" exactly for last digits 2–4 outside 12–14; "дней" otherwise |
| Formatters.PluralizeDaysPeriodic | app/shared/formatters.py:99-103 | the word depends only on the last two digits |
| Formatters.ParseIsoDate | app/shared/formatters.py:24-27 | whatever parses is a valid calendar date |
| Formatters.ParseIsoDateNeedsTime | app/shared/formatters.py:24-27 | a text parses only if it is "YYYY-MM-DD" alone or followed by one separator and a time part that CPython's field reader accepts: up to three two-digit fields, each ended by one character, where ':' opens the next field, '.' (or ':' after the seconds) opens a fraction of exactly 3 or 6 digits, and the last character before the sign or the end may be any ASCII character; the fields in range; then either no text left over or a sign and an offset |
| Formatters.FractionAfterHour | app/shared/formatters.py:24-27 | "HH.fff" and "HH.ffffff" read as the hour with that fraction, and are a time part exactly when the hour is below 24 |
| Formatters.FractionAfterMinute | app/shared/formatters.py:24-27 | "HH:MM.fff" and "HH:MM.ffffff" read as hour, minute and fraction, and are a time part exactly when both fields are in range |
| Formatters.ColonBeforeFraction | app/shared/formatters.py:24-27 | "HH:MM:SS:fff" reads as "HH:MM:SS.fff" would, and is a time part exactly when the three fields are in range |
| Formatters.StrayBeforeOffset | app/shared/formatters.py:24-27 | an hour, any ASCII character other than a sign, then a sign and an offset, is a time part exactly when the hour is below 24 and the offset is accepted |
| Formatters.OffsetFraction | app/shared/formatters.py:24-27 | a fifteen-character offset "HH:MM:SS" with ':' or '.' before six digits is accepted exactly when its total is shorter than a day, whatever its fields |
| Formatters.ClockThenOffset | app/shared/formatters.py:24-27 | a clock followed by a sign is a time part exactly when the rest is an offset |
| Formatters.OffsetMinutesUnchecked | app/shared/formatters.py:24-27 | the offset's fields are not range-checked: "+00:99" is accepted |
| Formatters.OffsetOfADayRefused | app/shared/formatters.py:24-27 | an offset of 24 hours is refused, because the offset must be shorter than a day |
| Formatters.OffsetHoursAloneRefused | app/shared/formatters.py:24-27 | an offset of hours alone, such as "+05", is refused |
| Formatters.IsoDateTimeRoundTrip | app/shared/formatters.py:24-27 | a rendered date followed by any separator and "HH:MM" parses back to that date |
| Formatters.TrailingTextRefused | app/shared/formatters.py:24-27 | a date followed by text whose first two characters are not digits does not parse |
| Formatters.IsoDateRoundTrip | app/shared/formatters.py:24-28 | a rendered ISO date parses back to the same date |
| Formatters.FormatIsoToDisplay | app/shared/formatters.py:8-30 | the default for an empty input, the input itself when it does not parse, otherwise the parsed date as DD.MM.YYYY |
| Formatters.FormatIsoToDisplayOfIso | app/shared/formatters.py:8-30 | an ISO rendering of a date displays as that date's DD.MM.YYYY |
| Formatters.FormatIsoToDisplayKeepsGarbage | app/shared/formatters.py:24-30 | a date followed by text that is not a time of day is shown unchanged, not as a date |
| Formatters.ZuluTimeDisplayed | app/shared/formatters.py:24-25 | a UTC date-time written with a trailing 'Z' displays as its date, because the 'Z' becomes "+00:00" first |
| Formatters.ZuluIsoUnparsed | app/shared/formatters.py:24-27 | without that replacement a date-time ending in 'Z' does not parse |
| Formatters.FormatDateLabel | app/shared/formatters.py:33-61 | DD.MM.YYYY or DD.MM, followed by the date's weekday name in parentheses |
| Formatters.FormatDateLabelMonday | app/shared/formatters.py:33-61 | the label of 1 January 2024 without the year is "01.01 (понедельник)" |
| Retrograde.PeriodsCoverSeries | app/shared/astro/retrograde.py:202-223 | every retrograde sample lies in some period and no direct sample in any; periods are in order, closed ones have start ≤ end, and each has its pre-alert date `preAlertDays` days before its start |
| Retrograde.AtMostOnePeriod | app/shared/astro/retrograde.py:25-28 | ordered periods do not overlap: a day lies in at most one of them |
| Retrograde.FirstDayOpensPeriod | app/shared/astro/retrograde.py:207-208 | a series that starts retrograde opens a period on its first day |
| Retrograde.LastDayLeavesPeriodOpen | app/shared/astro/retrograde.py:222-223 | a series still retrograde on its last day ends with an open period |
| Retrograde.ExampleSeries | app/shared/astro/retrograde.py:210-220 | samples direct, direct, retro, retro, retro, direct give the single period from the third to the fifth day |
| Retrograde.FilterRelevant | app/shared/astro/retrograde.py:226-232 | the kept periods are exactly those that neither end before the window nor start after it |
| Retrograde.FilterKeepsAll | app/shared/astro/retrograde.py:226-232 | when every period is relevant the filter keeps the list as it is |
| Retrograde.WalkSeries | app/shared/astro/retrograde.py:206-223 | the loop over the samples builds exactly the periods of the walk's definition |
| Retrograde.FilterPeriods | app/shared/astro/retrograde.py:226-232 | the filtering loop keeps exactly the relevant periods, in order |
| Retrograde.ExtractPeriods | app/shared/astro/retrograde.py:195-234 | the result is the relevant periods of the walk, stably sorted by start |
| Retrograde.WindowKeepsEveryPeriod | app/shared/astro/retrograde.py:58-65 | over the sampled window the filter drops nothing and the sort changes nothing |
| Retrograde.ClosedPeriodEndsAfterFirstDay | app/shared/astro/retrograde.py:214-218 | a closed period never ends before the first sample |
| Retrograde.SampleDays | app/shared/astro/retrograde.py:184-193 | one sample per day from the start to the end, inclusive |
| Retrograde.Column | app/shared/astro/retrograde.py:191 | one flag per sampled day, the ephemeris's retrograde flag for that planet and day |
| Retrograde.GetPeriods | app/shared/astro/retrograde.py:58-65 | one entry per tracked planet, in order, holding the periods of its flags over [start − 30, end + 60] |
| Retrograde.UpcomingOf | app/shared/astro/retrograde.py:68-72 | the upcoming periods are exactly those starting on or after the reference day or containing it |
| Retrograde.NextPeriod | app/shared/astro/retrograde.py:67-76 | None exactly when nothing is upcoming; otherwise an upcoming period with the earliest start |
| Retrograde.EarliestFirst | app/shared/astro/retrograde.py:75-76 | the first period after the sort by start is a member with the earliest start |
| Retrograde.PreAlertDayCount | app/shared/astro/retrograde.py:79 | the day count is never negative, 0 exactly when the period has started, and otherwise reaches the start from today |
| Retrograde.PluralizeRetroDays | app/shared/astro/retrograde.py:246-252 | the service's own plural rule agrees with the shared one |
| Numerology.DigitSum | app/shared/calculations.py:163 | the digit sum of a digit string is at most 9 per digit |
| Numerology.DigitSumConcat | app/shared/calculations.py:163 | digit sums add up over concatenation |
| Numerology.DigitSumMod9 | app/shared/calculations.py:163 | a digit sum is congruent modulo 9 to the number the digits spell |
| Numerology.SumOfDigitsBound | app/shared/calculations.py:24 | the digit sum of a number never exceeds it, is smaller from 10 on, is positive for a positive number, keeps the residue modulo 9, and leaves single digits alone |
| Numerology.Reduced | app/shared/calculations.py:21-25 | the reduced value is a single digit or a stop number, never larger than the input, and positive for a positive input |
| Numerology.ReducedFixedPoint | app/shared/calculations.py:23 | single digits and stop numbers are left unchanged |
| Numerology.ReducedCongruent | app/shared/calculations.py:21-25 | reduction keeps the residue modulo 9 |
| Numerology.DigitalRoot | app/shared/calculations.py:21-25 | without stop numbers, reduction of a positive number is its digital root 1 + (n − 1) mod 9 |
| Numerology.ReduceNumber | app/shared/calculations.py:21-25 | the loop returns the reduced value |
| Numerology.ParseDMY | app/shared/calculations.py:162 | a text that does not split into three dot-separated fields fails; a success holds the integers of the three fields |
| Numerology.ParseDisplayDMY | app/shared/calculations.py:162 | a date written DD.MM.YYYY parses back to its day, month and year |
| Numerology.DateDigits | app/shared/calculations.py:163 | the zero-padded date spells only digits, at least five, and fails exactly when a component is negative |
| Numerology.DateDigitSum | app/shared/calculations.py:163 | the date's digits sum to the digit sums of the padded day, the padded month and the year |
| Numerology.DateDigitSumMod9 | app/shared/calculations.py:163 | the date's digit sum is congruent to day + month + year modulo 9 |
| Numerology.ValidateDateIsCalendar | app/shared/calculations.py:218-239 | the validator accepts exactly the real calendar dates of the years 1900 to 2100 |
| SharedCalculations.LifePathNumber | app/shared/calculations.py:159-166 | the life path is 0 for an unusable text and otherwise a single digit or a master number |
| SharedCalculations.LifePathCongruent | app/shared/calculations.py:159-166 | the life path is congruent to day + month + year modulo 9, master numbers included |
| SharedCalculations.LifePathOfValidDate | app/shared/calculations.py:159-166 | a date the validator accepts has a life path of at least 1 |
| SharedCalculations.SoulNumber | app/shared/calculations.py:169-175 | the soul number is the reduced day: a single digit or master number, at most the day, 0 for unusable text, at least 1 for a valid date |
| SharedCalculations.DailyNumber | app/shared/calculations.py:205-215 | the life-path rule applied to the given date, or to today when none is given: 0 for an unreadable date, otherwise a digit from 0 to 9 or a master number |
| SharedCalculations.UnmappedNameSumsToZero | app/shared/calculations.py:183-186 | a name without any valued letter sums to 0 |
| SharedCalculations.MappedNameSumsPositive | app/shared/calculations.py:183-186 | with positive letter values, a name holding a valued letter has a positive sum |
| SharedCalculations.NameNumber | app/shared/calculations.py:178-191 | 0 for an empty name or a zero sum, otherwise the reduced letter sum, which is a single digit or a master number |
| SharedCalculations.KeepNormalized | app/shared/calculations.py:42-58 | every kept entry is the normalised form of some item, there are at most as many entries as items, and nothing is dropped when every item normalises |
| SharedCalculations.KeepNormalizedInOrder | app/shared/calculations.py:42-58 | the kept entries keep the items' order: the k-th entry is the normalised item at the k-th position whose item normalises, those positions strictly increase, and a position is listed exactly when its item normalises, so the last entry, which `get_affirmation` reads as the latest, comes from the last such item |
| SharedCalculations.NormalizeHistory | app/shared/calculations.py:40-59 | at most ten entries, drawn from the last ten raw items; a history that is not a list reads as empty |
| SharedCalculations.AsRaw | app/shared/calculations.py:92 | storing a normalised history keeps every entry, each as a record with a text |
| SharedCalculations.NormalizeIdempotent | app/shared/calculations.py:89-93 | a normalised history of at most ten entries, stored back, normalises to itself |
| SharedCalculations.Unseen | app/shared/calculations.py:115 | the candidates are exactly the affirmations not among the recent texts |
| SharedCalculations.CountOnDate | app/shared/calculations.py:95 | the count of today's entries is at most the history length, and 0 exactly when no entry is dated today |
| SharedCalculations.Fallback | app/shared/calculations.py:139-156 | a failure answers number 0 with one of the default texts, no date, an empty history and no forced refresh |
| SharedCalculations.UserAffirmation | app/shared/calculations.py:82-137 | at most ten entries are stored; a forced refresh needs premium; without one, today's entry is served again and nothing changes; a failure keeps the normalised history and answers a default |
| SharedCalculations.NewTextIsLatest | app/shared/calculations.py:112-137 | a premium forced refresh draws a new text, and the stored history ends with it, dated today |
| SharedCalculations.AnonymousAffirmation | app/shared/calculations.py:66-80 | without a user the answer is a text of the drawn number with an empty history, or a default text with number 0 when the table is empty |
| RootCalculations.LifePathNumber | calculations.py:9-31 | the loop computes the shared life-path rule with master numbers 11, 22 and 33, so the result is 0–9, 11, 22 or 33 |
| RootCalculations.SoulNumber | calculations.py:34-57 | the loop reduces the day with no master numbers: at most 9, and 1 to 9 for a valid date |
| RootCalculations.DailyNumber | calculations.py:60-83 | the loop reduces the date digits with no master numbers, giving 0 to 9, for today when no date is given |
| RootCalculations.DailyNumberOfValidDate | calculations.py:60-83 | a valid date has a daily number from 1 to 9 |
| RootCalculations.LifePathExample1990 | calculations.py:9-31 | 15.05.1990 has life path 3 |
| RootCalculations.LifePathExample2000 | calculations.py:9-31 | 01.01.2000 has life path 4 |
| RootCalculations.LifePathExample1999 | calculations.py:9-31 | 31.12.1999 has life path 8 |
| RootCalculations.SoulExample1990 | calculations.py:34-57 | 15.05.1990 has soul number 6 |
| RootCalculations.SoulExample2000 | calculations.py:34-57 | 01.01.2000 has soul number 1 |
| RootCalculations.ValidDateExample1990 | calculations.py:86-126 | 15.05.1990 is accepted |
| RootCalculations.ValidDateExample2000 | calculations.py:86-126 | 01.01.2000 is accepted |
| RootCalculations.InvalidDayExample | calculations.py:108-109 | day 32 is refused |
| RootCalculations.InvalidMonthExample | calculations.py:104-105 | month 13 is refused |
| RootCalculations.InvalidYearExample | calculations.py:100-101 | the year 1800 is refused |
| RootCalculations.InvalidTextExample | calculations.py:96-97 | text that is not a date is refused |
| AppCalculations.LifePathKeepsMasters | app/calculations.py:58-80 | the life path keeps 11, 22 and 33 and otherwise ends on a single digit; unusable text gives 0 and a valid date at least 1 |
| AppCalculations.SoulAndDailyFullyReduced | app/calculations.py:83-132 | for a valid date the soul number is the day's digital root and the daily number lies in 1..9, congruent to day + month + year modulo 9 |
| AppCalculations.ValidateDateGregorian | app/calculations.py:135-175 | the validator accepts exactly the Gregorian dates of the years 1900 to 2100 |
| AppCalculations.RecentTexts | app/calculations.py:36 | None exactly when one of the last ten entries has no text; otherwise every one of their texts is in the set |
| AppCalculations.AppAffirmation | app/calculations.py:21-55 | a text of the drawn number, or number 0 with a default text; without a user the drawn number is kept; with a user, a text outside the last ten is chosen whenever one is left |
| LunarPlanner.PhaseFromAngle | app/shared/astro/lunar_planner.py:190-206 | new moon exactly below 20° or from 340°, full moon exactly in [160°, 200°), and a later phase for any other angle |
| LunarPlanner.PhaseCountsBoundaries | app/shared/astro/lunar_planner.py:190-206 | the phase is the number of boundaries the angle has passed, counted round the cycle: every angle lands in exactly one phase, in cycle order |
| LunarPlanner.PhaseMonotone | app/shared/astro/lunar_planner.py:194-206 | between the new-moon boundaries a larger angle never gives an earlier phase |
| LunarPlanner.ClampPercent | app/shared/astro/lunar_planner.py:164 | the illumination is clamped into [0, 100] and left alone inside it |
| LunarPlanner.SignIndex | app/shared/astro/lunar_planner.py:153 | the Moon's sign index lies in 0..11 |
| LunarPlanner.SignIndexTurnInvariant | app/shared/astro/lunar_planner.py:153 | whole turns of the Moon do not change its sign |
| LunarPlanner.SignIndexOfSector | app/shared/astro/lunar_planner.py:153 | a longitude in [30i, 30i + 30) is in sign i |
| LunarPlanner.FreshDay | app/shared/astro/lunar_planner.py:137-167 | a computed day keeps its date, has its elongation in [0, 360), the phase of that elongation, a sign 0..11, an illumination 0..100, and the Moon's natal house only when a natal chart is given |
| LunarPlanner.Enriched | app/shared/astro/lunar_planner.py:122-136 | a cache hit keeps the stored sky; it is returned as is unless a natal chart is given and the stored day lacks a house, and then only a non-zero house is added |
| LunarPlanner.PrunedKeys | app/shared/astro/lunar_planner.py:59-64 | pruning keeps every key while there are at most the cache size, and never invents a key |
| LunarPlanner.PruneBound | app/shared/astro/lunar_planner.py:59-64 | with a positive cache size at most that many keys remain |
| LunarPlanner.PruneKeepsLatest | app/shared/astro/lunar_planner.py:61-63 | a dropped key is never later than a kept one |
| LunarPlanner.PrunedKeysDistinct | app/shared/astro/lunar_planner.py:61-64 | pruning distinct keys leaves distinct keys |
| LunarPlanner.LunarPlannerService.constructor | app/shared/astro/lunar_planner.py:54-57 | the service starts with an empty cache and the given size |
| LunarPlanner.LunarPlannerService.Prune | app/shared/astro/lunar_planner.py:59-64 | the cache is rebuilt from the kept keys with their old days |
| LunarPlanner.LunarPlannerService.ComputeDay | app/shared/astro/lunar_planner.py:120-170 | a cached day is returned (enriched when needed) and the cache is untouched; otherwise the fresh day is stored last and the cache pruned; either way the sky is the fresh computation's |
| LunarPlanner.LunarPlannerService.StoreDay | app/shared/astro/lunar_planner.py:168-169 | storing a day under a new key keeps the cache consistent; the key list becomes the pruned old list with the new key last, and every day left in the cache is the new one or the old one under its key |
| LunarPlanner.LunarPlannerService.ComputeKeepsBound | app/shared/astro/lunar_planner.py:168-169 | with a positive size the cache never holds more than the size after a new day is stored |
| LunarPlanner.LunarPlannerService.BuildWindow | app/shared/astro/lunar_planner.py:66-72 | one day per step from the start, as many as asked (none for a negative count); each day is either computed afresh with the natal house from the given chart, or the hit on the entry cached for it before the call, enriched as `_compute_day` does; afterwards every cache entry is an untouched earlier entry or one keyed by a date of the window in its time zone |
| LunarPlanner.LunarPlannerService.WindowStep | app/shared/astro/lunar_planner.py:69-71 | one `_compute_day` call of the window loop keeps the cache made of original entries and window days, and answers with a fresh day or a hit on an original entry |
| LunarPlanner.WindowDaySky | app/shared/astro/lunar_planner.py:66-72 | every day the window can answer carries its own date and the sky of a fresh computation, given a cache whose entries did |
| LunarPlanner.WindowCacheStep | app/shared/astro/lunar_planner.py:69-70 | one `_compute_day` call, on the cache alone: entries stay original or window days, and a hit on the day asked for is a hit on an original entry |
| LunarPlanner.AdviceFor | app/shared/astro/lunar_planner.py:85-91 | the action's advice for the phase, or a neutral advice quoting the action's summary |
| LunarPlanner.Candidates | app/shared/astro/lunar_planner.py:81-92 | exactly the actions open to the user, each with its advice for the phase |
| LunarPlanner.AtLeast | app/shared/astro/lunar_planner.py:103-105 | exactly the items scoring at least the threshold, keeping their order |
| LunarPlanner.Ranked | app/shared/astro/lunar_planner.py:94-101 | the candidates, all of them, ranked best first |
| LunarPlanner.Preferred | app/shared/astro/lunar_planner.py:103-107 | only items scoring at least 2 when one does, else at least 1 when one does; ranked order is kept; something remains when the limit is positive |
| LunarPlanner.SelectedActions | app/shared/astro/lunar_planner.py:74-109 | never more than the limit |
| LunarPlanner.SelectedEligible | app/shared/astro/lunar_planner.py:82-92 | premium-only actions are never offered to other users, and each carries its advice for the phase |
| LunarPlanner.SelectedOrdered | app/shared/astro/lunar_planner.py:94-109 | the selection is ranked best first |
| LunarPlanner.SelectedThresholds | app/shared/astro/lunar_planner.py:103-107 | if some open action scores 2 only such actions are offered, and if some scores 1 only actions scoring at least 1 |
| LunarPlanner.SelectedNonEmpty | app/shared/astro/lunar_planner.py:103-109 | with a positive limit something is offered whenever some action is open to the user |
| LunarPlanner.Tier | app/shared/astro/lunar_planner.py:103-107 | the tier is exactly the candidates scoring at least 2 if any, else exactly those scoring at least 1 if any, else all candidates, still ranked |
| LunarPlanner.SelectedBestOfTier | app/shared/astro/lunar_planner.py:94-109 | with a limit that is not negative, the selection is the first `limit` of the ranked tier, so no action of the tier left out outranks one offered |
| LunarPlanner.SelectActions | app/shared/astro/lunar_planner.py:74-109 | the loop builds the selection the definition describes |
| LunarPlanner.ActionAdvice | app/shared/astro/lunar_planner.py:111-118 | advice exists exactly when the slug is indexed and its action has advice for the phase |
| LunarPlanner.SelectedAdviceMatchesIndex | app/shared/astro/lunar_planner.py:85-118 | a selected suggestion's advice is the indexed one, or the summary when the phase has none |
| LunarRouter.SignSpan | app/features/lunar_planner/router.py:299-306 | the span counts the day and the following days in the same sign, stopping at the first change or the end |
| LunarRouter.SignDuration | app/features/lunar_planner/router.py:309-312 | "только сегодня" exactly for a span of at most one day, otherwise a phrase naming the span |
| LunarRouter.Fill | app/features/lunar_planner/router.py:277-294 | a scan only appends items from its input, keeps slugs unique, stops at the limit, and when it does not stop has seen every slug |
| LunarRouter.Acts | app/features/lunar_planner/router.py:277-278 | the actions of the suggestions, one each, in order |
| LunarRouter.SuggestedEligible | app/features/lunar_planner/router.py:271-282 | every action the daily scan takes is in the catalog and open to the user |
| LunarRouter.OpenMembers | app/features/lunar_planner/router.py:286-288 | the open catalog holds exactly the actions the user may open |
| LunarRouter.DisplayUniqueSlugs | app/features/lunar_planner/router.py:263-296 | no slug is listed twice |
| LunarRouter.DisplayBound | app/features/lunar_planner/router.py:283-294 | at most the limit; a limit below one still lets one action through |
| LunarRouter.DisplaySuggestionsFirst | app/features/lunar_planner/router.py:271-294 | the list starts with the daily picks, each suggested for some day; everything after comes from the open catalog |
| LunarRouter.DisplayEligible | app/features/lunar_planner/router.py:263-296 | every listed action is open to the user |
| LunarRouter.DisplayComplete | app/features/lunar_planner/router.py:286-296 | a list shorter than the limit names every open action |
| LunarRouter.ScanDay | app/features/lunar_planner/router.py:277-284 | the loop over one day's suggestions is the scan step on their actions, and its seen set is the slugs taken |
| LunarRouter.ScanCatalog | app/features/lunar_planner/router.py:286-294 | the catalog loop is the scan over the open catalog |
| LunarRouter.CollectDisplayActions | app/features/lunar_planner/router.py:263-296 | the two loops with early exits compute the display list of the definition |
| LunarRouter.GroupOf | app/features/lunar_planner/router.py:227-232 | best exactly for scores from 3, good for 2, avoid for 0, no group for 1 or below 0 |
| LunarRouter.DaysIn | app/features/lunar_planner/router.py:223-232 | a group holds only window days whose phase has advice landing in that group, with that advice |
| LunarRouter.DaysInComplete | app/features/lunar_planner/router.py:223-232 | every day whose advice lands in a group appears in that group |
| LunarRouter.Section | app/features/lunar_planner/router.py:236-244 | a non-empty group gives its title followed by one line per day; an empty group gives nothing |
| LunarRouter.DetailLinesEmpty | app/features/lunar_planner/router.py:234-249 | the text opens with the header; the empty notice appears exactly when no day lands in any group, and then it is the only other line |
| LunarRouter.ActionDetailGroups | app/features/lunar_planner/router.py:219-232 | the single loop builds the three groups of the definition |
| LunarRouter.UngroupedDays | app/features/lunar_planner/router.py:224-232 | days scoring 1 and days without advice are in no group |
| Forecast.OrElse | app/shared/astro/forecast.py:73-74 | a truthy stored value is used, otherwise the default |
| Forecast.MissingFields | app/shared/astro/forecast.py:71-85 | each of birth date, time zone, latitude and longitude is reported exactly when it is absent (an empty birth date counts as absent, an empty time zone does not); nothing is missing exactly when all four are present |
| Forecast.ParseTime | app/shared/astro/forecast.py:158-171 | the time is always a valid hour and minute: the first two fields clamped, a lone hour on the hour, and noon when a field is not an int |
| Forecast.ParseTimeRoundTrip | app/shared/astro/forecast.py:158-171 | "H:M" with the hour and minute in range reads back as that hour and minute |
| Forecast.ParseTimeHourOnly | app/shared/astro/forecast.py:163-164 | a lone hour reads as that hour, clamped, on the hour |
| Forecast.ParseTimeFallback | app/shared/astro/forecast.py:167-168 | text whose first field is not an int gives noon |
| Forecast.ParseBirthDate | app/shared/astro/forecast.py:148-152 | whatever reads as a birth date is a valid calendar date |
| Forecast.ParseDateTime | app/shared/astro/forecast.py:145-155 | fails exactly when the date fails; otherwise the birth date at the time of day the time text gives |
| Forecast.ParseBirthDateOfIso | app/shared/astro/forecast.py:151-152 | a rendered ISO date reads back as that date |
| Forecast.ParseBirthDateWithTime | app/shared/astro/forecast.py:148-149 | a date stored with "THH:MM" reads back as that date |
| Forecast.ParseBirthDateRefusesTrailingText | app/shared/astro/forecast.py:148-149 | a text with a 'T' whose part after the date is not a time of day is not a birth date |
| Forecast.Generate | app/shared/astro/forecast.py:64-141 | keeps the user and the target date (today when none); an incomplete profile names exactly its missing fields; an unreadable birth date names "birth_date"; a result naming missing fields has no charts and no aspects |
| Forecast.GenerateOk | app/shared/astro/forecast.py:108-141 | a complete, readable profile gives the natal chart at the birth moment and the transit chart at noon of the target day at the natal location, in the stored time zone or UTC |
| Forecast.GenerateOkIff | app/shared/astro/forecast.py:35-36 | the forecast is ok exactly for a complete profile whose birth date reads |
| Forecast.TopAspects | app/shared/astro/forecast.py:131-132 | a prefix of the report, at most the configured count, and everything when the count is 0 |
| Forecast.TopAspectsOrdered | app/shared/astro/forecast.py:131-132 | cutting the ordered report keeps it ordered |
| Forecast.GenerateAspects | app/shared/astro/forecast.py:125-132 | the aspects are the ordered scan of the two charts cut to the configured count |
| Forecast.EmptyTimezoneNotMissing | app/shared/astro/forecast.py:74-81 | an empty stored time zone is not reported missing and the charts use UTC |
| Forecast.GenerateForUser | app/shared/astro/forecast.py:51-62 | a user without a profile gets the single missing field "profile" and no aspects; otherwise the forecast of the profile |
| Interpretation.TransitInterpreter.constructor | app/shared/astro/interpretation.py:40-42 | nothing is loaded yet |
| Interpretation.TransitInterpreter.Data | app/shared/astro/interpretation.py:44-49 | the templates are read once and then served from memory |
| Interpretation.ExactTemplates | app/shared/astro/interpretation.py:105-108 | templates are found only under the transit planet, the aspect and the natal planet |
| Interpretation.ChooseTemplate | app/shared/astro/interpretation.py:103-115 | a template for the exact triple when there is one, else one of the aspect's defaults, and none exactly when both are missing |
| Interpretation.NameOr | app/shared/astro/interpretation.py:119-121 | the Russian name when known, the id itself otherwise |
| Interpretation.BuildContext | app/shared/astro/interpretation.py:117-123 | the context names both planets and the aspect the way the name tables give them, with the aspect's orb |
| Interpretation.HouseNote | app/shared/astro/interpretation.py:94-101 | no note for no house or house 0; a note only for a house with texts, then the prefix and one of them; a house with texts always gets one |
| Interpretation.RetrogradeNote | app/shared/astro/interpretation.py:125-133 | a note exactly for a retrograde transit planet: its own note when non-empty, else the generic one, filled with the context |
| Interpretation.TextParts | app/shared/astro/interpretation.py:27-36 | title, text, the transit house note, the natal one unless it repeats the transit one, the retrograde note and the advice, in that order; three to six lines |
| Interpretation.RenderAspect | app/shared/astro/interpretation.py:72-92 | nothing exactly when no template exists; otherwise the template's title, text and advice filled from the context, and the three notes |
| Interpretation.RenderAll | app/shared/astro/interpretation.py:59-63 | at most one paragraph per aspect, and none exactly when no aspect has a template |
| Interpretation.RenderAllMembers | app/shared/astro/interpretation.py:59-63 | every aspect with a template is rendered |
| Interpretation.RenderedIndicesExact | app/shared/astro/interpretation.py:59-63 | the kept positions strictly increase, and a position is kept exactly when its aspect has a template |
| Interpretation.RenderAllExact | app/shared/astro/interpretation.py:59-63 | the k-th paragraph is the rendering of the aspect at the k-th kept position, so paragraphs follow input order and each comes from an input aspect |
| Interpretation.RenderForecast | app/shared/astro/interpretation.py:51-70 | a forecast that is not ok names its missing fields; one with nothing rendered gets the quiet-day sentence |
| Interpretation.Paragraphs | app/shared/astro/interpretation.py:68 | one paragraph per rendered aspect, its text form |
| Interpretation.RenderForecastHeading | app/shared/astro/interpretation.py:68-70 | with something rendered, the message starts with the dated heading and a blank line |
| AspectOfDay.ExactAngle | app/shared/astro/aspect_of_day.py:195 | the exact angle lies in [0, 180], 0 for unknown names |
| AspectOfDay.ExactAngleMatchesTable | app/shared/astro/aspect_of_day.py:195 | the angle looked up by name is the table's |
| AspectOfDay.Relative | app/shared/astro/aspect_of_day.py:196-198 | the relative longitude lies in (−180, 180] |
| AspectOfDay.RelativeCongruent | app/shared/astro/aspect_of_day.py:196-198 | it differs from the raw difference by whole turns only |
| AspectOfDay.PairApplying | app/shared/astro/aspect_of_day.py:193-202 | past the exact angle the aspect applies when the first planet is slower, before it when it is faster |
| AspectOfDay.PairApplyingTurnInvariant | app/shared/astro/aspect_of_day.py:193-202 | whole turns added to the first longitude do not change the verdict |
| AspectOfDay.EqualSpeedsNeverApply | app/shared/astro/aspect_of_day.py:200-202 | planets at the same speed never apply |
| AspectOfDay.AsTransit | app/shared/astro/aspect_of_day.py:165-191 | the record names the pair and aspect, keeps orb (rounded), exactness and weight, has no houses, and the pair's applying verdict |
| AspectOfDay.RenderTemplate | app/shared/astro/aspect_of_day.py:110-147 | nothing exactly without a template; the free text is the filled text and the advice line; the premium text adds the retrograde note between them when there is one |
| AspectOfDay.PremiumDiffersOnlyWhenRetrograde | app/shared/astro/aspect_of_day.py:135-146 | for a direct first planet the premium text is the free text |
| AspectOfDay.DayAspectsSound | app/shared/astro/aspect_of_day.py:42-78 | every aspect of the day comes from an ordered pair of distinct positions, fits its base orb, is exact iff the orb is at most 0.1, carries the weight formula and has a template |
| AspectOfDay.NoSelfPairs | app/shared/astro/aspect_of_day.py:50 | with distinct planets no planet is paired with itself |
| AspectOfDay.DayAspectsComplete | app/shared/astro/aspect_of_day.py:50-74 | every pair and aspect kind within its base orb that has a template is listed, with the scan's orb, exactness and weight |
| AspectOfDay.DroppedWithoutTemplate | app/shared/astro/aspect_of_day.py:60-62 | an aspect within orb is dropped exactly when no template exists for it |
| AspectOfDay.DayAspectsOrdered | app/shared/astro/aspect_of_day.py:76 | heaviest first, and among equal weights tightest stored orb first |
| AspectOfDay.Title | app/shared/astro/aspect_of_day.py:99-102 | the title line starts with the star emoji |
| AspectOfDay.MessageBlocksShape | app/shared/astro/aspect_of_day.py:87-107 | a header, then one block per aspect in order holding its title and the text the plan allows, then the premium bonus when a premium user sees more than one |
| AspectOfDay.MessageOpening | app/shared/astro/aspect_of_day.py:83-87 | an empty list gives the calm-day sentence; any other opens with the header |
| AspectOfDay.AspectOfDayService.constructor | app/shared/astro/aspect_of_day.py:31-40 | the planets given, or the ephemeris's own when none are; an empty memo |
| AspectOfDay.AspectOfDayService.GetAspects | app/shared/astro/aspect_of_day.py:42-78 | the day's scan, served from the memo when present and stored in it otherwise |
| AspectOfDay.AspectOfDayService.GetTop | app/shared/astro/aspect_of_day.py:80-81 | the first count aspects of the day's scan |
| AspectOfDay.AspectOfDayService.FormatMessage | app/shared/astro/aspect_of_day.py:83-108 | the loop builds the message the definition describes |
| AspectOfDay.CachedIsFresh | app/shared/astro/aspect_of_day.py:43-44 | whatever the memo holds for a day is that day's scan |
| AspectOfDay.TopIsPrefix | app/shared/astro/aspect_of_day.py:80-81 | a non-negative count gives the first min(count, n) aspects |
| ForecastRouter.FieldLabel | app/features/astro_forecast/router.py:36-45 | each known profile field gets its Russian name (latitude and longitude both "координаты"); unknown names pass through |
| ForecastRouter.HumanLabelsDistinct | app/features/astro_forecast/router.py:43-47 | no name is printed twice |
| ForecastRouter.HumanLabelsMembers | app/features/astro_forecast/router.py:43-47 | a name is printed exactly when some missing field maps to it |
| ForecastRouter.HumanLabelsPrefix | app/features/astro_forecast/router.py:44-47 | names appear in the order of their first field |
| ForecastRouter.CoordinatesOnce | app/features/astro_forecast/router.py:38-47 | missing latitude and longitude together print "координаты" once |
| ForecastRouter.FormatMissingFields | app/features/astro_forecast/router.py:35-48 | the loop joins the distinct names with ", " |
| ForecastRouter.BuildPreview | app/features/astro_forecast/router.py:51-59 | the same forecast with at most its first aspect and nothing missing |
| ForecastRouter.PreviewProperties | app/features/astro_forecast/router.py:51-59 | a successful forecast stays successful as a preview, and previewing twice changes nothing |
| ForecastRouter.IsoToDisplay | app/features/astro_forecast/router.py:28-32 | the parsed date as DD.MM.YYYY, otherwise the input, or "—" for an empty input |
| ForecastRouter.IsoToDisplayIsShared | app/features/astro_forecast/router.py:28-32 | the router's copy agrees with the shared formatter called with "—" whenever the input has no 'T' or no 'Z' |
| ForecastRouter.IsoToDisplayEchoesZulu | app/features/astro_forecast/router.py:28-32 | a UTC date-time ending in 'Z' is echoed by the router's copy but shown as a date by the shared formatter |
| ForecastRouter.IsPremium | app/features/astro_forecast/router.py:22-25 | the answer is the fetched record's subscription flag, and the fetched record is written back |
| Scheduler.ParseNotificationTime | app/scheduler.py:521-533 | always a time within the day: the configured one when it parses and is in range, 11:00 otherwise |
| Scheduler.ClockFieldsRoundTrip | app/scheduler.py:523-525 | an hour and a minute joined by ':' read back as that pair |
| Scheduler.ParseNotificationTimeRoundTrip | app/scheduler.py:521-533 | a time within the day written "h:m" is read back unchanged |
| Scheduler.PreviewResult | app/scheduler.py:44-52 | the first limit aspects and nothing missing, everything else kept |
| Scheduler.DefaultPreviewIsRouterPreview | app/scheduler.py:36-52 | with the default limit of one the scheduler's preview is the screens' preview |
| Scheduler.SentDaysAfter | app/scheduler.py:109-115 | every broadcast day after a send lies strictly after that send's day |
| Scheduler.AtMostOncePerDate | app/scheduler.py:101-115 | with a clock that never goes back, the daily broadcast goes out at most once per date |
| Scheduler.WantsNow | app/scheduler.py:144-155 | a user without a time, or with one that does not parse, is due; a parsed time must equal the scheduler's |
| Scheduler.DailyRecipientsMembers | app/scheduler.py:131-157 | a user is sent the broadcast exactly when some subscriber record with that id wants it now |
| Scheduler.OwnTimeIsDue | app/scheduler.py:146-155 | a user whose own time is the scheduler's is due |
| Scheduler.AllowedPlanets | app/scheduler.py:369 | premium users hear about every tracked planet, everyone else about Mercury only |
| Scheduler.PlanetAlertsFacts | app/scheduler.py:372-384 | each alert of one planet was unmarked before and is marked after, no kind repeats, and every alert due today ends up marked |
| Scheduler.RetroPlanFacts | app/scheduler.py:371-384 | every alert is for an allowed planet and one of its periods, was not marked before, is marked afterwards and is not repeated; afterwards every alert due today is marked |
| Scheduler.RetroAlertsAreToday | app/scheduler.py:376-384 | alerts about a period go out only on its pre-alert date or its start date |
| Scheduler.NothingWhenMarked | app/scheduler.py:376-384 | when every alert due today is already marked, a run sends and marks nothing |
| Scheduler.RetroAlertsSentOnce | app/scheduler.py:371-384 | a second run on the same day sends nothing |
| Scheduler.FreeUsersOnlyMercury | app/scheduler.py:369-372 | a user without premium only gets Mercury alerts |
| Scheduler.RefetchSettled | app/scheduler.py:376-384 | fetching a record again at the same moment leaves it as it is, whatever its alert marks |
| Scheduler.DailyOptions | app/scheduler.py:446 | the premium options when non-empty, else the plain daily ones, a missing key reading as empty |
| Scheduler.DailyTextChoice | app/scheduler.py:430-465 | the daily text is one of the number's options, a fresh one while any is unseen, and the fixed sentence when the number has none |
| Scheduler.SettledMarks | app/scheduler.py:376-384 | a settled record stays settled whatever its alert marks become |
| Scheduler.AlertPeriod | app/scheduler.py:373-384 | the two checks of one period against the store send and mark what the plan says |
| Scheduler.AlertPlanet | app/scheduler.py:372-384 | one planet's periods in order send and mark what the plan says |
| Scheduler.AlertPlanets | app/scheduler.py:371-384 | the allowed planets in order send and mark what the plan says |
| Scheduler.NotificationScheduler.constructor | app/scheduler.py:65-73 | the scheduler starts with the given time and nothing sent |
| Scheduler.NotificationScheduler.SetNotificationTime | app/scheduler.py:495-503 | an out-of-range time is refused and the old time kept; otherwise the new time is set |
| Scheduler.NotificationScheduler.Check | app/scheduler.py:101-122 | the broadcast goes out at the target minute unless it already went out today, the digest on a Monday of a new ISO week, and each records its date or week |
| Scheduler.NotificationScheduler.RetroAlertsForUser | app/scheduler.py:341-384 | nothing when no tracked planet has a period in the window or notifications are off; when the birth profile names no zone, the zone lookup refreshes the stored record even outside the target minute, which keeps the user from counting as inactive; at the target minute in the user's zone, the alerts of the plan over the allowed planets, marked in the store |
| SharedStorage.NewUser | app/shared/storage.py:164-227 | a new user is free, with zeroed counters reset today, no achievements, no alert marks, no life path or soul number, and active now |
| SharedStorage.AdminMode | app/shared/storage.py:144-147 | an administrator's mode is "premium" or "free", defaulting to "premium" |
| SharedStorage.SyncAdmin | app/shared/storage.py:143-160 | the administrator's subscription is active exactly when the mode is not "free", and the mode is stored |
| SharedStorage.Touch | app/shared/storage.py:136-162 | a fetch stamps the activity time, keeps the counters, and changes nothing else for other users |
| SharedStorage.TouchIdempotent | app/shared/storage.py:136-162 | a second fetch at the same time changes nothing more |
| SharedStorage.TouchKeepsHistory | app/shared/storage.py:136-162 | fetching again leaves a history written after the first fetch in place |
| SharedStorage.AdminPremiumUnlessFree | app/shared/storage.py:143-160 | an administrator is premium after any fetch unless the mode is "free" |
| SharedStorage.ResetSpread | app/shared/storage.py:262-267 | a cached spread survives the reset only when dated today; otherwise it is cleared |
| SharedStorage.ResetRules | app/shared/storage.py:243-269 | the same day changes nothing; a new day zeroes the counters, clears the daily cache and the repeat views, and keeps the subscription and achievements |
| SharedStorage.ResetKeepsTodaysSpreads | app/shared/storage.py:262-267 | after a reset each daily spread entry is kept when dated today and cleared otherwise |
| SharedStorage.ResetIdempotent | app/shared/storage.py:243-269 | the reset is idempotent within a day |
| SharedStorage.RequestDecision | app/shared/storage.py:293-310 | premium always passes and counts; a free user passes and counts below the limit, and is refused without change at it |
| SharedStorage.FreeRequestsBounded | app/shared/storage.py:293-310 | a free user's request counter never passes the limit |
| SharedStorage.FreeRequestRefusal | app/shared/storage.py:293-310 | a free user is refused exactly when the counter has reached the limit |
| SharedStorage.CompatibilityAllowed | app/shared/storage.py:312-318 | a check is allowed exactly for premium or below the limit |
| SharedStorage.RepeatViewAllowed | app/shared/storage.py:329-337 | a repeat view is allowed exactly for premium or below the limit |
| SharedStorage.CountUsage | app/shared/storage.py:320-327 | "daily" counts a request, "compatibility" a check, anything else nothing |
| SharedStorage.AppendCapped | app/shared/storage.py:391-399 | the new item is last and only the newest entries up to the cap remain |
| SharedStorage.AppendCappedKeepsNewest | app/shared/storage.py:552-571 | an entry inside the kept window is not lost |
| SharedStorage.RecentReadings | app/shared/storage.py:573-577 | the newest readings up to the limit, or all for a zero limit |
| SharedStorage.InRange | app/shared/storage.py:489-507 | only diary entries whose time parses and lies within the range |
| SharedStorage.InRangeIndicesExact | app/shared/storage.py:489-507 | the positions of the kept entries strictly increase and are exactly those dated within the range |
| SharedStorage.InRangeInOrder | app/shared/storage.py:489-507 | the kept entries appear in their original order: the k-th kept entry is the entry at the k-th kept position |
| SharedStorage.InRangeComplete | app/shared/storage.py:489-507 | every entry dated within the range is returned |
| SharedStorage.MarkAlert | app/shared/storage.py:479-487 | the alert is marked afterwards, and other planets' marks are unchanged |
| SharedStorage.MarkKeepsOtherKind | app/shared/storage.py:479-487 | marking one kind of alert leaves the other kind's mark alone |
| SharedStorage.RemarkIsNoOp | app/shared/storage.py:473-487 | re-marking an alert already marked for that date changes nothing |
| SharedStorage.NextStreak | app/shared/storage.py:606-628 | activity on a new day gives a streak of at least 1, and the next day continues the streak |
| SharedStorage.StreakRules | app/shared/storage.py:592-646 | the same day changes nothing; the next day adds one; a gap or an unreadable date restarts at 1; a new day is stamped and counted once |
| SharedStorage.LongestCoversCurrent | app/shared/storage.py:633-636 | the longest streak never falls below the current one |
| SharedStorage.StreakSameDayStable | app/shared/storage.py:602-604 | a second update on the same day changes nothing |
| SharedStorage.Unlock | app/shared/storage.py:654-668 | true and appended exactly the first time, false and unchanged after |
| SharedStorage.UnlockOnce | app/shared/storage.py:654-668 | the list stays free of duplicates, and a second unlock reports false |
| SharedStorage.SetChallenge | app/shared/storage.py:716-725 | the new current challenge is dated today; completions and streak are kept |
| SharedStorage.CompleteChallenge | app/shared/storage.py:727-785 | refused without a current challenge, for one not set today, or when already completed; otherwise recorded and dated today |
| SharedStorage.ChallengeCompletedOnce | app/shared/storage.py:749-755 | a second completion of the same challenge is refused |
| SharedStorage.UserStorage.constructor | app/shared/storage.py:15-25 | the store starts empty with the given limits and administrators |
| SharedStorage.UserStorage.GetUser | app/shared/storage.py:136-162 | the record is created if needed, refreshed, and written back |
| SharedStorage.UserStorage.UpdateDailyCacheIfNeeded | app/shared/storage.py:243-269 | the fetched record is reset for the new day |
| SharedStorage.UserStorage.CanMakeRequest | app/shared/storage.py:293-310 | the answer and the new record are the request decision on the refreshed record |
| SharedStorage.UserStorage.CanCheckCompatibility | app/shared/storage.py:312-318 | the answer is the compatibility rule on the refreshed record |
| SharedStorage.UserStorage.IncrementUsage | app/shared/storage.py:320-327 | the refreshed record's counters are counted by type |
| SharedStorage.UserStorage.CanViewCachedResult | app/shared/storage.py:329-337 | the answer is the repeat-view rule on the refreshed record |
| SharedStorage.UserStorage.IncrementRepeatView | app/shared/storage.py:339-348 | the refreshed record counts one more repeat view |
| SharedStorage.Saved | app/shared/storage.py:359-368 | the result is appended as the newest entry, the record's life path and soul number become the result's, and nothing else changes |
| SharedStorage.SavedIsReadBack | app/shared/storage.py:359-368 | a later fetch sees the saved result as the newest and reads the two numbers from the record, as the profile and diary screens do |
| SharedStorage.UserStorage.SaveDailyResult | app/shared/storage.py:350-369 | the fetched record takes the saved result and its two numbers; nothing else in the store changes |
| SharedStorage.UserStorage.GetCachedResult | app/shared/storage.py:371-380 | the newest saved result, or none |
| SharedStorage.UserStorage.AddTextToHistory | app/shared/storage.py:382-385 | the text is appended to the history |
| SharedStorage.UserStorage.GetTextHistory | app/shared/storage.py:387-389 | the fetched record's text history |
| SharedStorage.UserStorage.UpdateTextHistory | app/shared/storage.py:232-235 | the fetched record with its history replaced |
| SharedStorage.UserStorage.AddAffirmationToHistory | app/shared/storage.py:391-399 | the affirmation is appended and the newest ten kept |
| SharedStorage.UserStorage.AddTarotReading | app/shared/storage.py:552-571 | the reading is appended and the newest hundred kept |
| SharedStorage.UserStorage.GetTarotHistory | app/shared/storage.py:573-577 | the newest readings up to the limit |
| SharedStorage.UserStorage.DiaryEntriesInRange | app/shared/storage.py:489-507 | the loop returns the diary entries within the range |
| SharedStorage.UserStorage.SetBirthDate | app/shared/storage.py:401-411 | the birth date is stored on the fetched record |
| SharedStorage.Subscribed | app/shared/storage.py:413-420 | the subscription takes the given activity and expiry, with type "premium" exactly when active; an administrator's mode follows; nothing else changes |
| SharedStorage.SubscriptionSticks | app/shared/storage.py:136-160 | a subscription state written by `set_subscription` survives every later fetch, for an administrator too |
| SharedStorage.UserStorage.SetSubscription | app/shared/storage.py:413-420 | activity, expiry and type are stored on the fetched record, and an administrator's mode follows; nothing else in the store changes |
| SharedStorage.Notify | app/shared/storage.py:422-430 | the switch is stored; the time is the given one when non-empty, else the one already stored, else the configured default; switching on clears the last-sent day; nothing else changes |
| SharedStorage.NotifyOnMakesDailyDue | app/shared/storage.py:422-430 | after switching on, no day counts as already notified |
| SharedStorage.NotifyKeepsTime | app/shared/storage.py:422-430 | flipping the switch without a time keeps the time chosen before, and an empty time acts as no time |
| SharedStorage.UserStorage.SetNotifications | app/shared/storage.py:422-430 | the fetched record gets the new notification settings and nothing else in the store changes |
| SharedStorage.UserStorage.CanSendDailyNotification | app/shared/storage.py:518-523 | allowed exactly when not yet sent today |
| SharedStorage.UserStorage.MarkDailyNotificationSent | app/shared/storage.py:525-529 | today is recorded as sent |
| SharedStorage.UserStorage.HasRetroAlert | app/shared/storage.py:473-477 | whether the alert is marked for that date |
| SharedStorage.UserStorage.MarkRetroAlert | app/shared/storage.py:479-487 | the alert is marked on the fetched record |
| SharedStorage.UserStorage.UpdateStreak | app/shared/storage.py:592-646 | the streak update is applied and its streak returned |
| SharedStorage.UserStorage.CheckAndUnlockAchievement | app/shared/storage.py:654-668 | the unlock rule is applied and its verdict returned |
| SharedStorage.UserStorage.SetDailyChallenge | app/shared/storage.py:716-725 | the challenge is set for today |
| SharedStorage.UserStorage.CompleteDailyChallenge | app/shared/storage.py:727-785 | the completion rule is applied and its verdict returned |
| SharedStorage.UserStorage.CleanupOldData | app/shared/storage.py:432-463 | exactly the stale users are removed, and their number is returned |
| AppStorage.NewUser | app/storage.py:49-75 | a new user is free, with zeroed counters reset today, empty cache and histories, and notifications on at 09:00 |
| AppStorage.Fetched | app/storage.py:41-47 | the stored record with a fresh activity time, or a new record |
| AppStorage.DayResetAsWritten | app/storage.py:85-102 | the same day changes nothing; a new day zeroes the three daily counters, sets the date and clears the cache, but leaves the `requests` counter and the top-level repeat views alone |
| AppStorage.DayReset | app/storage.py:85-102 | the corrected reset also zeroes the two counters that the daily limits read |
| AppStorage.DayResetRefinesAsWritten | app/storage.py:85-102 | both resets agree on everything but those two counters, and resetting twice is resetting once |
| AppStorage.CountRequest | app/storage.py:126-131 | the call is counted, and allowed exactly while the count is at most 20 |
| AppStorage.RequestsNeverRecoverAsWritten | app/storage.py:126-131 | as written, once 20 requests are counted every later call is refused, on every later day |
| AppStorage.NewDayAllowsRequest | app/storage.py:126-131 | with the corrected reset, the first request of a new day is allowed |
| AppStorage.RequestCeiling | app/storage.py:128-131 | within one day the twenty-first request is the first refused |
| AppStorage.RepeatViewsNeverRecoverAsWritten | app/storage.py:148-155 | as written, after 100 repeat views the check fails on every later day |
| AppStorage.NewDayAllowsRepeatView | app/storage.py:148-155 | with the corrected reset, a new day allows repeat views again |
| AppStorage.CountUsage | app/storage.py:140-146 | "daily" and "compatibility" each count their own counter; other types change nothing; nothing but the counters changes |
| AppStorage.OneCompatibilityCheckPerDay | app/storage.py:133-146 | a free user is refused a second check on the same day and allowed one again the next day |
| AppStorage.SaveResult | app/storage.py:161-172 | the result is appended and the numbers are copied onto the record; every other field of the record is unchanged |
| AppStorage.LastResult | app/storage.py:174-183 | none exactly when nothing was saved, otherwise the newest entry |
| AppStorage.SaveThenGet | app/storage.py:161-183 | reading right after saving gives back what was saved |
| AppStorage.UserStorage.constructor | app/storage.py:11-14 | the store starts empty |
| AppStorage.UserStorage.GetUser | app/storage.py:41-47 | the fetched record is returned and written back |
| AppStorage.UserStorage.UpdateDailyCacheIfNeeded | app/storage.py:85-102 | the fetched record is reset for the new day as written: the three daily counters, the date and the cache, but not `requests` or the top-level repeat views |
| AppStorage.UserStorage.CanMakeRequest | app/storage.py:126-131 | with no reset first, the request is counted on the fetched record and allowed while the count is at most 20 |
| AppStorage.UserStorage.CanCheckCompatibility | app/storage.py:133-138 | after the reset as written, allowed for premium or when no check is counted today; the reset record is stored |
| AppStorage.UserStorage.IncrementUsage | app/storage.py:140-146 | the fetched record's counters are counted by type |
| AppStorage.UserStorage.CanViewCachedResult | app/storage.py:148-150 | with no reset first, allowed while the fetched record counts fewer than 100 repeat views |
| AppStorage.UserStorage.IncrementRepeatView | app/storage.py:152-155 | one more repeat view is counted |
| AppStorage.UserStorage.SaveDailyResult | app/storage.py:161-172 | the result is saved on the fetched record |
| AppStorage.UserStorage.GetCachedResult | app/storage.py:174-183 | the newest saved result, or none |
| AppStorage.UserStorage.AddTextToHistory | app/storage.py:185-188 | the text is appended without a cap |
| AppStorage.UserStorage.AddAffirmationToHistory | app/storage.py:194-202 | the affirmation is appended and the newest ten kept |
| AppStorage.UserStorage.SetBirthDate | app/storage.py:204-214 | only the date is stored |
| AppStorage.UserStorage.SetSubscription | app/storage.py:216-221 | activity, expiry and type are stored |
| AppStorage.UserStorage.SetNotifications | app/storage.py:223-232 | the notification switch and time are stored |
| AppUserStorage.NewUser | app/user_storage.py:41-56 | a new record has no birth data, is free, and has zeroed counters reset today |
| AppUserStorage.Fetched | app/user_storage.py:39-60 | a new record for an unknown id, otherwise only the activity time changes |
| AppUserStorage.Reset | app/user_storage.py:70-75 | the same day changes nothing; a new day zeroes the three counters and sets the date |
| AppUserStorage.CountUsage | app/user_storage.py:78-84 | "daily" and "compatibility" each count their own counter; other types change nothing |
| AppUserStorage.TwoFreeRequestsPerDay | app/user_storage.py:67-84 | a free user is allowed two requests a day and refused the third; the next day the limit is lifted |
| AppUserStorage.ResetIdempotent | app/user_storage.py:70-75 | resetting twice on the same day is resetting once |
| AppUserStorage.UserStorage.constructor | app/user_storage.py:17-19 | the store starts empty |
| AppUserStorage.UserStorage.GetUser | app/user_storage.py:39-60 | the fetched record is returned and written back |
| AppUserStorage.UserStorage.SetBirthDate | app/user_storage.py:62-65 | exactly the given date and numbers are stored |
| AppUserStorage.UserStorage.CanMakeRequest | app/user_storage.py:67-76 | after the reset, allowed for premium or below two requests today; nothing is counted |
| AppUserStorage.UserStorage.IncrementUsage | app/user_storage.py:78-84 | the fetched record's counters are counted by type |
| BirthProfiles.ValidateBirthDate | app/shared/birth_profiles.py:25-43 | an empty value is refused as missing; a value none of the four layouts reads is refused as badly formatted; a value one of them reads is accepted, and the result is the ISO form of the date it reads as |
| BirthProfiles.ParseIsoFormat | app/shared/birth_profiles.py:25-43 | the ISO form of any valid date is read back as that date |
| BirthProfiles.ValidateBirthDateIdempotent | app/shared/birth_profiles.py:25-43 | a validated birth date validates to itself |
| BirthProfiles.ValidatedDateIsIso | app/shared/birth_profiles.py:25-43 | a validated birth date is read by the ISO date reader as the same date the validator read |
| BirthProfiles.DottedDateAccepted | app/shared/birth_profiles.py:33-43 | any valid date with a four-digit year typed as DD.MM.YYYY is accepted and stored in ISO form |
| BirthProfiles.SpacedDayAccepted | app/shared/birth_profiles.py:33-43 | `%d` also reads a space before a one-digit day, so "YYYY-MM- D" is accepted as that date |
| BirthProfiles.ValidateBirthTime | app/shared/birth_profiles.py:46-56 | a missing or empty time is no time; a non-empty time is refused exactly when its stripped text does not read as HH:MM (so whitespace alone is refused); an accepted time is the zero-padded HH:MM of the hour and minute it reads as |
| BirthProfiles.ParseClockText | app/shared/birth_profiles.py:46-56 | a normalised time reads back as its hour and minute |
| BirthProfiles.ValidateBirthTimeIdempotent | app/shared/birth_profiles.py:46-56 | a normalised time validates to itself |
| BirthProfiles.ValidateClockText | app/shared/birth_profiles.py:46-56 | every HH:MM with hour to 23 and minute to 59 is accepted unchanged |
| BirthProfiles.ValidateTimezone | app/shared/birth_profiles.py:59-74 | a blank zone is no zone; otherwise the stripped name is accepted exactly when the zone database knows it |
| BirthProfiles.ValidateTimezoneIdempotent | app/shared/birth_profiles.py:59-74 | an accepted zone validates to itself |
| BirthProfiles.ValidateCoordinate | app/shared/birth_profiles.py:77-88 | accepted exactly when absent or within the latitude or longitude range, and then unchanged; the error names the range that failed |
| BirthProfiles.ValidateAge | app/shared/birth_profiles.py:91-102 | accepted exactly when absent or 1 to 120; zero or less and over 120 have their own errors |
| BirthProfiles.Merged | app/shared/birth_profiles.py:175-209 | each field falls back to the stored value by its own rule: numbers when the new one is None, text when the new one is empty, age and last-forecast fields when the key is not passed |
| BirthProfiles.Normalize | app/shared/birth_profiles.py:193-208 | the profile is built exactly when all six validators accept, the birth date's error wins first, and the built profile holds the validated values |
| BirthProfiles.UpsertMerge | app/shared/birth_profiles.py:175-213 | a stored upsert keeps a new zero coordinate, keeps the old birth time for an empty new one, clears the age passed as None, keeps the creation time and stamps the update time |
| BirthProfiles.UpsertNormalizes | app/shared/birth_profiles.py:175-213 | every stored profile is one all validators accept unchanged |
| BirthProfiles.UpsertNoChange | app/shared/birth_profiles.py:175-213 | merging nothing into a normalised profile changes only its update time |
| BirthProfiles.Payload | app/shared/birth_profiles.py:224-245 | the sync payload carries the birth date; the birth time, time zone and place name only when non-empty; the offset and coordinates as they are; the age only when not None; and no forecast fields |
| BirthProfiles.SyncKeepsStored | app/shared/birth_profiles.py:224-245 | a sync keeps the stored last forecast and, when the user record has no age, the stored age |
| BirthProfiles.LastForecast | app/shared/birth_profiles.py:267-279 | a forecast is reported exactly when a profile has a non-empty date and text, and then those with the preview flag |
| BirthProfiles.WithForecast | app/shared/birth_profiles.py:256-265 | the forecast date, text and preview flag are set and nothing else changes but the update time |
| BirthProfiles.SaveThenLoad | app/shared/birth_profiles.py:256-279 | a forecast saved with a non-empty date and text is what the next read gives back |
| BirthProfiles.BirthProfileStorage.constructor | app/shared/birth_profiles.py:144-149 | the store starts empty with the given zone database |
| BirthProfiles.BirthProfileStorage.UpsertProfile | app/shared/birth_profiles.py:175-213 | the merged profile is stored under the user; on a validation error nothing changes |
| BirthProfiles.BirthProfileStorage.DeleteProfile | app/shared/birth_profiles.py:215-218 | exactly that user's profile is removed |
| BirthProfiles.BirthProfileStorage.SyncFromUserProfile | app/shared/birth_profiles.py:224-245 | nothing happens without a birth date; otherwise the payload is upserted |
| BirthProfiles.BirthProfileStorage.MarkForecastSent | app/shared/birth_profiles.py:247-254 | a stored profile gets the sent date; an unknown user changes nothing |
| BirthProfiles.BirthProfileStorage.SaveForecastText | app/shared/birth_profiles.py:256-265 | a stored profile gets the forecast; an unknown user changes nothing |
| BirthProfiles.BirthProfileStorage.GetLastForecast | app/shared/birth_profiles.py:267-279 | the reported forecast belongs to a stored profile and has a non-empty date and text |
| Texts.Choose | app/shared/texts.py:36-46 | the text is one of the options; while some option is unseen it is an unseen one and is appended to the history; when all are seen the history restarts with the chosen text |
| Texts.ChooseFreshUntilExhausted | app/shared/texts.py:36-46 | a text is shown again exactly when every option has been shown |
| Texts.ChooseAndRecord | app/shared/texts.py:36-46 | the chosen text is returned and only the user's history changes, to the new history |
| Texts.GetText | app/shared/texts.py:30-48 | an unknown number or context gives the unavailable text and changes nothing; otherwise the choice is made against the stored history and the new history is stored |
| RootStorage.NewUser | storage.py:70-94 | a new user is free, with zeroed counters reset today, notifications on at 09:00, no history and the creation time as activity |
| RootStorage.Fetched | storage.py:64-104 | a new record for an unknown id, otherwise the stored one with only a fresh activity time |
| RootStorage.UpdateMerges | storage.py:106-118 | an update changes only the fields it names, the last value given for a key wins, and the activity time is refreshed |
| RootStorage.Reset | storage.py:142-147 | the same day changes nothing; a new day zeroes both counters and sets the date |
| RootStorage.ResetIdempotent | storage.py:142-147 | resetting twice on a day is resetting once, and the record is then reset today |
| RootStorage.CountUsage | storage.py:178-190 | "daily" and "compatibility" each count their own counter; other types change nothing; nothing but the counters changes |
| RootStorage.FreeQuota | storage.py:136-190 | a free user counted three times from a fresh day is refused until the next day, when both checks pass again |
| RootStorage.CanSendDaily | storage.py:276-291 | allowed exactly when nothing was sent, the date is unreadable, or it is before today |
| RootStorage.MarkedOncePerDay | storage.py:276-299 | once marked, the notification is refused for the rest of that day and allowed on any later day |
| RootStorage.GarbledIsDoomed | storage.py:301-322 | a record with an unreadable activity time is removed, although the shared store's clean-up keeps it |
| RootStorage.ToShared | storage.py:309-318 | the record's activity time as the shared store reads it |
| RootStorage.UserStorage.constructor | storage.py:19-21 | the store starts empty |
| RootStorage.UserStorage.GetUser | storage.py:64-104 | the fetched record is returned and written back |
| RootStorage.UserStorage.UpdateUser | storage.py:106-118 | the fetched record with the update merged in is stored |
| RootStorage.UserStorage.SetBirthDate | storage.py:120-134 | the date is stored with its life-path number (masters kept) and its soul number |
| RootStorage.UserStorage.CanMakeRequest | storage.py:136-155 | after the reset, allowed for premium or below three requests today; nothing is counted |
| RootStorage.UserStorage.CanCheckCompatibility | storage.py:157-176 | after the reset, allowed for premium or when no check is counted today |
| RootStorage.UserStorage.IncrementUsage | storage.py:178-190 | the fetched record's counters are counted by type |
| RootStorage.UserStorage.GetUsageStats | storage.py:192-211 | the reset record is stored and its counters and subscription state reported |
| RootStorage.UserStorage.SetSubscription | storage.py:213-221 | activity, expiry and type ("premium" exactly when active) are stored |
| RootStorage.UserStorage.SetNotifications | storage.py:223-230 | the notification switch and time are stored |
| RootStorage.UserStorage.AddTextToHistory | storage.py:253-267 | the text is appended and the newest 50 kept |
| RootStorage.UserStorage.GetTextHistory | storage.py:269-274 | the fetched record's history |
| RootStorage.UserStorage.CanSendDailyNotification | storage.py:276-291 | the once-a-day rule applied to the fetched record |
| RootStorage.UserStorage.MarkDailyNotificationSent | storage.py:293-299 | today's date is recorded as the last notification |
| RootStorage.UserStorage.CleanupOldData | storage.py:301-331 | exactly the records active before the cut-off or with an unreadable activity time are removed; records with no activity time stay |
| RateWindow.Check | app/security.py:31-44 | the old times are dropped; the call is allowed exactly when fewer than the limit remain, and then its time is recorded |
| RateWindow.RecentMembers | app/security.py:32-35 | the filter keeps exactly the times later than the cut-off |
| RateWindow.WindowMembers | app/security.py:32-35 | the window keeps exactly the times inside it |
| RateWindow.RecentTwice | app/security.py:129-148 | filtering by a cut-off and then a later one is filtering by the later one, so an earlier clean-up never matters |
| RateWindow.RecentShrinks | app/security.py:32-35 | a later cut-off keeps no more times |
| RateWindow.WindowOfBounded | app/security.py:32-35 | with no time after the window's end, the window is the filter by its start |
| RateWindow.RunState | app/security.py:20-48 | after any run of calls in time order, the stored times are exactly the allowed ones within the last call's window |
| RateWindow.StepWindow | app/security.py:38-44 | allowing a call under the limit keeps every window within the limit |
| RateWindow.WindowBound | app/security.py:20-48 | for calls in time order, no window of the given length ever holds more allowed calls than the limit |
| AppSecurity.ValidateUserInput | app/security.py:50-76 | an accepted text is non-empty and within the length limit |
| AppSecurity.ValidateIgnoresCase | app/security.py:64-70 | a text and its lower-case form are judged alike |
| AppSecurity.SuspiciousAreLower | app/security.py:64 | every suspicious fragment is already lower case |
| AppSecurity.SuspiciousRefused | app/security.py:63-70 | any text containing a suspicious fragment is refused |
| AppSecurity.SafeTextAccepted | app/security.py:50-72 | a non-empty text within the limit without '<' or ':' is accepted |
| AppSecurity.EscapeChar | app/security.py:87 | the five special characters become entities, all others stay |
| AppSecurity.EscapeHtml | app/security.py:87 | escaping never shortens the text |
| AppSecurity.EscapedIsInert | app/security.py:87 | escaped text holds no markup character and no quote |
| AppSecurity.EscapeOfSafe | app/security.py:87 | text with nothing to escape is unchanged |
| AppSecurity.EscapeAddsNoSpace | app/security.py:87-90 | escaping adds no whitespace |
| AppSecurity.SanitizeText | app/security.py:78-92 | empty stays empty; the result has exactly the words of the HTML-escaped text, joined by single spaces with none at either end, and so holds no markup character and no quote |
| AppSecurity.SanitizeKeepsTidyText | app/security.py:78-92 | single-spaced text holding none of `& < > " '` comes back unchanged |
| AppSecurity.DateFormatAccepts | app/security.py:98-127 | a dotted date of three digit groups is accepted exactly when day, month and year are in range |
| AppSecurity.DateFormatShape | app/security.py:107-123 | every accepted text is three digit groups joined by dots, with numbers in range |
| AppSecurity.Cleaned | app/security.py:129-148 | every kept user has recent times only and at least one; a user is kept exactly when they have a recent time |
| AppSecurity.CleanupKeepsVerdict | app/security.py:129-148 | a clean-up never changes the verdict of a later check |
| AppSecurity.CleanMap | app/security.py:137-145 | the key-by-key loop leaves the cleaned cache |
| AppSecurity.SecurityValidator.constructor | app/security.py:15-18 | the cache starts empty |
| AppSecurity.SecurityValidator.RateLimitCheck | app/security.py:20-44 | only the user's entry changes; the request is allowed exactly when fewer than ten of the user's times are within the last minute |
| AppSecurity.SecurityValidator.CleanupOldRequests | app/security.py:129-148 | the cache becomes the cleaned cache and stays well formed |
| Security.ValidateUserInput | security.py:17-46 | an accepted text is non-empty and within the length limit |
| Security.ValidateIgnoresCase | security.py:41-44 | a text and its lower-case form are judged alike |
| Security.ScriptElementRefused | security.py:32 | a script element on one line, in any case, is refused |
| Security.FragmentRefused | security.py:33-35 | text containing `javascript:`, `data:text/html` or `vbscript:`, in any case, is refused |
| Security.HandlerRefused | security.py:36-38 | an `onload`, `onerror` or `onclick` assignment, in any case, is refused |
| Security.SafeTextAccepted | security.py:17-46 | a non-empty text within the limit without '<', ':' or '=' is accepted |
| Security.FirstClose | security.py:57 | the first '>' in the text, or none when it has none |
| Security.StripTags | security.py:57 | stripping tags never lengthens the text |
| Security.StripTagsOfPlain | security.py:57 | text without '<' is unchanged |
| Security.LeadingTag | security.py:57 | a whole tag at the start is removed and stripping continues after it |
| Security.StripTagsRemovesTag | security.py:57 | a whole tag after tag-free text is removed and stripping continues after it |
| Security.ChainIsHtmlEscape | security.py:60-64 | the five replacements in this order escape each character exactly as HTML escaping does |
| Security.SanitizeText | security.py:48-66 | empty stays empty; otherwise the tags are stripped and the text escaped, so no markup character or quote is left |
| Security.SanitizeOfPlain | security.py:48-66 | text with nothing to strip or escape is unchanged |
| Security.ScriptTagsStripped | security.py:56-57 | a one-line script element loses both tags and keeps its body |
| Security.SanitizeStripsScript | security.py:48-66 | a script element comes back as its escaped body alone, not as the whole markup escaped; tests.py:61-65 expects the latter, and the model follows the code |
| Security.ValidateDateFormat | security.py:68-96 | an accepted text is ten characters, or eleven with a trailing newline |
| Security.DateAccepts | security.py:68-96 | a DD.MM.YYYY text is accepted exactly when its numbers are in range |
| Security.TrailingNewlineIgnored | security.py:77-78 | one trailing newline does not change the verdict |
| Security.DateChecksAgree | security.py:68-96 | on DD.MM.YYYY texts this check and the application's check agree |
| Security.RateKeyInjective | security.py:115 | distinct actions or windows never share a key |
| Security.RateLimitCheck | security.py:98-135 | only that key of that user changes; the call is allowed exactly when fewer than the limit are within the window, and it is then recorded |
| Tarot.AvailableSpreads | app/shared/tarot_service.py:99-110 | a spread is in the result exactly when it is one of the spreads and is offered to the user, and the result is no longer than the spreads |
| Tarot.AvailableInOrder | app/shared/tarot_service.py:104-110 | the comprehension keeps the spreads' order: the k-th result is the spread at the k-th offered position, those positions strictly increase, and a position is listed exactly when its spread is offered |
| Tarot.AvailableLookup | app/shared/tarot_service.py:99-110 | looked up by key, the result holds a spread exactly when it exists and is offered to the user |
| Tarot.PremiumSeesMore | app/shared/tarot_service.py:105-109 | a premium user is offered every spread a free user is |
| Tarot.AllCards | app/shared/tarot_service.py:137-162 | the loop builds the deck: majors first, then the minors unless only majors are asked for |
| Tarot.MinorCardsOrdered | app/shared/tarot_service.py:154-160 | the minor cards come suit by suit in the order of the suits, each carrying its suit |
| Tarot.DeckLayout | app/shared/tarot_service.py:137-162 | the majors come first in data order, then only minor cards, in the order wands, cups, swords, pentacles; only-majors gives just the majors |
| Tarot.DeckDistinct | app/shared/tarot_service.py:137-162 | with distinct keys in the data, the deck holds no card twice |
| Tarot.SamplePositions | app/shared/tarot_service.py:182 | the sample is `count` distinct positions within the deck |
| Tarot.Face | app/shared/tarot_service.py:185-199 | a drawn card keeps the deck card's key, type and suit, and takes the given orientation |
| Tarot.DrawRandomCards | app/shared/tarot_service.py:165-201 | a negative count fails; otherwise the count capped at the deck size is drawn from distinct deck positions, and none is reversed when reversal is off |
| Tarot.DrawnAreDistinct | app/shared/tarot_service.py:165-201 | the drawn cards are distinct deck cards |
| Tarot.DetectContext | app/shared/tarot_service.py:204-231 | the context is one of four, and "general" for no question |
| Tarot.KeywordFound | app/shared/tarot_service.py:218-231 | a keyword anywhere in the question, in any case, is found |
| Tarot.LoveWins | app/shared/tarot_service.py:220-223 | any love keyword makes the context "love" |
| Tarot.CareerBeatsHealth | app/shared/tarot_service.py:224-227 | a career keyword gives "career" unless a love keyword is present |
| Tarot.HealthLast | app/shared/tarot_service.py:228-231 | a health keyword gives "health" unless a love or career keyword is present |
| Tarot.ContextIgnoresCase | app/shared/tarot_service.py:204-231 | the context does not depend on the question's case |
| Tarot.CardInterpretation | app/shared/tarot_service.py:234-272 | a list gives one of its texts, a string itself, anything else or a missing card the unavailable text, broken data the failure text |
| Tarot.UnknownCardUnavailable | app/shared/tarot_service.py:234-272 | a card missing from the data reads as unavailable |
| Tarot.MajorTextReturned | app/shared/tarot_service.py:234-272 | a major card with a string for the context gives that string for every draw |
| Tarot.InterpretSpread | app/shared/tarot_service.py:275-318 | an unknown spread gives no readings; otherwise one reading per card, with that position's name and meaning and the card's interpretation |
| Tarot.PositionLabelsDistinct | app/shared/tarot_service.py:275-318 | positions beyond the spread's list get numbered labels, all different |
| Tarot.VerdictOf | app/shared/tarot_service.py:341-348 | the keyword scan answers yes, no or maybe |
| Tarot.FormatYesNo | app/shared/tarot_service.py:321-352 | without a yes/no spread the answer is "maybe" with no explanation; otherwise the explanation is the card's general interpretation |
| Tarot.ListsDecideFirst | app/shared/tarot_service.py:321-352 | a listed card is answered by its list, "yes" before "no" before "maybe" |
| Tarot.RefusalAnswersNo | app/shared/tarot_service.py:321-352 | an unlisted card whose interpretation contains "нет" is answered "no" |
| Admin.TokenAction | app/features/admin/router.py:35-39 | a token names an action only when it is one of the allowed actions |
| Admin.ExtractActionAndTarget | app/features/admin/router.py:23-53 | the loop yields the first action and the first id in the arguments, and the action is always an allowed one |
| Admin.ActionOrTarget | app/features/admin/router.py:35-46 | no token is both an action and a user id |
| Admin.StripPunctLower | app/features/admin/router.py:35-39 | stripping ',' and '.' commutes with lowering |
| Admin.ScanFindsFirst | app/features/admin/router.py:26-46 | the scan finds the first action and the first id; later ones, blank tokens and usernames are ignored |
| Admin.ExtractedIsFirst | app/features/admin/router.py:23-53 | the first action or "toggle", and the first id or the caller |
| Admin.SkippedTokenIgnored | app/features/admin/router.py:28-33 | a blank token or a username anywhere changes nothing |
| Admin.DoubleSignIgnored | app/features/admin/router.py:41-46 | a token with two or more '+' before its digits is not an id |
| Admin.DigitsRead | app/features/admin/router.py:41-46 | a bare run of digits names the user with that id |
| Admin.Desired | app/features/admin/router.py:93-99 | "on" asks for active, "off" for inactive, anything else for the opposite of now |
| Admin.PremiumAdminCommand | app/features/admin/router.py:58-125 | a non-admin is refused and "help" shows usage, with the store untouched; otherwise the target's record is fetched (created, and for an administrator synced with the admin mode) and written back, its state is shown when the action would not change it, and otherwise the flipped state is stored with no expiry and reported |
| Admin.UnrecordedAdminTarget | app/features/admin/router.py:78-80 | an administrator with no stored record reads as premium, so "status" reports active and "toggle" switches premium off |
| Admin.ActionsReachTheirState | app/features/admin/router.py:93-108 | "on" ends active, "off" inactive, and "toggle" always flips |
| Compatibility.ScoreOf | app/features/compatibility/router.py:73-81 | the score is 3, 5, 7 or 9, and 9 exactly for equal numbers |
| Compatibility.Compare | app/features/compatibility/router.py:68-81 | the score is the band of the distance between the two numbers |
| Compatibility.ScoreNonIncreasing | app/features/compatibility/router.py:73-81 | a larger distance never scores higher |
| Compatibility.CompareSymmetric | app/features/compatibility/router.py:68-81 | the order of the two dates does not matter |
| Compatibility.ScoreBands | app/features/compatibility/router.py:73-81 | 1–2 apart scores 7, 3–4 scores 5, 5 or more scores 3 |
| Compatibility.SecondDate | app/features/compatibility/router.py:52-106 | an invalid date asks again; a valid one over the limit is refused; a valid one within the limit is always scored, comparing the stored first date's life path with the second date's, with the score and description of their distance |
| Compatibility.SameDatePerfect | app/features/compatibility/router.py:52-81 | a date compared with itself scores 9 |
| Compatibility.OnlyInvalidDateKeepsState | app/features/compatibility/router.py:53-66 | the conversation continues exactly when the date is invalid |

Some definitions are the models of source functions but carry no contract of
their own; the rows citing the same lines specify them:

- BirthProfiles.Upsert (`upsert_profile`): BirthProfiles.UpsertMerge, BirthProfiles.UpsertNormalizes, BirthProfiles.UpsertNoChange and BirthProfiles.BirthProfileStorage.UpsertProfile.
- SharedStorage.ResetIfNewDay (`_update_daily_cache_if_needed`): SharedStorage.ResetRules, SharedStorage.ResetKeepsTodaysSpreads and SharedStorage.ResetIdempotent.
- SharedStorage.StreakUpdate (`update_streak`): SharedStorage.NextStreak, SharedStorage.StreakRules, SharedStorage.LongestCoversCurrent and SharedStorage.StreakSameDayStable.
- Numerology.ValidateDate (`validate_date`): Numerology.ValidateDateIsCalendar.
- AppSecurity.ValidateDateFormat (`validate_date_format`): AppSecurity.DateFormatAccepts and AppSecurity.DateFormatShape.
- Strings.ParseInt (`int()` on text): Strings.ParseIntRoundTrip, Strings.ParseIntUnderscored and Strings.MisplacedUnderscoreRefused.
- Admin.TokenTarget (the id branch of the argument scan): Admin.DigitsRead, Admin.DoubleSignIgnored and Admin.ActionOrTarget.
- Scheduler.DailyText (the daily text choice): Scheduler.DailyTextChoice and Scheduler.DailyOptions.
- Tarot.Deck (`get_all_cards`): Tarot.DeckLayout, Tarot.DeckDistinct and Tarot.MinorCardsOrdered.
- Tarot.Resolve (the card lookup of `get_card_interpretation`): Tarot.CardInterpretation, Tarot.UnknownCardUnavailable and Tarot.MajorTextReturned.
- RootStorage.Updated (`update_user`): RootStorage.UpdateMerges.
- RootStorage.Doomed (the clean-up test of `cleanup_old_data`): RootStorage.GarbledIsDoomed and RootStorage.UserStorage.CleanupOldData.

## Left out

- File and JSON I/O: every load and save, backups, the debounced asynchronous save of app/shared/storage.py, and the lazy module caches of the tarot data and the number texts. The loaded data are parameters.
- Telegram handlers, keyboards, conversation states, the scheduler's polling loop, retries, message sending and logging.
- flatlib: the planet positions and house cusps come from an oracle function. `ZoneInfo` offset resolution is also a parameter: a zone set for `validate_timezone`, an offset function for the ephemeris.
- Floating point: longitudes, orbs and coordinates are exact reals. The cosine illumination of the lunar planner is a parameter (then clamped, as the source does). `round(orb, 2)` is left abstract.
- Randomness: `random.choice` and `random.sample` become chooser indices, so the properties state membership and distinctness, not distribution.
- Clock: `datetime.now()` and `time.time()` are an integer parameter. The record time stamps are parsed values, not their text.
- Text: lower-casing covers ASCII and basic Cyrillic (А–Я, Ё) only. The whitespace of `strip()`, `split()` and `int()` is the set `str.isspace()` accepts. The regular-expression engine and `html.escape` are modelled by the character-level functions they compute on these inputs.
- `MASTER_NUMBERS` and the other tables of modules not shown are parameters. Every property holds for any value of them.
- The exception branches that only catch I/O or type errors are not modelled: the error fallback of `rate_limit_check` in app/security.py, `get_user` returning `{}` in storage.py, and the "try again later" text of `get_text`. The exception paths that parse user input are modelled as error results.
- Retrograde `format_pre_alert`, `format_start_alert` and `format_summary`: only their day count and plural form are modelled, not their message texts.
- Scheduler: the weekly digest, the daily transit forecasts and `send_test_notification` are left out. They are message assembly and sending around services that are modelled.
- Admin and compatibility handlers: the reply texts are left out, and so are the achievement and streak updates the compatibility handler makes after scoring.
- `get_name_number_description`: a random choice from message tables with a fallback, holding no rule beyond the lookup.
- Plain one-field reads and writes are left out, because they hold no rule:
  - app/shared/storage.py: `get_today_diary_count`, `add_diary_observation`, `get_usage_stats`, `get_all_users`, `get_retro_alert_state`, `get_users_with_notifications`, the daily-number and tarot cache getters and setters, `get_streak`, `get_achievements`, `get_stats`, `increment_stat`, `get_daily_challenges`;
  - storage.py: `get_all_users`, `get_users_with_notifications`;
  - app/shared/birth_profiles.py: `get_profile`, `get_all_profiles`.
- Integers are unbounded, as Python's are: no wrap-around exists to model.
- BirthProfiles.ValidateBirthDate, BirthProfiles.ValidateBirthTime: `strptime`'s `\d` also matches non-ASCII decimal digits (Arabic-Indic, full-width, and so on); the model reads ASCII digits only, so such input is refused.
- Formatters.ParseIsoDate, Formatters.ParseIsoDateNeedsTime, Formatters.FormatIsoToDisplay, ForecastRouter.IsoToDisplay, Forecast.ParseBirthDate, Forecast.ParseDateTime: the source pins no Python version; the model follows `datetime.fromisoformat` as CPython 3.7 to 3.10 implement it in C (`parse_isoformat_time` and its field reader `parse_hh_mm_ss_ff`). That reader takes "YYYY-MM-DD" alone or with any one separator and a time part. The time part is up to three two-digit fields, a fraction of exactly 3 or 6 digits after '.' following any field or after ':' following the seconds, and, before an offset sign, any one ASCII character ending the clock. An offset is five, eight or fifteen characters after the sign read by the same reader to its end, with no range check on its fields, and shorter than a day in total. A NUL as the last character of the text, right after a clock field, is accepted. Python 3.11 and later read a different, wider grammar (the basic format without separators, week dates, fractions of other lengths, a 'Z'); the model does not follow it. The time of day itself is not kept, since every caller keeps only the date.
- Tarot.InterpretSpread, Tarot.FormatYesNo: a spread stored as an empty object `{}` is falsy in app/shared/tarot_service.py:291 and 329, so the source takes the "no spread" branch for it; the model takes that branch only when the spread key is missing, and reads an empty spread as one with no positions and no interpretations.
- Strings.ParseInt: models `int()` on text with ASCII digits only. Surrounding whitespace, a sign and single underscores between digits are read as Python reads them, but non-ASCII decimal digits (Arabic-Indic, full-width and so on) make the model refuse text that `int()` accepts. The callers inherit this gap: Numerology.ValidateDate, Scheduler.ClockFields and Scheduler.ParseNotificationTime, Forecast.ParseTime, and Ephemeris.NormalizeHouseId.
- Security.ValidateDateFormat: the pattern's `\d` at security.py:77 also matches non-ASCII decimal digits; the model reads ASCII digits only, so such input is refused.
- AppSecurity.ValidateDateFormat, Admin.TokenTarget: `str.isdigit()` also accepts non-ASCII digits (superscripts, Arabic-Indic, full-width and so on); the model accepts ASCII digits only, so such input is refused.
- BuildWindow: which cached days survive each pruning is stated by `ComputeDay` one call at a time, not as a closed form over the whole window; the contract says which keys a new entry can have, not that its value is the day computed afresh (that is stated per call by `ComputeDay`).

## Findings

| source | as written | input that shows it | evidently intended | confidence | as-written member | corrected member |
|---|---|---|---|---|---|---|
| app/storage.py:85-102, 126-131 | the day reset never zeroes the `requests` counter that `can_make_request` counts and compares with 20 | 21 calls to `can_make_request` on one day; every call on any later day is refused | the request limit is daily (the comment at line 130) and recovers on a new day | high; not executed | AppStorage.RequestsNeverRecoverAsWritten | AppStorage.NewDayAllowsRequest |
| app/storage.py:85-102, 148-155 | the day reset zeroes `usage_stats.repeat_views`, but `can_view_cached_result` reads the top-level `repeat_views`, which nothing resets | 100 calls to `increment_repeat_view`; `can_view_cached_result` is false on every later day | the repeat-view limit is reset with the other daily counters | high; not executed | AppStorage.RepeatViewsNeverRecoverAsWritten | AppStorage.NewDayAllowsRepeatView |

The application store class in the model keeps the code as written: its reset is `AppStorage.DayResetAsWritten`, and `can_make_request` and `can_view_cached_result` run no reset at all. `AppStorage.DayReset` is the corrected reset, the `NewDay...` lemmas prove the intended daily limits about it, and `AppStorage.DayResetRefinesAsWritten` proves that the two resets differ only in those two counters.
