# UniHustle matching core, modelled in Dafny

UniHustle ranks part-time jobs for students. This project models its
scoring core:

- **the schedule analyzer** (`ScheduleAnalyzer`). It compares a student's
  weekly classes with a job's weekly shifts. It reports overlaps, impossible
  commutes and tight timings. It turns the counts into a 0–100 score with a
  label: "Perfect Fit", "Good Fit", "Challenge" or "Conflict".
- **the city location matcher** (`CityLocationMatcher`). It is built from a
  preference mapping: primary city, preferred cities, and whether the student
  is open to other cities. It places a job's city in one of six tiers:
  1 remote or own city (the two share the tier), 2 preferred, 3
  nearby-and-open, 4 nearby-not-open, 5 other region, 6 too far. A fixed table lists the nearby cities of eight UK anchor
  cities.
- **the matching engine** (`MatchingEngine`). It computes five sub-scores:
  schedule, distance, skills, salary and role preference. It combines them
  with fixed weights: location 0.45, schedule 0.25, skills 0.15,
  preferences 0.10 and salary 0.05.
- **job normalisation** (`normalize_job_data`). It maps a scraped record onto
  the common job fields, falling back from source-specific keys to generic
  ones. It applies the "weekend" shift heuristic to the description.

Modules:

| module | file | contents |
|---|---|---|
| `Wrappers` | `wrappers.dfy` | `Option` and `Result` |
| `Text` | `text.dfy` | ASCII lower-casing, substring search (`Contains`, with `Occurs` as its reference definition), Python's `strip`, `split(',')` and its inverse `Join` |
| `Scheduler` | `scheduler.dfy` | the analyzer |
| `LocationMatcher` | `location_matcher.dfy` | the matcher |
| `Matching` | `matching.dfy` | the engine |
| `Normalization` | `normalization.dfy` | field mapping and shift heuristic |
| `Scenarios` | `scenarios.dfy` | the cases of the repository's test scripts, stated as lemmas |

Python semantics are written out where they matter:

- Truthiness: `None`, `""`, `0` and `0.0` are false.
- `a or b` picks the first truthy value.
- `x in s` on strings is substring containment.
- `strip()` removes Python's whitespace set.
- `split(',')` keeps empty pieces.

Times are minutes since midnight. A time that is missing or cannot be parsed
becomes midnight, as `_to_time` does.

## Model

| member | source | states |
|---|---|---|
| Scheduler.ToMinutes | backend/app/services/scheduler.py:90-104 | a parsed clock time is kept as its minute of the day; a missing or unreadable time becomes midnight |
| Scheduler.OverlapsIffSharedMinute | backend/app/services/scheduler.py:77-79 | `max(s1,s2) < min(e1,e2)` holds exactly when some minute lies in both half-open ranges, so ranges that only touch do not overlap |
| Scheduler.GapVerdict | backend/app/services/scheduler.py:42-67 | a gap shorter than the commute is a conflict; a gap shorter than commute + 15 minutes is one tight-timing warning; a longer gap reports nothing; every message carries the day, the side and the gap |
| Scheduler.CheckClass | backend/app/services/scheduler.py:32-67 | one class against one shift: an overlap is reported exactly when the ranges share a minute; for well-formed ranges the gap alone decides the conflict and the warning count, on either side; touching ranges produce nothing |
| Scheduler.CheckClassMessages | backend/app/services/scheduler.py:37-66 | an overlap message names the day, the shift and the class; a commute or tight-timing message names the day and its side, and its gap is the class end to shift start (class first) or the shift end to class start (shift first), measured only when that side applies |
| Scheduler.ScanVerdictsExact | backend/app/services/scheduler.py:31-67 | scanning per-class verdicts stops at the first conflict: its conflict is that class's, and its warnings are the warnings of every class up to and including that one, in class order, and of all classes when none conflicts |
| Scheduler.ScanClasses | backend/app/services/scheduler.py:31-40 | the shift has a conflict exactly when some same-day class gives one; at most two warnings per class, all of them tight-timing messages |
| Scheduler.ScanClassesExact | backend/app/services/scheduler.py:31-67 | no class before the first conflicting one conflicts; the reported conflict is that class's; the warnings are those of the classes up to and including it, in order |
| Scheduler.SameDay | backend/app/services/scheduler.py:29 | every selected class comes from the timetable and is held on the shift's lower-cased day, and every timetable class held on that day is selected; never longer than the timetable |
| Scheduler.SameDayExists | backend/app/services/scheduler.py:29-32 | some selected class satisfies a condition exactly when some timetable class on the same (case-insensitive) day does |
| Scheduler.ShiftVerdict | backend/app/services/scheduler.py:23-40 | the shift conflicts exactly when some timetable class on the same case-insensitive day conflicts with it; every message is correctly tagged |
| Scheduler.SameDayAppend | backend/app/services/scheduler.py:29 | selecting a day's classes distributes over concatenation of timetables |
| Scheduler.TallyVerdicts | backend/app/services/scheduler.py:20-70 | each shift adds at most one conflict; the counters equal the lengths of the message lists; the conflict count is zero exactly when no shift has a conflict |
| Scheduler.TallyVerdictsExact | backend/app/services/scheduler.py:20-70 | the conflict counter is the number of verdicts with a conflict; the conflicts are the verdicts' conflicts and the warnings all the verdicts' warnings, in verdict order |
| Scheduler.TallyShifts | backend/app/services/scheduler.py:14-70 | the run over all shifts: the counter is the number of shifts with a conflict; conflicts and warnings are listed shift by shift; no conflicts exactly when no shift conflicts with a same-day class |
| Scheduler.ScheduleScore | backend/app/services/scheduler.py:107-123 | score in 0..100; any conflict caps it at 40; conflicts in more than half the shifts give 0; without conflicts it is 100 exactly when there is no tight timing, and at least 60 exactly when there are at most 4 |
| Scheduler.ScheduleScoreSteps | backend/app/services/scheduler.py:107-123 | no conflict and no warning is 100; each further warning takes 10 off, never below 0; one conflict among two or more shifts is 40; each further conflict within half the shifts takes 10 off; once there is a conflict, warnings no longer matter |
| Scheduler.StatusOf | backend/app/services/scheduler.py:125-129 | "Perfect Fit" exactly at 100, "Conflict" exactly below 60, "Good Fit" at 80 and above, "Challenge" in 60..79 |
| Scheduler.StatusMonotone | backend/app/services/scheduler.py:125-129 | a higher score never gets a worse label |
| Scheduler.AnalyzeFit | backend/app/services/scheduler.py:9-75 | no shifts gives 100 "Perfect Fit" flexible; with shifts, 100 exactly when nothing is reported; conflicts come before warnings; any conflict gives "Conflict" and at most 40; majority conflicts give 0; the label matches the score |
| Scheduler.AnalyzeFitCounts | backend/app/services/scheduler.py:14-75 | with shifts, the analysis is all shifts' conflicts in shift order followed by all their warnings, and the score is the scoring rule applied to the number of conflicting shifts and the number of warnings |
| Scheduler.OtherDaysIrrelevant | backend/app/services/scheduler.py:23-29 | adding classes on days with no shift leaves the result unchanged |
| Scheduler.TallyOtherDays | backend/app/services/scheduler.py:23-29 | the counters ignore classes on days with no shift |
| Scheduler.NoSharedDayIsPerfect | backend/app/services/scheduler.py:14-75 | when no class shares a (case-insensitive) day with a shift, the result is 100, "Perfect Fit", with an empty message list |
| Scheduler.EmptyTimetableTally | backend/app/services/scheduler.py:20-70 | an empty timetable produces no messages and zero counters |
| Scheduler.OneShiftTally | backend/app/services/scheduler.py:23-70 | a single shift's run consists of that shift's verdict |
| Scheduler.OneShiftFit | backend/app/services/scheduler.py:14-75 | a single shift's result: scored as one shift with one or no conflict and that shift's warnings, its conflict (if any) listed before its warnings |
| Text.LowerIdempotent | backend/app/services/scheduler.py:24 | lower-casing twice equals lower-casing once |
| Text.ContainsIffOccurs | backend/app/services/matching.py:124 | the recursive substring test agrees with "the needle is a prefix of some suffix" |
| Text.Strip | backend/app/services/location_matcher.py:92 | the result is a contiguous part of the input, with only whitespace cut from either end and no whitespace at its own ends |
| Text.SplitJoin | backend/app/services/location_matcher.py:55 | joining the pieces of `split(',')` with commas gives back the text |
| Text.BeforeFirst | backend/app/services/location_matcher.py:92 | `split(',')[0]` is a comma-free prefix ending at the first comma or at the end |
| Text.SplitTwo | backend/app/services/location_matcher.py:55 | text with a single separator splits into its two sides |
| LocationMatcher.PreferredFrom | backend/app/services/location_matcher.py:53-57 | non-empty comma-separated text gives one city per `split(',')` piece, that piece stripped, with no comma in it; empty text and a missing entry give no cities; a list is taken as it is |
| LocationMatcher.StripStaysInside | backend/app/services/location_matcher.py:55 | stripping never introduces a character |
| LocationMatcher.NewMatcher | backend/app/services/location_matcher.py:45-78 | a given primary city is kept; a missing one becomes the first preferred city; a non-empty primary always ends up among the preferred cities; the stored list comes first, in order, and at most the primary is appended: nothing is appended when the primary is empty or already preferred, and an appended element is the primary |
| LocationMatcher.JobCity | backend/app/services/location_matcher.py:86-92 | the job city has no comma and no surrounding whitespace; a missing name gives ""; a name without a comma is stripped as a whole, and a bare trimmed name is kept as it is |
| LocationMatcher.JobCityBeforeComma | backend/app/services/location_matcher.py:92 | for any name, the city is the text before its first comma, stripped; what follows the comma is ignored |
| LocationMatcher.AnyTargetIn | backend/app/services/location_matcher.py:184-187 | true exactly when some non-empty target, lower-cased, occurs in the lower-cased city |
| LocationMatcher.IsCityMatch | backend/app/services/location_matcher.py:181-187 | case-insensitive containment of some non-empty target; an empty city or target list never matches |
| LocationMatcher.RegionInfo | backend/app/services/location_matcher.py:189-198 | an exact-key lookup in the table of anchor cities |
| LocationMatcher.LocationScore | backend/app/services/location_matcher.py:80-179 | each tier from 1 to 6 is characterised exactly by the remote flag, preferred match, primary match, nearby match and openness; the score is the tier's score; hidden exactly from tier 4 on; excluded exactly at tier 6, exactly when the score is 0; the badge is "REMOTE" or "YOUR CITY" at tier 1, "PREFERRED" at 2, "NEARBY" at 3 and 4, "OTHER" at 5, "TOO FAR" at 6 |
| LocationMatcher.TierScoreDecreasing | backend/app/services/location_matcher.py:95-179 | scores strictly decrease from tier 1 to tier 6 |
| LocationMatcher.PrimaryCityIsTierOne | backend/app/services/location_matcher.py:72-117 | for a matcher built from preferences, a job in the primary city is tier 1 with score 100, because construction puts the primary among the preferred cities |
| LocationMatcher.UnknownPrimaryHasNoNearbyTier | backend/app/services/location_matcher.py:129-135 | a primary city outside the table never yields a nearby tier |
| LocationMatcher.OpennessNeverLowersScore | backend/app/services/location_matcher.py:136-179 | being open to other cities never lowers a location score |
| Matching.DistanceScore | backend/app/services/matching.py:90-94 | the distance step function takes only the values 100/85/70/50/0; 100 exactly below one mile, 85 exactly in [1, 3), 70 exactly in [3, 5), 50 exactly in [5, 10), 0 exactly from ten miles |
| Matching.DistanceScoreNonIncreasing | backend/app/services/matching.py:90-94 | a longer distance never scores higher |
| Matching.LegacyLocationScore | backend/app/services/matching.py:77-94 | 50 unless both points have a truthy latitude, otherwise the distance step |
| Matching.LowerAll | backend/app/services/matching.py:102-103 | every skill's lower-cased form is in the image; the image is empty exactly when the set is |
| Matching.Percent | backend/app/services/matching.py:109-110 | the result is the floor of 100·k/n; when k ≤ n it is at most 100, and exactly 100 when k = n |
| Matching.PercentLimits | backend/app/services/matching.py:109-110 | the bounds of that floor, from the floor inequalities alone |
| Matching.Hits | backend/app/services/matching.py:116-126 | the counted skills are exactly the user's skills found in the lower-cased description |
| Matching.KeywordScore | backend/app/services/matching.py:127-136 | 40 for no hit, 60 for one, 80 for two, 100 for three or more |
| Matching.KeywordScoreNonDecreasing | backend/app/services/matching.py:127-136 | more hits never score lower |
| Matching.SkillsScore | backend/app/services/matching.py:96-136 | with job skills: 0 with no user skills or no overlap, 100 exactly when the job's skills are all the user's, otherwise the floored overlap percentage; without job skills: 100 with no user skills, else the keyword score of the number of lower-cased user skills occurring in the lower-cased description |
| Matching.OverlapScore | backend/app/services/matching.py:106-110 | the floored percentage of the job's skills the user has: 0 without user skills or overlap, 100 exactly when all are covered |
| Matching.KeywordFallback | backend/app/services/matching.py:114-136 | the keyword score of the number of skills found in the description; 40 exactly when none is found |
| Matching.SalaryScore | backend/app/services/matching.py:138-169 | 100 with no requirement, 50 with no job minimum; otherwise 100/85/60/0 are each characterised exactly by the hourly minimum, the hourly maximum and the 90% margin |
| Matching.YearlyIsHourlyEquivalent | backend/app/services/matching.py:146-156 | a yearly figure scores exactly as its hourly equivalent (÷1950) does |
| Matching.SalaryMonotoneInPay | backend/app/services/matching.py:158-169 | between two non-zero job minimums, the higher never gives the lower salary score |
| Matching.ZeroMinimumIsNeutral | backend/app/services/matching.py:143-169 | a zero job minimum counts as missing and scores 50, while a minimum of 1 against a need of 20 scores 0, so the score is not monotone at zero |
| Matching.RoleFound | backend/app/services/matching.py:181 | true exactly when some desired role, lower-cased, occurs in the title |
| Matching.PreferenceScore | backend/app/services/matching.py:171-185 | 50 exactly when roles are given and none occurs in the lower-cased title, 100 otherwise |
| Matching.EmptyRoleMatchesEveryTitle | backend/app/services/matching.py:179-182 | an empty desired role matches any title |
| Matching.WeightsSumToOne | backend/app/services/matching.py:10-16 | the five weights add up to one |
| Matching.WeightedTotal | backend/app/services/matching.py:56-63 | for in-range sub-scores the total is in 0..100; 100 exactly when all are 100; 0 exactly when all are 0 |
| Matching.TotalMonotone | backend/app/services/matching.py:56-63 | raising any sub-score never lowers the total |
| Matching.CalculateMatch | backend/app/services/matching.py:18-75 | the total is the weighted sum of the reported sub-scores with no multiplier; the breakdown holds each raw sub-score; the schedule analysis is passed through; total 100 exactly when every sub-score is 100 |
| Normalization.FirstTruthy | backend/app/scrapers/normalization.py:11-14 | `a or b`: the first key's value when truthy, otherwise the second's; truthy when either is |
| Normalization.ParseSalary | backend/app/scrapers/normalization.py:47-53 | falsy input gives no salary; a truthy number is kept |
| Normalization.ExtractShifts | backend/app/scrapers/normalization.py:61-93 | two shifts, Saturday then Sunday, both 10:00–16:00, exactly when "weekend" occurs in the lower-cased text; otherwise none |
| Normalization.ExtractShiftsIgnoresCase | backend/app/scrapers/normalization.py:81 | lower-casing the description first changes nothing |
| Normalization.ShiftsOf | backend/app/scrapers/normalization.py:26 | falsy description gives no shifts; text goes through the heuristic; only a truthy non-text value fails |
| Normalization.NormalizeJob | backend/app/scrapers/normalization.py:5-28 | fails exactly when the chosen description is a non-zero number; every field takes the source-specific key when truthy and the generic one otherwise; currency defaults to "GBP" only when the key is absent; source and time are passed through; the job is active; shifts come from the description |
| Normalization.WeekendShiftsFitWeekdayTimetable | backend/app/scrapers/normalization.py:80-93 | heuristic shifts fit perfectly around a timetable without weekend classes |
| Scenarios.TuesdayShiftIsPerfect | backend/test_scheduler.py:13-16 | the Tuesday shift against the Monday/Wednesday timetable: 100, "Perfect Fit", no messages |
| Scenarios.OverlappingSingleShiftScoresZero | backend/test_scheduler.py:18-21 | the Monday 10–14 shift overlaps the 9–11 class: one overlap message, score 0, "Conflict" |
| Scenarios.LunchShiftHasTwoTightGaps | backend/test_scheduler.py:23-27 | the Monday 11:30–13:30 shift has 30-minute gaps after the 9–11 class and before the 14:00 lab: two warnings, 80, "Good Fit" |
| Scenarios.ThirtyMinuteGapIsOneWarning | backend/test_scheduler.py:23-27 | against the 9–11 class alone, the same shift gets one warning: 90, "Good Fit" |
| Scenarios.EveningShiftIsPerfect | backend/test_scheduler.py:29-33 | the Monday 17–20 shift leaves an hour after the lab: 100, "Perfect Fit" |
| Scenarios.NoShiftsIsFlexible | backend/app/services/scheduler.py:16-18 | a job without shifts is flexible, 100, "Perfect Fit" |
| Scenarios.HalfTheJobSkills | backend/test_matching_real.py:7-13 | {python, flask} against {python, react} gives 50 |
| Scenarios.DescriptionMentionsSkill | backend/test_matching_real.py:15-22 | no job skills and "Python" in the description: one hit, 60 |
| Scenarios.OneSkillFound | backend/app/services/matching.py:114-134 | one lower-case skill found in the description scores 60 |
| Scenarios.YearlySalaryCases | backend/test_matching_real.py:24-35 | need 15 against 20/hour: 100; against 30000/year: 100; need 20 against 30000/year: 0 |
| Scenarios.PerfectJobScoresHundred | backend/test_matching.py:17-43 | job A at distance 0: every sub-score 100, total 100 |
| Scenarios.PoorJobScoresFive | backend/test_matching.py:29-49 | job B at ten miles or more: sub-scores 0/0/0/0 and preference 50, total 5 |
| Scenarios.LondonStudentBuilt | backend/app/services/location_matcher.py:72-78 | primary London with preferred [Manchester] becomes preferred [Manchester, London] |
| Scenarios.CommaSeparatedPreferences | backend/app/services/location_matcher.py:53-55 | "Leeds, York" gives ["Leeds", "York"] |
| Scenarios.PrimaryFromFirstPreferred | backend/app/services/location_matcher.py:72-74 | without a primary city, the first preferred city becomes primary |
| Scenarios.LondonUkCity | backend/app/services/location_matcher.py:90-92 | "London, UK" reads as the city "London" |
| Scenarios.OwnCityJob | backend/app/services/location_matcher.py:105-117 | a job in "London, UK" for a London student: "YOUR CITY", 100, tier 1 |
| Scenarios.PreferredCityJob | backend/app/services/location_matcher.py:118-127 | a job in Manchester for that student: "PREFERRED", 95, tier 2 |
| Scenarios.NearbyCityJob | backend/app/services/location_matcher.py:129-155 | a job in Oxford: 70 at tier 3 when open to other cities, 40 at tier 4 and hidden when not |
| Scenarios.FarCityJob | backend/app/services/location_matcher.py:168-179 | a job in Hull for a student not open to other cities: excluded, 0, "TOO FAR" |
| Scenarios.RemoteJob | backend/app/services/location_matcher.py:94-103 | a remote job is "REMOTE" whatever the preferences |

## Left out

- Haversine distance (`_haversine_distance`, matching.py) is floating-point trigonometry. `CalculateMatch` takes the distance in miles as a parameter instead.
- `round(total_score, 1)` is left out, and so is float rounding in general. Scores and weights are exact reals.
- Matching.Percent: the source computes `int(k / n * 100)` in binary floating point. It can land one below the exact floor: for 29 of 50 skills, `29 / 50 * 100` is 57.99999999999999, so the source gives 57 where the exact floor is 58. The model uses the exact floor.
- The string messages of the analysis are modelled as tagged values carrying day, side and gap. The text and emoji are not modelled.
- A job without shifts gets the fixed string "Flexible schedule - no fixed shifts." in the source. The model uses the constructor `Flexible`.
- Time parsing (`strptime` of `HH:MM:SS` and `HH:MM`) is a parameter: a `RawTime` is a parsed clock time or unreadable. Seconds are not modelled.
- `_time_diff` adds a day when the second time is earlier. It is only called when the second time is later, so that branch never matters here.
- Lower-casing covers ASCII letters only. Python's `str.lower` is Unicode-aware.
- The ORM-object branch of `CityLocationMatcher.__init__` (location_matcher.py:60-70) is left out. Only the mapping branch is modelled.
- When a list of preferred cities is passed in, the source appends the primary city to the caller's own list, which mutates it. The model returns a new list.
- Non-boolean values of `open_to_other_cities`, and `None` entries inside a preferred-city list, are not modelled.
- The `priority`, `badge_color` and `reason` strings are carried as data. No property is stated about them.
- `KeyError` on a missing `lng` or `day`/`start`/`end` key is not modelled. A location is a point or missing.
- Normalization.NormalizeJob:
  - `str(...)` of the external id is not applied, so a missing id stays missing instead of becoming the text "None".
  - `posted_at` is the clock reading passed in as `now` (`_parse_date` ignores its argument and reads the clock).
  - A non-string truthy title or location is carried as a raw value.
- Normalization.ParseSalary: the conversion of text with `float()` is a parameter `parseFloat`. A truthy number is returned as it is.
- The regular expression `time_pattern` in `_extract_shifts` is built but never applied, so it is not modelled.
- `is_duplicate_job` and `_parse_date` need the database and the clock; they are not modelled.
- The heuristic emits shifts keyed `day_of_week`/`start_time`/`end_time`. The analyzer reads `day`/`start`/`end`. The callers (tasks.py, routes.py) rename the keys after storing shifts. The model uses one `Slot` type for both.
- What `calculate_match` does, and the model with it:
  - It scores location by the distance step; it does not call the city matcher.
  - It applies no dealbreaker multiplier to the total.
  - A role mismatch gives a preference score of 50.
  - The breakdown carries the five sub-scores and no tier metadata.
