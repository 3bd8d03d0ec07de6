/**
 * The matching engine: five sub-scores (schedule, distance, skills, salary,
 * role preference) combined with fixed weights into one total.
 */
module Matching {
  import opened Wrappers
  import Text
  import Scheduler

  // ---------------------------------------------------------------- location

  /** A coordinate pair; a missing `lat` is modelled as a missing point. */
  datatype Point = Point(lat: real, lng: real)

  /** The point is usable: present, with a latitude that is not zero. */
  predicate Known(p: Option<Point>) {
    p.Some? && p.value.lat != 0.0
  }

  /** The step function from distance in miles to a score. */
  function DistanceScore(miles: real): (r: int)
    ensures r in {0, 50, 70, 85, 100}
    ensures r == 100 <==> miles < 1.0
    ensures r == 0 <==> miles >= 10.0
    ensures r == 85 <==> 1.0 <= miles < 3.0
    ensures r == 70 <==> 3.0 <= miles < 5.0
    ensures r == 50 <==> 5.0 <= miles < 10.0
  {
    if miles < 1.0 then 100
    else if miles < 3.0 then 85
    else if miles < 5.0 then 70
    else if miles < 10.0 then 50
    else 0
  }

  /** A longer distance never scores higher. */
  lemma DistanceScoreNonIncreasing(d1: real, d2: real)
    requires d1 <= d2
    ensures DistanceScore(d1) >= DistanceScore(d2)
  {
  }

  /**
   * `_calculate_location_score`: neutral 50 unless both points are known,
   * otherwise the step function of `miles`, the great-circle distance the
   * caller computed between them.
   */
  function LegacyLocationScore(user: Option<Point>, job: Option<Point>, miles: real): (r: int)
    ensures r in {0, 50, 70, 85, 100}
    ensures !(Known(user) && Known(job)) ==> r == 50
    ensures Known(user) && Known(job) ==> r == DistanceScore(miles)
  {
    if !Known(user) || !Known(job) then 50 else DistanceScore(miles)
  }

  // ------------------------------------------------------------------ skills

  /** The lower-cased image of a set of skills. */
  function LowerAll(s: set<string>): (r: set<string>)
    ensures forall x {:trigger Text.Lower(x)} :: x in s ==> Text.Lower(x) in r
    ensures |s| > 0 <==> |r| > 0
  {
    set x | x in s :: Text.Lower(x)
  }

  /** Every member of the image is the lower-cased form of some skill. */
  lemma LowerAllOnlyImages(s: set<string>, y: string)
    requires y in LowerAll(s)
    ensures exists x :: x in s && Text.Lower(x) == y
  {
  }

  lemma SubsetCardinality<T>(a: set<T>, b: set<T>)
    requires a <= b
    ensures |a| <= |b|
    ensures |a| == |b| ==> a == b
  {
    assert b == a + (b - a);
    assert a * (b - a) == {};
    if |a| == |b| {
      assert |b - a| == 0;
    }
  }

  lemma FloorBounds(x: nat, n: nat)
    requires 0 < n
    ensures (x / n) * n <= x < (x / n) * n + n
  {
  }

  lemma MulLe(a: int, b: int, n: nat)
    requires a <= b
    ensures a * n <= b * n
  {
    assert b * n - a * n == (b - a) * n;
  }

  /** `int(k / n * 100)` taken in exact arithmetic: the floor of the percentage. */
  function Percent(k: nat, n: nat): (r: nat)
    requires 0 < n
    ensures r * n <= 100 * k < (r + 1) * n
    ensures k <= n ==> r <= 100
    ensures k <= n ==> (r == 100 <==> k == n)
  {
    var r := (100 * k) / n;
    FloorBounds(100 * k, n);
    PercentLimits(k, n, r);
    r
  }

  /** A floor of `100 * k / n` is at most 100 when `k <= n`, and exactly 100 when `k == n`. */
  lemma PercentLimits(k: nat, n: nat, r: nat)
    requires 0 < n
    requires r * n <= 100 * k < r * n + n
    ensures (r + 1) * n == r * n + n
    ensures k <= n ==> r <= 100
    ensures k <= n ==> (r == 100 <==> k == n)
  {
    assert (r + 1) * n == r * n + n;
    if k <= n {
      if r > 100 {
        MulLe(101, r, n);
        assert false;
      }
      if k < n && r == 100 {
        assert false;
      }
      if k == n && r < 100 {
        MulLe(r + 1, 100, n);
        assert false;
      }
    }
  }

  /** The description's lower-cased text, missing text being empty. */
  function LowerDescription(description: Option<string>): string {
    Text.Lower(description.GetOr(""))
  }

  /** The (lower-cased) user skills that occur in the lower-cased description. */
  function Hits(userLower: set<string>, descLower: string): (found: set<string>)
    ensures found <= userLower
    ensures forall s :: s in found <==> s in userLower && Text.Occurs(s, descLower)
  {
    var found := set s | s in userLower && Text.Contains(s, descLower);
    assert forall s :: s in userLower ==> (Text.Contains(s, descLower) <==> Text.Occurs(s, descLower)) by {
      forall s | s in userLower {
        Text.ContainsIffOccurs(s, descLower);
      }
    }
    found
  }

  /** The keyword fallback's scale: 0, 1, 2 and 3+ hits. */
  function KeywordScore(found: nat): (r: int)
    ensures r in {40, 60, 80, 100}
    ensures r == 40 <==> found == 0
    ensures r == 100 <==> found >= 3
    ensures r == 40 + 20 * (if found < 3 then found else 3)
  {
    if found >= 3 then 100
    else if found == 2 then 80
    else if found == 1 then 60
    else 40
  }

  /** More keyword hits never score lower. */
  lemma KeywordScoreNonDecreasing(a: nat, b: nat)
    requires a <= b
    ensures KeywordScore(a) <= KeywordScore(b)
  {
  }

  /** `_calculate_skills_score`: explicit job skills by overlap ratio, otherwise keyword hits in the description. */
  function SkillsScore(user: set<string>, job: set<string>, description: Option<string>): (r: int)
    ensures 0 <= r <= 100
    // Explicit job skills.
    ensures |job| > 0 && |user| == 0 ==> r == 0
    ensures |job| > 0 ==> (r == 100 <==> LowerAll(job) <= LowerAll(user))
    ensures |job| > 0 && LowerAll(user) * LowerAll(job) == {} ==> r == 0
    ensures |job| > 0 && |user| > 0
            ==> var k, n := |LowerAll(user) * LowerAll(job)|, |LowerAll(job)|;
                r * n <= 100 * k < (r + 1) * n
    // No explicit job skills: the keyword fallback.
    ensures |job| == 0 && |user| == 0 ==> r == 100
    ensures |job| == 0 && |user| > 0 ==> r in {40, 60, 80, 100}
    ensures |job| == 0 && |user| > 0
            ==> (r == 40 <==> forall s :: s in LowerAll(user) ==> !Text.Occurs(s, LowerDescription(description)))
    // The fallback scores the number of (lower-cased) user skills found in the lower-cased description.
    ensures |job| == 0 && |user| > 0
            ==> r == KeywordScore(|set s | s in LowerAll(user) && Text.Occurs(s, LowerDescription(description))|)
  {
    var u := LowerAll(user);
    var j := LowerAll(job);
    if |j| > 0 then OverlapScore(u, j)
    else if |u| == 0 then 100
    else KeywordFallback(u, LowerDescription(description))
  }

  /** The explicit-skills branch on lower-cased sets: the floored percentage of the job's skills the user has. */
  function OverlapScore(u: set<string>, j: set<string>): (r: int)
    requires |j| > 0
    ensures 0 <= r <= 100
    ensures |u| == 0 ==> r == 0
    ensures r == 100 <==> j <= u
    ensures u * j == {} ==> r == 0
    ensures |u| > 0 ==> r * |j| <= 100 * |u * j| < (r + 1) * |j|
  {
    if |u| == 0 then 0
    else
      SubsetCardinality(u * j, j);
      var p := Percent(|u * j|, |j|);
      assert p == 100 <==> j <= u by {
        if j <= u { assert u * j == j; }
        if p == 100 { assert u * j == j; }
      }
      if p < 100 then p else 100
  }

  /** The keyword branch on lower-cased skills and description: the scale of the number of skills found. */
  function KeywordFallback(u: set<string>, desc: string): (r: int)
    ensures r in {40, 60, 80, 100}
    ensures r == 40 <==> forall s :: s in u ==> !Text.Occurs(s, desc)
    ensures r == KeywordScore(|set s | s in u && Text.Occurs(s, desc)|)
  {
    var found := Hits(u, desc);
    assert found == set s | s in u && Text.Occurs(s, desc);
    assert |found| == 0 <==> found == {};
    KeywordScore(|found|)
  }

  // ------------------------------------------------------------------ salary

  /** Assumed working hours per year: 52 weeks of 37.5 hours. */
  const HoursPerYear: real := 1950.0

  /** A figure that is present and not zero (Python truthiness). */
  predicate Truthy(x: Option<real>) {
    x.Some? && x.value != 0.0
  }

  /** The salary type says "yearly", in any letter case. */
  predicate IsYearly(salaryType: Option<string>) {
    salaryType.Some? && Text.Lower(salaryType.value) == "yearly"
  }

  /** A pay figure converted to an hourly rate. */
  function Hourly(x: real, salaryType: Option<string>): real {
    if IsYearly(salaryType) then x / HoursPerYear else x
  }

  /** `_calculate_salary_score`: how the job's (hourly) pay compares with the student's minimum. */
  function SalaryScore(minNeeded: Option<real>, jobMin: Option<real>, jobMax: Option<real>, salaryType: Option<string>): (r: int)
    ensures r in {0, 50, 60, 85, 100}
    ensures !Truthy(minNeeded) ==> r == 100
    ensures Truthy(minNeeded) && !Truthy(jobMin) ==> r == 50
    ensures Truthy(minNeeded) && Truthy(jobMin)
            ==> var need, low := minNeeded.value, Hourly(jobMin.value, salaryType);
                var maxMeets := Truthy(jobMax) && Hourly(jobMax.value, salaryType) >= need;
                && (r == 100 <==> low >= need)
                && (r == 85 <==> low < need && maxMeets)
                && (r == 60 <==> low < need && !maxMeets && low >= need * 0.9)
                && (r == 0 <==> low < need && !maxMeets && low < need * 0.9)
  {
    if !Truthy(minNeeded) then 100
    else if !Truthy(jobMin) then 50
    else
      var need := minNeeded.value;
      var low := Hourly(jobMin.value, salaryType);
      var high := if Truthy(jobMax) then Some(Hourly(jobMax.value, salaryType)) else jobMax;
      if low >= need then 100
      else if Truthy(high) && high.value >= need then 85
      else if low >= need * 0.9 then 60
      else 0
  }

  /** A yearly figure scores exactly as its hourly equivalent does. */
  lemma YearlyIsHourlyEquivalent(minNeeded: Option<real>, jobMin: real, jobMax: Option<real>, yearly: string)
    requires Text.Lower(yearly) == "yearly"
    ensures SalaryScore(minNeeded, Some(jobMin), jobMax, Some(yearly))
         == SalaryScore(minNeeded, Some(jobMin / HoursPerYear),
                        if jobMax.Some? then Some(jobMax.value / HoursPerYear) else None, None)
  {
  }

  /** Between two non-zero job minimums, the higher never gives the lower salary score. */
  lemma SalaryMonotoneInPay(minNeeded: Option<real>, low1: real, low2: real, jobMax: Option<real>, salaryType: Option<string>)
    requires low1 != 0.0 && low2 != 0.0 && low1 <= low2
    ensures SalaryScore(minNeeded, Some(low1), jobMax, salaryType) <= SalaryScore(minNeeded, Some(low2), jobMax, salaryType)
  {
  }

  /**
   * A job minimum of zero counts as missing and scores the neutral 50, so raising it
   * to a small non-zero figure below the student's need drops the score to 0.
   */
  lemma ZeroMinimumIsNeutral()
    ensures SalaryScore(Some(20.0), Some(0.0), None, None) == 50
    ensures SalaryScore(Some(20.0), Some(1.0), None, None) == 0
  {
  }

  // ------------------------------------------------------------- preferences

  /** Some desired role, lower-cased, occurs in the lower-cased title. */
  function RoleFound(lowerTitle: string, roles: seq<string>): (b: bool)
    ensures b <==> exists k :: 0 <= k < |roles| && Text.Occurs(Text.Lower(roles[k]), lowerTitle)
  {
    if |roles| == 0 then false
    else
      Text.ContainsIffOccurs(Text.Lower(roles[0]), lowerTitle);
      assert forall k :: 1 <= k < |roles| ==> roles[k] == roles[1..][k - 1];
      Text.Contains(Text.Lower(roles[0]), lowerTitle) || RoleFound(lowerTitle, roles[1..])
  }

  /** `_calculate_preference_score`: 50 when roles are given and none is in the title, else 100. */
  function PreferenceScore(roles: seq<string>, title: string): (r: int)
    ensures r == 50 || r == 100
    ensures r == 50 <==> |roles| > 0 && forall k :: 0 <= k < |roles| ==> !Text.Occurs(Text.Lower(roles[k]), Text.Lower(title))
  {
    var score := if |roles| > 0 && !RoleFound(Text.Lower(title), roles) then 100 - 50 else 100;
    if score > 0 then score else 0
  }

  /** An empty desired role matches every title. */
  lemma EmptyRoleMatchesEveryTitle(roles: seq<string>, title: string)
    requires "" in roles
    ensures PreferenceScore(roles, title) == 100
  {
    var k :| 0 <= k < |roles| && roles[k] == "";
    assert Text.Lower("") <= Text.Lower(title)[0..];
  }

  // --------------------------------------------------------------- combining

  datatype Weights = Weights(location: real, schedule: real, skills: real, preferences: real, salary: real)

  /** The engine's fixed weights. */
  const EngineWeights := Weights(0.45, 0.25, 0.15, 0.10, 0.05)

  /** The weights add up to one. */
  lemma WeightsSumToOne()
    ensures EngineWeights.location + EngineWeights.schedule + EngineWeights.skills
            + EngineWeights.preferences + EngineWeights.salary == 1.0
  {
  }

  /** The five raw sub-scores. */
  datatype Breakdown = Breakdown(schedule: int, location: int, skills: int, salary: int, preferences: int)

  predicate InRange(b: Breakdown) {
    && 0 <= b.schedule <= 100 && 0 <= b.location <= 100 && 0 <= b.skills <= 100
    && 0 <= b.salary <= 100 && 0 <= b.preferences <= 100
  }

  /** The weighted sum of the sub-scores. */
  function WeightedTotal(b: Breakdown): (t: real)
    ensures InRange(b) ==> 0.0 <= t <= 100.0
    ensures InRange(b) ==> (t == 100.0 <==> b == Breakdown(100, 100, 100, 100, 100))
    ensures InRange(b) ==> (t == 0.0 <==> b == Breakdown(0, 0, 0, 0, 0))
  {
    var w := EngineWeights;
    b.schedule as real * w.schedule + b.location as real * w.location + b.skills as real * w.skills
    + b.salary as real * w.salary + b.preferences as real * w.preferences
  }

  /** Raising any sub-score never lowers the total. */
  lemma TotalMonotone(b1: Breakdown, b2: Breakdown)
    requires b1.schedule <= b2.schedule && b1.location <= b2.location && b1.skills <= b2.skills
    requires b1.salary <= b2.salary && b1.preferences <= b2.preferences
    ensures WeightedTotal(b1) <= WeightedTotal(b2)
  {
  }

  /** The student profile as the engine reads it. */
  datatype StudentProfile = StudentProfile(
    location: Option<Point>, timetable: seq<Scheduler.Slot>, minSalary: Option<real>,
    skills: set<string>, roles: seq<string>)

  /** The job as the engine reads it. */
  datatype JobData = JobData(
    location: Option<Point>, shifts: seq<Scheduler.Slot>, salaryMin: Option<real>, salaryMax: Option<real>,
    salaryType: Option<string>, skills: set<string>, title: string, description: Option<string>)

  /** The engine's result; the total is the exact weighted sum (before rounding to one decimal). */
  datatype MatchResult = MatchResult(total: real, breakdown: Breakdown, scheduleAnalysis: Scheduler.Analysis)

  /** `calculate_match`; `miles` is the distance between the two points, used only when both are known. */
  function CalculateMatch(student: StudentProfile, job: JobData, miles: real): (r: MatchResult)
    ensures InRange(r.breakdown)
    ensures 0.0 <= r.total <= 100.0
    // No multiplier: the total is the weighted sum of the reported sub-scores.
    ensures r.total == WeightedTotal(r.breakdown)
    ensures r.total == 100.0 <==> r.breakdown == Breakdown(100, 100, 100, 100, 100)
    // The breakdown holds the raw sub-scores and the scheduler's analysis is passed through.
    ensures var fit := Scheduler.AnalyzeFit(Scheduler.DefaultAnalyzer, student.timetable, job.shifts);
            r.breakdown.schedule == fit.score && r.scheduleAnalysis == fit.analysis
    ensures r.breakdown.location == LegacyLocationScore(student.location, job.location, miles)
    ensures r.breakdown.skills == SkillsScore(student.skills, job.skills, job.description)
    ensures r.breakdown.salary == SalaryScore(student.minSalary, job.salaryMin, job.salaryMax, job.salaryType)
    ensures r.breakdown.preferences == PreferenceScore(student.roles, job.title)
  {
    var fit := Scheduler.AnalyzeFit(Scheduler.DefaultAnalyzer, student.timetable, job.shifts);
    var b := Breakdown(
      fit.score,
      LegacyLocationScore(student.location, job.location, miles),
      SkillsScore(student.skills, job.skills, job.description),
      SalaryScore(student.minSalary, job.salaryMin, job.salaryMax, job.salaryType),
      PreferenceScore(student.roles, job.title));
    MatchResult(WeightedTotal(b), b, fit.analysis)
  }
}
