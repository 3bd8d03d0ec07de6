/**
 * Concrete cases from the repository's test scripts, stated as lemmas about
 * the model.
 */
module Scenarios {
  import opened Wrappers
  import Text
  import Scheduler
  import LocationMatcher
  import Matching

  function At(h: int, m: int): Scheduler.RawTime
    requires 0 <= h < 24 && 0 <= m < 60
  {
    Scheduler.Clock(h * 60 + m)
  }

  /** The timetable of the scheduler test: two Monday classes and one on Wednesday. */
  function TestTimetable(): seq<Scheduler.Slot> {
    [ Scheduler.Slot("Monday", At(9, 0), At(11, 0)),
      Scheduler.Slot("Monday", At(14, 0), At(16, 0)),
      Scheduler.Slot("Wednesday", At(10, 0), At(12, 0)) ]
  }

  /** Job A: a Tuesday shift meets no class and gets an empty message list. */
  lemma TuesdayShiftIsPerfect()
    ensures Scheduler.AnalyzeFit(Scheduler.DefaultAnalyzer, TestTimetable(), [Scheduler.Slot("Tuesday", At(9, 0), At(17, 0))])
         == Scheduler.FitResult(100, Scheduler.PerfectFit, Scheduler.Messages([]))
  {
    var shifts := [Scheduler.Slot("Tuesday", At(9, 0), At(17, 0))];
    assert Text.Lower("Tuesday") == "tuesday";
    assert Text.Lower("Monday") == "monday";
    assert Text.Lower("Wednesday") == "wednesday";
    Scheduler.NoSharedDayIsPerfect(Scheduler.DefaultAnalyzer, TestTimetable(), shifts);
  }

  lemma MondayClasses()
    ensures Scheduler.SameDay(TestTimetable(), "monday") == TestTimetable()[..2]
  {
    assert Text.Lower("Monday") == "monday";
    assert Text.Lower("Wednesday") == "wednesday";
    assert TestTimetable()[2..][1..] == [];
  }

  lemma OverlapVerdict()
    ensures Scheduler.ShiftVerdict(Scheduler.DefaultAnalyzer, TestTimetable(), Scheduler.Slot("Monday", At(10, 0), At(14, 0)))
         == Scheduler.Verdict([], Some(Scheduler.Overlap("monday", Scheduler.Slot("Monday", At(10, 0), At(14, 0)), TestTimetable()[0])))
  {
    assert Text.Lower("Monday") == "monday";
    MondayClasses();
  }

  /** Job B: the only shift overlaps the 9-11 class, so the score is 0 and the label "Conflict". */
  lemma OverlappingSingleShiftScoresZero()
    ensures var r := Scheduler.AnalyzeFit(Scheduler.DefaultAnalyzer, TestTimetable(), [Scheduler.Slot("Monday", At(10, 0), At(14, 0))]);
            r.score == 0 && r.status == Scheduler.Conflict && r.status.Label() == "Conflict"
            && r.analysis == Scheduler.Messages([Scheduler.Overlap("monday", Scheduler.Slot("Monday", At(10, 0), At(14, 0)), TestTimetable()[0])])
  {
    var shift := Scheduler.Slot("Monday", At(10, 0), At(14, 0));
    var m := Scheduler.Overlap("monday", shift, TestTimetable()[0]);
    OverlapVerdict();
    Scheduler.OneShiftFit(Scheduler.DefaultAnalyzer, TestTimetable(), shift);
    assert Scheduler.ScheduleScore(1, 1, 0) == 0;
    assert Scheduler.Listed(Some(m)) + [] == [m];
  }

  lemma LunchVerdict()
    ensures Scheduler.ShiftVerdict(Scheduler.DefaultAnalyzer, TestTimetable(), Scheduler.Slot("Monday", At(11, 30), At(13, 30)))
         == Scheduler.Verdict([Scheduler.TightTiming("monday", Scheduler.ClassBeforeShift, 30),
                               Scheduler.TightTiming("monday", Scheduler.ShiftBeforeClass, 30)], None)
  {
    var shift := Scheduler.Slot("Monday", At(11, 30), At(13, 30));
    var a := Scheduler.DefaultAnalyzer;
    var v0 := Scheduler.CheckClass(a, "monday", shift, TestTimetable()[0]);
    var v1 := Scheduler.CheckClass(a, "monday", shift, TestTimetable()[1]);
    assert Text.Lower("Monday") == "monday";
    MondayClasses();
    assert v0 == Scheduler.Verdict([Scheduler.TightTiming("monday", Scheduler.ClassBeforeShift, 30)], None);
    assert v1 == Scheduler.Verdict([Scheduler.TightTiming("monday", Scheduler.ShiftBeforeClass, 30)], None);
    assert Scheduler.ClassVerdicts(a, "monday", shift, TestTimetable()[..2]) == [v0, v1];
  }

  /**
   * Job C: 11:30-13:30 leaves 30 minutes after the 9-11 class and 30 minutes
   * before the 14:00 lab, so there are two tight-timing warnings: score 80.
   */
  lemma LunchShiftHasTwoTightGaps()
    ensures var r := Scheduler.AnalyzeFit(Scheduler.DefaultAnalyzer, TestTimetable(), [Scheduler.Slot("Monday", At(11, 30), At(13, 30))]);
            r.score == 80 && r.status == Scheduler.GoodFit
            && r.analysis == Scheduler.Messages([
                 Scheduler.TightTiming("monday", Scheduler.ClassBeforeShift, 30),
                 Scheduler.TightTiming("monday", Scheduler.ShiftBeforeClass, 30)])
  {
    LunchVerdict();
    Scheduler.OneShiftFit(Scheduler.DefaultAnalyzer, TestTimetable(), Scheduler.Slot("Monday", At(11, 30), At(13, 30)));
  }

  lemma ThirtyMinuteVerdict()
    ensures Scheduler.ShiftVerdict(Scheduler.DefaultAnalyzer, [Scheduler.Slot("Monday", At(9, 0), At(11, 0))],
                                   Scheduler.Slot("Monday", At(11, 30), At(13, 30)))
         == Scheduler.Verdict([Scheduler.TightTiming("monday", Scheduler.ClassBeforeShift, 30)], None)
  {
    var shift := Scheduler.Slot("Monday", At(11, 30), At(13, 30));
    var cls := Scheduler.Slot("Monday", At(9, 0), At(11, 0));
    var v0 := Scheduler.CheckClass(Scheduler.DefaultAnalyzer, "monday", shift, cls);
    assert Text.Lower("Monday") == "monday";
    assert Scheduler.SameDay([cls], "monday") == [cls];
    assert v0 == Scheduler.Verdict([Scheduler.TightTiming("monday", Scheduler.ClassBeforeShift, 30)], None);
    assert Scheduler.ClassVerdicts(Scheduler.DefaultAnalyzer, "monday", shift, [cls]) == [v0];
  }

  /** With only the 9-11 class, the 11:30 shift gets a single warning: score 90, "Good Fit". */
  lemma ThirtyMinuteGapIsOneWarning()
    ensures var r := Scheduler.AnalyzeFit(Scheduler.DefaultAnalyzer,
                       [Scheduler.Slot("Monday", At(9, 0), At(11, 0))],
                       [Scheduler.Slot("Monday", At(11, 30), At(13, 30))]);
            r.score == 90 && r.status.Label() == "Good Fit"
            && r.analysis == Scheduler.Messages([Scheduler.TightTiming("monday", Scheduler.ClassBeforeShift, 30)])
  {
    ThirtyMinuteVerdict();
    Scheduler.OneShiftFit(Scheduler.DefaultAnalyzer, [Scheduler.Slot("Monday", At(9, 0), At(11, 0))],
                            Scheduler.Slot("Monday", At(11, 30), At(13, 30)));
  }

  lemma EveningVerdict()
    ensures Scheduler.ShiftVerdict(Scheduler.DefaultAnalyzer, TestTimetable(), Scheduler.Slot("Monday", At(17, 0), At(20, 0)))
         == Scheduler.Verdict([], None)
  {
    assert Text.Lower("Monday") == "monday";
    MondayClasses();
  }

  /** Job D: an hour after the lab ends leaves room enough: a perfect fit. */
  lemma EveningShiftIsPerfect()
    ensures var r := Scheduler.AnalyzeFit(Scheduler.DefaultAnalyzer, TestTimetable(), [Scheduler.Slot("Monday", At(17, 0), At(20, 0))]);
            r.score == 100 && r.status == Scheduler.PerfectFit && r.analysis == Scheduler.Messages([])
  {
    EveningVerdict();
    Scheduler.OneShiftFit(Scheduler.DefaultAnalyzer, TestTimetable(), Scheduler.Slot("Monday", At(17, 0), At(20, 0)));
  }

  /** A job without shifts is flexible. */
  lemma NoShiftsIsFlexible()
    ensures Scheduler.AnalyzeFit(Scheduler.DefaultAnalyzer, TestTimetable(), [])
         == Scheduler.FitResult(100, Scheduler.PerfectFit, Scheduler.Flexible)
  {
  }

  /** A set of already lower-case skills is its own lower-cased image. */
  lemma LowerAllOfLowerCase(s: set<string>)
    requires forall x :: x in s ==> Text.Lower(x) == x
    ensures Matching.LowerAll(s) == s
  {
  }

  /** Skills test: {python, flask} against {python, react} gives 50. */
  lemma HalfTheJobSkills()
    ensures Matching.SkillsScore({"python", "flask"}, {"python", "react"}, Some("")) == 50
  {
    var u: set<string> := {"python", "flask"};
    var j: set<string> := {"python", "react"};
    assert Text.Lower("python") == "python";
    assert Text.Lower("flask") == "flask";
    assert Text.Lower("react") == "react";
    LowerAllOfLowerCase(u);
    LowerAllOfLowerCase(j);
    assert "python" != "react" && "python" != "flask" by {
      assert |"python"| == 6 && |"react"| == 5 && |"flask"| == 5;
    }
    assert u * j == {"python"};
    assert |j| == 2;
    assert |u * j| == 1;
    var r := Matching.SkillsScore(u, j, Some(""));
    assert r * 2 <= 100 < (r + 1) * 2;
  }

  /** The description of the keyword skills test. */
  const HiringText := "We need someone good with Python and communication."

  lemma PythonInHiringText()
    ensures Text.Occurs("python", Matching.LowerDescription(Some(HiringText)))
  {
    var pre, post := "We need someone good with ", " and communication.";
    assert HiringText == pre + "Python" + post;
    Text.LowerAppend(pre + "Python", post);
    Text.LowerAppend(pre, "Python");
    assert Text.Lower("Python") == "python";
    Text.OccursInMiddle(Text.Lower(pre), "python", Text.Lower(post));
  }

  /** Skills test: no job skills, and "Python" is in the description: one hit, 60. */
  lemma DescriptionMentionsSkill()
    ensures Matching.SkillsScore({"python"}, {}, Some(HiringText)) == 60
  {
    PythonInHiringText();
    assert Text.Lower("python") == "python";
    OneSkillFound("python", Some(HiringText));
  }

  /** A single lower-case skill found in the description is one keyword hit. */
  lemma OneSkillFound(skill: string, description: Option<string>)
    requires Text.Lower(skill) == skill
    requires Text.Occurs(skill, Matching.LowerDescription(description))
    ensures Matching.SkillsScore({skill}, {}, description) == 60
  {
    LowerAllOfLowerCase({skill});
    var found := Matching.Hits({skill}, Matching.LowerDescription(description));
    assert found == {skill};
  }

  /** Salary test: need 15 against 30000 a year (about 15.38 an hour) gives 100; need 20 gives 0. */
  lemma YearlySalaryCases()
    ensures Matching.SalaryScore(Some(15.0), Some(30000.0), Some(35000.0), Some("yearly")) == 100
    ensures Matching.SalaryScore(Some(20.0), Some(30000.0), Some(35000.0), Some("yearly")) == 0
    ensures Matching.SalaryScore(Some(15.0), Some(20.0), Some(25.0), Some("hourly")) == 100
  {
    assert Text.Lower("yearly") == "yearly";
    assert Text.Lower("hourly") != "yearly" by {
      assert Text.Lower("hourly")[0] == 'h';
    }
  }

  /** The student of the matching test. */
  function TestStudent(): Matching.StudentProfile {
    Matching.StudentProfile(
      Some(Matching.Point(51.5074, -0.1278)),
      [Scheduler.Slot("Monday", At(9, 0), At(12, 0))],
      Some(12.0),
      {"python", "communication", "retail"},
      ["Barista", "Assistant"])
  }

  /** Job A of the matching test: a Tuesday barista job at the student's own coordinates. */
  function TestJobA(): Matching.JobData {
    Matching.JobData(
      Some(Matching.Point(51.5074, -0.1278)),
      [Scheduler.Slot("Tuesday", At(9, 0), At(17, 0))],
      Some(13.0), Some(15.0), None, {"communication", "retail"},
      "Barista Assistant", Some("Great job for students"))
  }

  /** Job B of the matching test: a Monday developer job in Birmingham. */
  function TestJobB(): Matching.JobData {
    Matching.JobData(
      Some(Matching.Point(52.4862, -1.8904)),
      [Scheduler.Slot("Monday", At(10, 0), At(11, 0))],
      Some(10.0), None, None, {"java", "architecture"},
      "Senior Developer", Some("Hard work"))
  }

  lemma StudentSkillsLowerCase()
    ensures Matching.LowerAll(TestStudent().skills) == {"python", "communication", "retail"}
  {
    assert Text.Lower("python") == "python";
    assert Text.Lower("communication") == "communication";
    assert Text.Lower("retail") == "retail";
    LowerAllOfLowerCase(TestStudent().skills);
  }

  lemma JobAScheduleScore()
    ensures Scheduler.AnalyzeFit(Scheduler.DefaultAnalyzer, TestStudent().timetable, TestJobA().shifts).score == 100
  {
    assert Text.Lower("Tuesday") == "tuesday";
    assert Text.Lower("Monday") == "monday";
    Scheduler.NoSharedDayIsPerfect(Scheduler.DefaultAnalyzer, TestStudent().timetable, TestJobA().shifts);
  }

  lemma JobASkillsScore()
    ensures Matching.SkillsScore(TestStudent().skills, TestJobA().skills, TestJobA().description) == 100
  {
    var u: set<string> := {"python", "communication", "retail"};
    var j: set<string> := {"communication", "retail"};
    assert Text.Lower("python") == "python";
    assert Text.Lower("communication") == "communication";
    assert Text.Lower("retail") == "retail";
    LowerAllOfLowerCase(u);
    LowerAllOfLowerCase(j);
    assert j <= u;
    assert |j| > 0;
    assert Matching.SkillsScore(u, j, TestJobA().description) == 100;
  }

  lemma JobAPreferenceScore()
    ensures Matching.PreferenceScore(TestStudent().roles, TestJobA().title) == 100
  {
    var title := Text.Lower("Barista Assistant");
    assert Text.Lower("Barista") == "barista";
    assert "barista" <= title[0..];
    assert Text.Occurs(Text.Lower(TestStudent().roles[0]), title);
  }

  lemma JobASubScores()
    ensures Scheduler.AnalyzeFit(Scheduler.DefaultAnalyzer, TestStudent().timetable, TestJobA().shifts).score == 100
    ensures Matching.SkillsScore(TestStudent().skills, TestJobA().skills, TestJobA().description) == 100
    ensures Matching.PreferenceScore(TestStudent().roles, TestJobA().title) == 100
  {
    JobAScheduleScore();
    JobASkillsScore();
    JobAPreferenceScore();
  }

  /** Job A of the matching test: every sub-score is 100, so the total is 100. */
  lemma PerfectJobScoresHundred()
    ensures var r := Matching.CalculateMatch(TestStudent(), TestJobA(), 0.0);
            r.total == 100.0 && r.breakdown == Matching.Breakdown(100, 100, 100, 100, 100)
  {
    JobABreakdown();
  }

  lemma JobAOtherScores()
    ensures Matching.LegacyLocationScore(TestStudent().location, TestJobA().location, 0.0) == 100
    ensures Matching.SalaryScore(TestStudent().minSalary, TestJobA().salaryMin, TestJobA().salaryMax, TestJobA().salaryType) == 100
  {
  }

  lemma JobABreakdown()
    ensures Matching.CalculateMatch(TestStudent(), TestJobA(), 0.0).breakdown == Matching.Breakdown(100, 100, 100, 100, 100)
  {
    JobASubScores();
    JobAOtherScores();
  }

  lemma JobBScheduleScore()
    ensures Scheduler.AnalyzeFit(Scheduler.DefaultAnalyzer, TestStudent().timetable, TestJobB().shifts).score == 0
  {
    assert Text.Lower("Monday") == "monday";
  }

  lemma JobBSkillsScore()
    ensures Matching.SkillsScore(TestStudent().skills, TestJobB().skills, TestJobB().description) == 0
  {
    StudentSkillsLowerCase();
    JobBSkillsLowerCase();
    JobBSkillsDisjoint();
    assert "java" in TestJobB().skills;
  }

  lemma JobBSkillsDisjoint()
    ensures {"python", "communication", "retail"} * {"java", "architecture"} == {}
  {
    var u: set<string> := {"python", "communication", "retail"};
    assert "java" !in u by {
      assert |"java"| == 4 && |"python"| == 6 && |"communication"| == 13 && |"retail"| == 6;
    }
    assert "architecture" !in u by {
      assert |"architecture"| == 12 && |"python"| == 6 && |"communication"| == 13 && |"retail"| == 6;
    }
  }

  lemma JobBSkillsLowerCase()
    ensures Matching.LowerAll(TestJobB().skills) == {"java", "architecture"}
  {
    assert Text.Lower("java") == "java";
    assert Text.Lower("architecture") == "architecture";
    LowerAllOfLowerCase(TestJobB().skills);
  }

  lemma JobBPreferenceScore()
    ensures Matching.PreferenceScore(TestStudent().roles, TestJobB().title) == 50
  {
    var title := Text.Lower("Senior Developer");
    assert title == "senior developer";
    assert Text.Lower("Barista") == "barista";
    assert Text.Lower("Assistant") == "assistant";
    Text.AbsentFirstChar("barista", title);
    Text.AbsentFirstChar("assistant", title);
  }

  lemma JobBSubScores()
    ensures Scheduler.AnalyzeFit(Scheduler.DefaultAnalyzer, TestStudent().timetable, TestJobB().shifts).score == 0
    ensures Matching.SkillsScore(TestStudent().skills, TestJobB().skills, TestJobB().description) == 0
    ensures Matching.PreferenceScore(TestStudent().roles, TestJobB().title) == 50
  {
    JobBScheduleScore();
    JobBSkillsScore();
    JobBPreferenceScore();
  }

  lemma JobBOtherScores(miles: real)
    requires miles >= 10.0
    ensures Matching.LegacyLocationScore(TestStudent().location, TestJobB().location, miles) == 0
    ensures Matching.SalaryScore(TestStudent().minSalary, TestJobB().salaryMin, TestJobB().salaryMax, TestJobB().salaryType) == 0
  {
  }

  lemma JobBBreakdown(miles: real)
    requires miles >= 10.0
    ensures Matching.CalculateMatch(TestStudent(), TestJobB(), miles).breakdown == Matching.Breakdown(0, 0, 0, 0, 50)
  {
    JobBSubScores();
    JobBOtherScores(miles);
  }

  /** Job B of the matching test, at ten miles or more: only the preference half-score remains, total 5. */
  lemma PoorJobScoresFive(miles: real)
    requires miles >= 10.0
    ensures var r := Matching.CalculateMatch(TestStudent(), TestJobB(), miles);
            r.breakdown == Matching.Breakdown(0, 0, 0, 0, 50) && r.total == 5.0
  {
    JobBBreakdown(miles);
    assert Matching.WeightedTotal(Matching.Breakdown(0, 0, 0, 0, 50)) == 5.0;
  }

  /** A London student who also names Manchester as a preferred city. */
  function LondonStudent(open: bool): LocationMatcher.Matcher {
    LocationMatcher.NewMatcher(LocationMatcher.Prefs(Some("London"), LocationMatcher.CityList(["Manchester"]), open))
  }

  lemma LondonStudentBuilt(open: bool)
    ensures LondonStudent(open) == LondonMatcher(open)
  {
    assert "London" !in ["Manchester"] by { assert |"London"| != |"Manchester"|; }
  }

  /** Comma-separated preferences are split and trimmed. */
  lemma CommaSeparatedPreferences()
    ensures LocationMatcher.PreferredFrom(LocationMatcher.CommaSeparated("Leeds, York")) == ["Leeds", "York"]
  {
    LeedsYorkPieces();
    StripLeedsYork();
  }

  lemma LeedsYorkPieces()
    ensures Text.Split("Leeds, York", ',') == ["Leeds", " York"]
  {
    Text.SplitTwo("Leeds", ',', " York");
    assert "Leeds" + [','] + " York" == "Leeds, York";
  }

  lemma StripLeedsYork()
    ensures LocationMatcher.StripAll(["Leeds", " York"]) == ["Leeds", "York"]
  {
    Text.StripTrimmed("Leeds");
    StripYork();
  }

  lemma StripYork()
    ensures Text.Strip(" York") == "York"
  {
    assert Text.LeadingSpaces(" York") == 1;
    assert Text.TrailingStart(" York", 1) == 5;
  }

  /** A missing primary city is taken from the first preferred city. */
  lemma PrimaryFromFirstPreferred()
    ensures LocationMatcher.NewMatcher(LocationMatcher.Prefs(None, LocationMatcher.CityList(["Bristol", "Bath"]), false)).primaryCity == "Bristol"
  {
  }

  /** A bare, trimmed location name is the job city. */
  lemma BareCity(name: string)
    requires |name| > 0 && ',' !in name && !Text.IsSpace(name[0]) && !Text.IsSpace(name[|name| - 1])
    ensures LocationMatcher.JobCity(Some(name)) == name
  {
    Text.StripTrimmed(name);
  }

  lemma LondonUkCity()
    ensures LocationMatcher.JobCity(Some("London, UK")) == "London"
  {
    assert "London, UK" == "London" + [','] + " UK";
    Text.BeforeFirstAt("London", ',', " UK");
    Text.StripTrimmed("London");
  }

  /** The matcher a London student with Manchester as a preferred city ends up with. */
  function LondonMatcher(open: bool): LocationMatcher.Matcher {
    LocationMatcher.Matcher("London", ["Manchester", "London"], open)
  }

  lemma LondonMatchesLondon()
    ensures LocationMatcher.IsCityMatch("London", ["London"])
    ensures LocationMatcher.IsCityMatch("London", ["Manchester", "London"])
  {
    assert "london" <= Text.Lower("London")[0..];
    assert ["Manchester", "London"][1] == "London";
  }

  /** A job in "London, UK" is in the student's own city. */
  lemma OwnCityJob()
    ensures var r := LocationMatcher.LocationScore(LondonMatcher(false), LocationMatcher.JobPlace(false, Some("London, UK")));
            r.badge == "YOUR CITY" && r.score == 100 && r.tier == 1
  {
    LondonUkCity();
    LondonMatchesLondon();
  }

  lemma ManchesterIsPreferredOnly()
    ensures LocationMatcher.IsCityMatch("Manchester", ["Manchester", "London"])
    ensures !LocationMatcher.IsCityMatch("Manchester", ["London"])
  {
    assert "manchester" <= Text.Lower("Manchester")[0..];
    assert Text.Lower("London")[0] == 'l';
    Text.AbsentFirstChar(Text.Lower("London"), Text.Lower("Manchester"));
  }

  /** A job in Manchester is preferred but not the primary city. */
  lemma PreferredCityJob()
    ensures var r := LocationMatcher.LocationScore(LondonMatcher(false), LocationMatcher.JobPlace(false, Some("Manchester")));
            r.badge == "PREFERRED" && r.score == 95 && r.tier == 2
  {
    BareCity("Manchester");
    ManchesterIsPreferredOnly();
  }

  lemma OxfordIsNotPreferred()
    ensures !LocationMatcher.IsCityMatch("Oxford", ["Manchester", "London"])
  {
    var oxford := Text.Lower("Oxford");
    assert Text.Lower("Manchester")[0] == 'm' && Text.Lower("London")[0] == 'l';
    Text.AbsentFirstChar(Text.Lower("Manchester"), oxford);
    Text.AbsentFirstChar(Text.Lower("London"), oxford);
  }

  lemma OxfordIsNearLondon()
    ensures LocationMatcher.IsCityMatch("Oxford", LocationMatcher.CityRegions["London"].nearby)
  {
    var nearby := LocationMatcher.CityRegions["London"].nearby;
    assert nearby[1] == "Oxford";
    assert "oxford" <= Text.Lower("Oxford")[0..];
  }

  /** Oxford is near London: 70 when open to other cities, 40 and hidden when not. */
  lemma NearbyCityJob(open: bool)
    ensures var r := LocationMatcher.LocationScore(LondonMatcher(open), LocationMatcher.JobPlace(false, Some("Oxford")));
            (open ==> r.score == 70 && r.tier == 3) && (!open ==> r.score == 40 && r.tier == 4 && r.hiddenByDefault)
  {
    OxfordFacts(open);
  }

  lemma OxfordFacts(open: bool)
    ensures LocationMatcher.JobCity(Some("Oxford")) == "Oxford"
    ensures !LocationMatcher.IsCityMatch("Oxford", LondonMatcher(open).preferredCities)
    ensures LocationMatcher.IsNearby(LondonMatcher(open), "Oxford")
  {
    BareCity("Oxford");
    OxfordIsNotPreferred();
    OxfordIsNearLondon();
  }

  lemma HullMatchesNothing(targets: seq<string>)
    requires forall k :: 0 <= k < |targets| ==> |targets[k]| > 4
    ensures !LocationMatcher.IsCityMatch("Hull", targets)
  {
    forall k | 0 <= k < |targets|
      ensures !Text.Occurs(Text.Lower(targets[k]), Text.Lower("Hull"))
    {
      Text.LongerNeverOccurs(Text.Lower(targets[k]), Text.Lower("Hull"));
    }
  }

  /** Hull matches nothing of a London student's: excluded when not open to other cities. */
  lemma FarCityJob()
    ensures var r := LocationMatcher.LocationScore(LondonMatcher(false), LocationMatcher.JobPlace(false, Some("Hull")));
            r.excluded && r.score == 0 && r.badge == "TOO FAR"
  {
    BareCity("Hull");
    HullIsNotPreferred();
    HullIsNotNearLondon();
  }

  lemma HullIsNotPreferred()
    ensures !LocationMatcher.IsCityMatch("Hull", LondonMatcher(false).preferredCities)
  {
    HullMatchesNothing(["Manchester", "London"]);
  }

  lemma HullIsNotNearLondon()
    ensures !LocationMatcher.IsNearby(LondonMatcher(false), "Hull")
  {
    var nearby := LocationMatcher.CityRegions["London"].nearby;
    assert nearby == ["Reading", "Oxford", "Brighton", "Cambridge", "Guildford", "Watford", "St Albans"];
    HullMatchesNothing(nearby);
  }

  /** A remote job scores 100 whatever the student prefers. */
  lemma RemoteJob(m: LocationMatcher.Matcher, name: Option<string>)
    ensures LocationMatcher.LocationScore(m, LocationMatcher.JobPlace(true, name)).badge == "REMOTE"
  {
  }
}
