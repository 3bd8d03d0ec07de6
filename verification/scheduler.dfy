/**
 * The schedule analyzer: compares a student's weekly classes with a job's
 * weekly shifts, looking for overlaps and for commutes that are impossible
 * (gap shorter than the commute time) or tight (gap shorter than the commute
 * time plus a fifteen-minute personal buffer), and turns the counts into a
 * 0-100 score with a status label.
 */
module Scheduler {
  import opened Wrappers
  import Text

  /** A time of day as minutes since midnight. */
  type Minute = m: int | 0 <= m < 1440

  /** A time as the caller supplies it: a readable clock time, or input that is missing or unparsable. */
  datatype RawTime = Clock(minute: Minute) | Unreadable

  /** Conversion to a time of day; missing or unreadable input falls back to midnight. */
  function ToMinutes(t: RawTime): (m: Minute)
    ensures t.Clock? ==> m == t.minute
    ensures t.Unreadable? ==> m == 0
  {
    match t
    case Clock(m) => m
    case Unreadable => 0
  }

  /** One weekly occurrence: a class of the timetable or a shift of the job. */
  datatype Slot = Slot(day: string, start: RawTime, end: RawTime)

  /** Which way round the class and the shift are when a gap is measured. */
  datatype Side = ClassBeforeShift | ShiftBeforeClass

  /** A diagnostic line of the analysis, kept as data rather than as formatted text. */
  datatype Message =
    | Overlap(day: string, shift: Slot, cls: Slot)
    | ImpossibleCommute(day: string, side: Side, gap: int)
    | TightTiming(day: string, side: Side, gap: int)
  {
    predicate IsConflict() { Overlap? || ImpossibleCommute? }
  }

  /** The analysis: the fixed text for a job without shifts, or the ordered messages. */
  datatype Analysis = Flexible | Messages(msgs: seq<Message>)

  datatype Status = PerfectFit | GoodFit | Challenge | Conflict {
    /** The label exactly as the analyzer reports it. */
    function Label(): string {
      match this
      case PerfectFit => "Perfect Fit"
      case GoodFit => "Good Fit"
      case Challenge => "Challenge"
      case Conflict => "Conflict"
    }
  }

  datatype FitResult = FitResult(score: int, status: Status, analysis: Analysis)

  /** An analyzer with its commute time in minutes (30 unless configured otherwise). */
  datatype Analyzer = Analyzer(commute: int)

  const DefaultAnalyzer := Analyzer(30)

  /** Personal margin required on top of the commute time. */
  const BufferMinutes := 15

  /** Minute `t` lies in the half-open range [`s`, `e`). */
  predicate Within(t: int, s: int, e: int) {
    s <= t < e
  }

  /** Strict overlap of two time ranges. */
  predicate Overlaps(s1: int, e1: int, s2: int, e2: int) {
    (if s1 > s2 then s1 else s2) < (if e1 < e2 then e1 else e2)
  }

  /** Two ranges overlap exactly when some minute lies in both; ranges that only touch share none. */
  lemma OverlapsIffSharedMinute(s1: int, e1: int, s2: int, e2: int)
    ensures Overlaps(s1, e1, s2, e2) <==> exists t :: Within(t, s1, e1) && Within(t, s2, e2)
  {
    if Overlaps(s1, e1, s2, e2) {
      var t := if s1 > s2 then s1 else s2;
      assert Within(t, s1, e1) && Within(t, s2, e2);
    }
  }

  /** What comparing one shift with one class produced. */
  datatype Verdict = Verdict(warnings: seq<Message>, conflict: Option<Message>)

  /** All warnings are tight-timing messages and a conflict is a conflict message. */
  predicate WellTagged(v: Verdict) {
    AllTight(v.warnings) && (v.conflict.Some? ==> v.conflict.value.IsConflict())
  }

  predicate AllTight(msgs: seq<Message>) {
    forall k :: 0 <= k < |msgs| ==> msgs[k].TightTiming?
  }

  predicate AllConflicts(msgs: seq<Message>) {
    forall k :: 0 <= k < |msgs| ==> msgs[k].IsConflict()
  }

  /** Classification of one gap between a class and a shift. */
  function GapVerdict(a: Analyzer, day: string, side: Side, gap: int): (v: Verdict)
    ensures WellTagged(v)
    ensures v.conflict.Some? <==> gap < a.commute
    ensures |v.warnings| == (if a.commute <= gap < a.commute + BufferMinutes then 1 else 0)
    // Every message names the day, the side and the measured gap.
    ensures forall m :: m in Listed(v.conflict) + v.warnings
              ==> !m.Overlap? && m.day == day && m.side == side && m.gap == gap
  {
    if gap < a.commute then Verdict([], Some(ImpossibleCommute(day, side, gap)))
    else if gap < a.commute + BufferMinutes then Verdict([TightTiming(day, side, gap)], None)
    else Verdict([], None)
  }

  /** The comparison of one shift with one class of the same day: overlap first, then both buffers. */
  function CheckClass(a: Analyzer, day: string, shift: Slot, cls: Slot): (v: Verdict)
    ensures WellTagged(v)
    ensures |v.warnings| <= 2
    // An overlap is reported, and only then, when the two share a minute.
    ensures (v.conflict.Some? && v.conflict.value.Overlap?)
            <==> exists t :: Within(t, ToMinutes(shift.start), ToMinutes(shift.end))
                             && Within(t, ToMinutes(cls.start), ToMinutes(cls.end))
    // For well-formed ranges with the class first, the gap alone decides.
    ensures ToMinutes(cls.start) <= ToMinutes(cls.end) && ToMinutes(shift.start) <= ToMinutes(shift.end)
            && ToMinutes(shift.start) > ToMinutes(cls.end)
            ==> var gap := ToMinutes(shift.start) - ToMinutes(cls.end);
                && (v.conflict.Some? <==> gap < a.commute)
                && (|v.warnings| == 1 <==> a.commute <= gap < a.commute + BufferMinutes)
                && (|v.warnings| == 0 <==> !(a.commute <= gap < a.commute + BufferMinutes))
    // Likewise with the shift first.
    ensures ToMinutes(cls.start) <= ToMinutes(cls.end) && ToMinutes(shift.start) <= ToMinutes(shift.end)
            && ToMinutes(cls.start) > ToMinutes(shift.end)
            ==> var gap := ToMinutes(cls.start) - ToMinutes(shift.end);
                && (v.conflict.Some? <==> gap < a.commute)
                && (|v.warnings| == 1 <==> a.commute <= gap < a.commute + BufferMinutes)
                && (|v.warnings| == 0 <==> !(a.commute <= gap < a.commute + BufferMinutes))
    // Ranges that touch (or leave no gap) produce nothing at all.
    ensures ToMinutes(cls.start) <= ToMinutes(cls.end) && ToMinutes(shift.start) <= ToMinutes(shift.end)
            && (ToMinutes(shift.start) == ToMinutes(cls.end) || ToMinutes(cls.start) == ToMinutes(shift.end))
            && !Overlaps(ToMinutes(shift.start), ToMinutes(shift.end), ToMinutes(cls.start), ToMinutes(cls.end))
            ==> v == Verdict([], None)
  {
    var ss, se := ToMinutes(shift.start), ToMinutes(shift.end);
    var cs, ce := ToMinutes(cls.start), ToMinutes(cls.end);
    OverlapsIffSharedMinute(ss, se, cs, ce);
    if Overlaps(ss, se, cs, ce) then Verdict([], Some(Overlap(day, shift, cls)))
    else
      var first := if ss > ce then GapVerdict(a, day, ClassBeforeShift, ss - ce) else Verdict([], None);
      if first.conflict.Some? then first
      else if cs > se then
        var second := GapVerdict(a, day, ShiftBeforeClass, cs - se);
        Verdict(first.warnings + second.warnings, second.conflict)
      else first
  }

  /**
   * What the messages of one class-against-shift comparison carry: an overlap names the
   * day, the shift and the class; a gap message names the day and its side, with the gap
   * measured on that side.
   */
  lemma CheckClassMessages(a: Analyzer, day: string, shift: Slot, cls: Slot)
    ensures var v := CheckClass(a, day, shift, cls);
            v.conflict.Some? && v.conflict.value.Overlap? ==> v.conflict.value == Overlap(day, shift, cls)
    ensures var v := CheckClass(a, day, shift, cls);
            var ss, se := ToMinutes(shift.start), ToMinutes(shift.end);
            var cs, ce := ToMinutes(cls.start), ToMinutes(cls.end);
            forall m :: m in Listed(v.conflict) + v.warnings && !m.Overlap?
              ==> && m.day == day
                  && (m.side == ClassBeforeShift ==> (ss > ce && m.gap == ss - ce))
                  && (m.side == ShiftBeforeClass ==> (cs > se && m.gap == cs - se))
  {
  }

  /** The classes of `timetable` held on `day` (already lower-cased), in timetable order. */
  function SameDay(timetable: seq<Slot>, day: string): (r: seq<Slot>)
    ensures forall k :: 0 <= k < |r| ==> Text.Lower(r[k].day) == day
    ensures forall c :: c in timetable && Text.Lower(c.day) == day ==> c in r
    ensures forall c :: c in r ==> c in timetable
    ensures |r| <= |timetable|
  {
    if |timetable| == 0 then []
    else if Text.Lower(timetable[0].day) == day then [timetable[0]] + SameDay(timetable[1..], day)
    else SameDay(timetable[1..], day)
  }

  lemma {:induction false} SameDayAppend(t1: seq<Slot>, t2: seq<Slot>, day: string)
    ensures SameDay(t1 + t2, day) == SameDay(t1, day) + SameDay(t2, day)
  {
    if |t1| > 0 {
      assert (t1 + t2)[1..] == t1[1..] + t2;
      SameDayAppend(t1[1..], t2, day);
    } else {
      assert t1 + t2 == t2;
    }
  }

  /** The lists one after the other. */
  function Concat(ms: seq<seq<Message>>): seq<Message> {
    if |ms| == 0 then [] else ms[0] + Concat(ms[1..])
  }

  /** The position of the first verdict with a conflict, or `|vs|` when there is none. */
  function FirstConflict(vs: seq<Verdict>): (i: nat)
    ensures i <= |vs|
    ensures forall j :: 0 <= j < i ==> vs[j].conflict.None?
    ensures i < |vs| ==> vs[i].conflict.Some?
  {
    if |vs| == 0 then 0
    else if vs[0].conflict.Some? then 0
    else
      assert forall j :: 1 <= j < |vs| ==> vs[j] == vs[1..][j - 1];
      1 + FirstConflict(vs[1..])
  }

  /** How many verdicts a scan looks at: up to and including the first one with a conflict. */
  function Scanned(vs: seq<Verdict>): nat {
    var i := FirstConflict(vs);
    if i < |vs| then i + 1 else i
  }

  /** Scanning verdicts in order: warnings are collected until the first conflict, which stops the scan. */
  function ScanVerdicts(vs: seq<Verdict>): (v: Verdict)
    requires forall k :: 0 <= k < |vs| ==> WellTagged(vs[k]) && |vs[k].warnings| <= 2
    ensures WellTagged(v)
    ensures |v.warnings| <= 2 * |vs|
    ensures (exists k :: 0 <= k < |vs| && vs[k].conflict.Some?) <==> v.conflict.Some?
  {
    if |vs| == 0 then Verdict([], None)
    else if vs[0].conflict.Some? then vs[0]
    else
      var rest := ScanVerdicts(vs[1..]);
      assert forall k :: 1 <= k < |vs| ==> vs[k] == vs[1..][k - 1];
      assert WellTagged(vs[0]);
      assert AllTight(vs[0].warnings + rest.warnings) by {
        var w := vs[0].warnings + rest.warnings;
        assert forall k :: 0 <= k < |w| ==>
          w[k] == if k < |vs[0].warnings| then vs[0].warnings[k] else rest.warnings[k - |vs[0].warnings|];
      }
      Verdict(vs[0].warnings + rest.warnings, rest.conflict)
  }

  /**
   * The scan reports the conflict of the first conflicting verdict, and the warnings of
   * the verdicts it looked at (up to and including that one), in order.
   */
  lemma {:induction false} ScanVerdictsExact(vs: seq<Verdict>)
    requires forall k :: 0 <= k < |vs| ==> WellTagged(vs[k]) && |vs[k].warnings| <= 2
    ensures var i := FirstConflict(vs);
            ScanVerdicts(vs).conflict == if i < |vs| then vs[i].conflict else None
    ensures Scanned(vs) <= |vs|
    ensures ScanVerdicts(vs).warnings == Concat(WarningLists(vs)[..Scanned(vs)])
  {
    if |vs| > 0 {
      var ws := WarningLists(vs);
      if vs[0].conflict.Some? {
        assert ws[..1] == [vs[0].warnings];
        assert Concat(ws[..1]) == vs[0].warnings + Concat([]);
      } else {
        var tail := vs[1..];
        assert forall k :: 1 <= k < |vs| ==> vs[k] == tail[k - 1];
        ScanVerdictsExact(tail);
        var j := FirstConflict(tail);
        var n := Scanned(tail);
        assert FirstConflict(vs) == j + 1;
        assert Scanned(vs) == n + 1;
        assert ws[..n + 1][1..] == WarningLists(tail)[..n];
        assert ws[..n + 1][0] == vs[0].warnings;
      }
    }
  }

  /** The verdict of the shift against each class, class by class. */
  function ClassVerdicts(a: Analyzer, day: string, shift: Slot, classes: seq<Slot>): (vs: seq<Verdict>)
    ensures |vs| == |classes|
    ensures forall k :: 0 <= k < |vs| ==> vs[k] == CheckClass(a, day, shift, classes[k])
    ensures forall k :: 0 <= k < |vs| ==> WellTagged(vs[k]) && |vs[k].warnings| <= 2
  {
    seq(|classes|, k requires 0 <= k < |classes| => CheckClass(a, day, shift, classes[k]))
  }

  /** Scanning one shift's same-day classes in order; the first conflict stops the scan. */
  function ScanClasses(a: Analyzer, day: string, shift: Slot, classes: seq<Slot>): (v: Verdict)
    ensures WellTagged(v)
    ensures |v.warnings| <= 2 * |classes|
    ensures (exists k :: 0 <= k < |classes| && CheckClass(a, day, shift, classes[k]).conflict.Some?)
            <==> v.conflict.Some?
  {
    ScanVerdicts(ClassVerdicts(a, day, shift, classes))
  }

  /**
   * The scan over a day's classes reports the first conflicting class's conflict, and the
   * warnings of the classes up to and including that one, in class order.
   */
  lemma ScanClassesExact(a: Analyzer, day: string, shift: Slot, classes: seq<Slot>)
    ensures var vs := ClassVerdicts(a, day, shift, classes);
            var i := FirstConflict(vs);
            && (i < |classes| ==> CheckClass(a, day, shift, classes[i]).conflict.Some?)
            && (forall j :: 0 <= j < i ==> CheckClass(a, day, shift, classes[j]).conflict.None?)
            && ScanClasses(a, day, shift, classes).conflict
               == (if i < |classes| then CheckClass(a, day, shift, classes[i]).conflict else None)
            && ScanClasses(a, day, shift, classes).warnings == Concat(WarningLists(vs)[..Scanned(vs)])
  {
    ScanVerdictsExact(ClassVerdicts(a, day, shift, classes));
  }

  /** Some class held on `day` has property `p` exactly when some class of the timetable on that day has it. */
  lemma SameDayExists(timetable: seq<Slot>, day: string, p: Slot -> bool)
    ensures (exists j :: 0 <= j < |SameDay(timetable, day)| && p(SameDay(timetable, day)[j]))
            <==> exists k :: 0 <= k < |timetable| && Text.Lower(timetable[k].day) == day && p(timetable[k])
  {
    var classes := SameDay(timetable, day);
    forall j | 0 <= j < |classes| && p(classes[j])
      ensures exists k :: 0 <= k < |timetable| && Text.Lower(timetable[k].day) == day && p(timetable[k])
    {
      assert classes[j] in timetable;
      var k :| 0 <= k < |timetable| && timetable[k] == classes[j];
      assert Text.Lower(timetable[k].day) == day && p(timetable[k]);
    }
    forall k | 0 <= k < |timetable| && Text.Lower(timetable[k].day) == day && p(timetable[k])
      ensures exists j :: 0 <= j < |classes| && p(classes[j])
    {
      assert timetable[k] in classes;
      var j :| 0 <= j < |classes| && classes[j] == timetable[k];
      assert p(classes[j]);
    }
  }

  /** One shift against the whole timetable: only classes on the shift's day, compared case-insensitively. */
  function ShiftVerdict(a: Analyzer, timetable: seq<Slot>, shift: Slot): (v: Verdict)
    ensures WellTagged(v)
    // A conflict exactly when some class on the same day (in any letter case) conflicts with the shift.
    ensures v.conflict.Some? <==>
              exists k :: 0 <= k < |timetable| && Text.Lower(timetable[k].day) == Text.Lower(shift.day)
                          && CheckClass(a, Text.Lower(shift.day), shift, timetable[k]).conflict.Some?
  {
    var day := Text.Lower(shift.day);
    SameDayExists(timetable, day, c => CheckClass(a, day, shift, c).conflict.Some?);
    ScanClasses(a, day, shift, SameDay(timetable, day))
  }

  /** The analyzer's accumulators after a run over some shifts. */
  datatype Tally = Tally(conflicts: seq<Message>, warnings: seq<Message>, conflicting: nat, tight: nat)

  /** Messages are all conflicts, then all warnings. */
  predicate ConflictsFirst(msgs: seq<Message>) {
    forall i, j :: 0 <= i < j < |msgs| && msgs[j].IsConflict() ==> msgs[i].IsConflict()
  }

  /** The verdict of every shift, in order. */
  function Verdicts(a: Analyzer, timetable: seq<Slot>, shifts: seq<Slot>): (vs: seq<Verdict>)
    ensures |vs| == |shifts|
    ensures forall k :: 0 <= k < |vs| ==> WellTagged(vs[k])
    ensures forall k :: 0 <= k < |vs| ==> vs[k] == ShiftVerdict(a, timetable, shifts[k])
  {
    seq(|shifts|, k requires 0 <= k < |shifts| => ShiftVerdict(a, timetable, shifts[k]))
  }

  /** A possible message as a list of none or one. */
  function Listed(m: Option<Message>): seq<Message> {
    match m
    case Some(x) => [x]
    case None => []
  }

  /** Each verdict's conflict, as a list of none or one message. */
  function ConflictLists(vs: seq<Verdict>): seq<seq<Message>> {
    seq(|vs|, k requires 0 <= k < |vs| => Listed(vs[k].conflict))
  }

  /** Each verdict's warnings. */
  function WarningLists(vs: seq<Verdict>): seq<seq<Message>> {
    seq(|vs|, k requires 0 <= k < |vs| => vs[k].warnings)
  }

  /** For each verdict, whether it carries a conflict. */
  function ConflictFlags(vs: seq<Verdict>): seq<bool> {
    seq(|vs|, k requires 0 <= k < |vs| => vs[k].conflict.Some?)
  }

  /** Accumulates shift verdicts in order; each adds at most one conflict and any number of warnings. */
  function TallyVerdicts(vs: seq<Verdict>): (t: Tally)
    requires forall k :: 0 <= k < |vs| ==> WellTagged(vs[k])
    ensures t.conflicting <= |vs|
    ensures t.conflicting == |t.conflicts|
    ensures t.tight == |t.warnings|
    ensures AllConflicts(t.conflicts)
    ensures AllTight(t.warnings)
    ensures t.conflicting == 0 <==> forall k :: 0 <= k < |vs| ==> vs[k].conflict.None?
  {
    if |vs| == 0 then Tally([], [], 0, 0)
    else
      var v := vs[0];
      var rest := TallyVerdicts(vs[1..]);
      assert forall k :: 1 <= k < |vs| ==> vs[k] == vs[1..][k - 1];
      assert WellTagged(v);
      assert AllTight(v.warnings + rest.warnings) by {
        assert forall k :: 0 <= k < |v.warnings + rest.warnings| ==>
          (v.warnings + rest.warnings)[k] == if k < |v.warnings| then v.warnings[k] else rest.warnings[k - |v.warnings|];
      }
      match v.conflict
      case Some(m) => Tally([m] + rest.conflicts, v.warnings + rest.warnings, rest.conflicting + 1, rest.tight + |v.warnings|)
      case None => Tally(rest.conflicts, v.warnings + rest.warnings, rest.conflicting, rest.tight + |v.warnings|)
  }

  /**
   * The tally counts the verdicts with a conflict, and its lists are the verdicts'
   * conflicts and warnings in verdict order.
   */
  lemma {:induction false} TallyVerdictsExact(vs: seq<Verdict>)
    requires forall k :: 0 <= k < |vs| ==> WellTagged(vs[k])
    ensures TallyVerdicts(vs).conflicting == multiset(ConflictFlags(vs))[true]
    ensures TallyVerdicts(vs).conflicts == Concat(ConflictLists(vs))
    ensures TallyVerdicts(vs).warnings == Concat(WarningLists(vs))
  {
    TallyCount(vs);
    TallyConflicts(vs);
    TallyWarnings(vs);
  }

  lemma {:induction false} TallyCount(vs: seq<Verdict>)
    requires forall k :: 0 <= k < |vs| ==> WellTagged(vs[k])
    ensures TallyVerdicts(vs).conflicting == multiset(ConflictFlags(vs))[true]
  {
    if |vs| == 0 {
      assert ConflictFlags(vs) == [];
    } else {
      assert forall k :: 1 <= k < |vs| ==> vs[k] == vs[1..][k - 1];
      TallyCount(vs[1..]);
      assert ConflictFlags(vs) == [vs[0].conflict.Some?] + ConflictFlags(vs[1..]);
    }
  }

  lemma {:induction false} TallyConflicts(vs: seq<Verdict>)
    requires forall k :: 0 <= k < |vs| ==> WellTagged(vs[k])
    ensures TallyVerdicts(vs).conflicts == Concat(ConflictLists(vs))
  {
    if |vs| > 0 {
      assert forall k :: 1 <= k < |vs| ==> vs[k] == vs[1..][k - 1];
      TallyConflicts(vs[1..]);
      assert ConflictLists(vs)[1..] == ConflictLists(vs[1..]);
    }
  }

  lemma {:induction false} TallyWarnings(vs: seq<Verdict>)
    requires forall k :: 0 <= k < |vs| ==> WellTagged(vs[k])
    ensures TallyVerdicts(vs).warnings == Concat(WarningLists(vs))
  {
    if |vs| > 0 {
      assert forall k :: 1 <= k < |vs| ==> vs[k] == vs[1..][k - 1];
      TallyWarnings(vs[1..]);
      assert WarningLists(vs)[1..] == WarningLists(vs[1..]);
    }
  }

  /** The analyzer's run over the shifts. */
  function TallyShifts(a: Analyzer, timetable: seq<Slot>, shifts: seq<Slot>): (t: Tally)
    ensures t.conflicting <= |shifts|
    ensures t.conflicting == |t.conflicts|
    ensures t.tight == |t.warnings|
    ensures AllConflicts(t.conflicts)
    ensures AllTight(t.warnings)
    ensures t.conflicting == 0 <==> forall k :: 0 <= k < |shifts| ==> ShiftVerdict(a, timetable, shifts[k]).conflict.None?
    // The counter is the number of conflicting shifts; conflicts and warnings come shift by shift.
    ensures var vs := Verdicts(a, timetable, shifts);
            && t.conflicting == multiset(ConflictFlags(vs))[true]
            && t.conflicts == Concat(ConflictLists(vs))
            && t.warnings == Concat(WarningLists(vs))
  {
    var vs := Verdicts(a, timetable, shifts);
    TallyVerdictsExact(vs);
    TallyVerdicts(vs)
  }

  /** The score from the counters; the conflict ratio needs a shift count when there are conflicts. */
  function ScheduleScore(total: nat, conflicting: nat, tight: nat): (r: int)
    requires conflicting > 0 ==> total > 0
    ensures 0 <= r <= 100
    ensures conflicting > 0 ==> r <= 40
    ensures conflicting == 0 ==> (r == 100 <==> tight == 0)
    ensures conflicting == 0 ==> (r >= 60 <==> tight <= 4)
    ensures conflicting > 0 && 2 * conflicting > total ==> r == 0
  {
    if conflicting > 0 then
      if 2 * conflicting > total then 0   // conflicting / total > 0.5
      else if 50 - conflicting * 10 > 0 then 50 - conflicting * 10 else 0
    else if 100 - tight * 10 > 0 then 100 - tight * 10 else 0
  }

  /** The steps of the score: ten points per tight timing, and per conflicting shift from 50, never below zero. */
  lemma ScheduleScoreSteps(total: nat, conflicting: nat, tight: nat)
    ensures ScheduleScore(total, 0, 0) == 100
    ensures var s := ScheduleScore(total, 0, tight);
            ScheduleScore(total, 0, tight + 1) == if s - 10 > 0 then s - 10 else 0
    ensures total >= 2 ==> ScheduleScore(total, 1, tight) == 40
    ensures conflicting > 0 && 2 * (conflicting + 1) <= total ==>
              var s := ScheduleScore(total, conflicting, tight);
              ScheduleScore(total, conflicting + 1, tight) == if s - 10 > 0 then s - 10 else 0
    // Once there is a conflict, tight timings no longer matter.
    ensures conflicting > 0 && total > 0 ==> ScheduleScore(total, conflicting, tight) == ScheduleScore(total, conflicting, 0)
  {
  }

  /** The status label of a score. */
  function StatusOf(score: int): (s: Status)
    ensures s == PerfectFit <==> score == 100
    ensures s == Conflict <==> score < 60
    ensures s == GoodFit ==> 80 <= score
    ensures s == Challenge ==> 60 <= score < 80
  {
    if score == 100 then PerfectFit
    else if score >= 80 then GoodFit
    else if score >= 60 then Challenge
    else Conflict
  }

  /** A higher score never gets a worse label. */
  lemma StatusMonotone(s1: int, s2: int)
    requires s1 <= s2 <= 100
    ensures Rank(StatusOf(s1)) <= Rank(StatusOf(s2))
  {
  }

  /** Labels ordered from worst (0) to best (3). */
  function Rank(s: Status): nat {
    match s
    case Conflict => 0
    case Challenge => 1
    case GoodFit => 2
    case PerfectFit => 3
  }

  /** `analyze_fit`: the score, status and ordered analysis of a timetable against a job's shifts. */
  function AnalyzeFit(a: Analyzer, timetable: seq<Slot>, shifts: seq<Slot>): (r: FitResult)
    ensures 0 <= r.score <= 100
    ensures r.status == StatusOf(r.score)
    ensures r.analysis.Flexible? <==> |shifts| == 0
    ensures |shifts| == 0 ==> r.score == 100 && r.status == PerfectFit
    // With shifts, the score is perfect exactly when nothing was reported.
    ensures r.analysis.Messages? ==> (r.score == 100 <==> |r.analysis.msgs| == 0)
    // Conflict messages come first, then warnings.
    ensures r.analysis.Messages? ==> ConflictsFirst(r.analysis.msgs)
    // Any conflict message makes the label "Conflict".
    ensures r.analysis.Messages? && (exists k :: 0 <= k < |r.analysis.msgs| && r.analysis.msgs[k].IsConflict())
            ==> r.status == Conflict && r.score <= 40
    // A conflict in more than half of the shifts gives a zero score.
    ensures 2 * TallyShifts(a, timetable, shifts).conflicting > |shifts| ==> r.score == 0
  {
    if |shifts| == 0 then FitResult(100, PerfectFit, Flexible)
    else
      var t := TallyShifts(a, timetable, shifts);
      var score := ScheduleScore(|shifts|, t.conflicting, t.tight);
      var msgs := t.conflicts + t.warnings;
      assert forall k :: 0 <= k < |msgs| ==> (msgs[k].IsConflict() <==> k < |t.conflicts|);
      FitResult(score, StatusOf(score), Messages(msgs))
  }

  /**
   * With shifts, the analysis lists the conflicts shift by shift, then the warnings shift by
   * shift (class by class within a shift), and the score is computed from the number of shifts
   * with a conflict and the number of warnings.
   */
  lemma AnalyzeFitCounts(a: Analyzer, timetable: seq<Slot>, shifts: seq<Slot>)
    requires |shifts| > 0
    ensures var r := AnalyzeFit(a, timetable, shifts);
            var vs := Verdicts(a, timetable, shifts);
            var warnings := Concat(WarningLists(vs));
            && r.analysis == Messages(Concat(ConflictLists(vs)) + warnings)
            && r.score == ScheduleScore(|shifts|, multiset(ConflictFlags(vs))[true], |warnings|)
  {
  }

  /** Classes on days without any shift make no difference to the result. */
  lemma {:induction false} OtherDaysIrrelevant(a: Analyzer, timetable: seq<Slot>, extra: seq<Slot>, shifts: seq<Slot>)
    requires forall c, s :: c in extra && s in shifts ==> Text.Lower(c.day) != Text.Lower(s.day)
    ensures AnalyzeFit(a, timetable + extra, shifts) == AnalyzeFit(a, timetable, shifts)
  {
    TallyOtherDays(a, timetable, extra, shifts);
  }

  lemma TallyOtherDays(a: Analyzer, timetable: seq<Slot>, extra: seq<Slot>, shifts: seq<Slot>)
    requires forall c, s :: c in extra && s in shifts ==> Text.Lower(c.day) != Text.Lower(s.day)
    ensures TallyShifts(a, timetable + extra, shifts) == TallyShifts(a, timetable, shifts)
  {
    forall k | 0 <= k < |shifts|
      ensures ShiftVerdict(a, timetable + extra, shifts[k]) == ShiftVerdict(a, timetable, shifts[k])
    {
      var day := Text.Lower(shifts[k].day);
      SameDayAppend(timetable, extra, day);
      NoneOnDay(extra, day);
      assert SameDay(timetable + extra, day) == SameDay(timetable, day);
    }
    assert Verdicts(a, timetable + extra, shifts) == Verdicts(a, timetable, shifts);
  }

  lemma {:induction false} NoneOnDay(classes: seq<Slot>, day: string)
    requires forall c :: c in classes ==> Text.Lower(c.day) != day
    ensures SameDay(classes, day) == []
  {
    if |classes| > 0 {
      NoneOnDay(classes[1..], day);
    }
  }

  /** When no class shares a day with any shift, the job is a perfect fit with an empty message list. */
  lemma NoSharedDayIsPerfect(a: Analyzer, timetable: seq<Slot>, shifts: seq<Slot>)
    requires |shifts| > 0
    requires forall c, s :: c in timetable && s in shifts ==> Text.Lower(c.day) != Text.Lower(s.day)
    ensures AnalyzeFit(a, timetable, shifts) == FitResult(100, PerfectFit, Messages([]))
  {
    OtherDaysIrrelevant(a, [], timetable, shifts);
    assert [] + timetable == timetable;
    EmptyTimetableTally(a, shifts);
  }

  lemma EmptyTimetableTally(a: Analyzer, shifts: seq<Slot>)
    ensures TallyShifts(a, [], shifts) == Tally([], [], 0, 0)
  {
    QuietVerdicts(Verdicts(a, [], shifts));
  }

  /** Verdicts with no message at all add up to nothing. */
  lemma {:induction false} QuietVerdicts(vs: seq<Verdict>)
    requires forall k :: 0 <= k < |vs| ==> vs[k] == Verdict([], None)
    ensures TallyVerdicts(vs) == Tally([], [], 0, 0)
  {
    if |vs| > 0 {
      QuietVerdicts(vs[1..]);
    }
  }

  /** The run over a single shift is that shift's verdict. */
  lemma OneShiftTally(a: Analyzer, timetable: seq<Slot>, shift: Slot)
    ensures var v := ShiftVerdict(a, timetable, shift);
            TallyShifts(a, timetable, [shift])
            == if v.conflict.Some? then Tally([v.conflict.value], v.warnings, 1, |v.warnings|)
               else Tally([], v.warnings, 0, |v.warnings|)
  {
    var v := ShiftVerdict(a, timetable, shift);
    assert Verdicts(a, timetable, [shift]) == [v];
    OneVerdictTally(v);
  }

  lemma OneVerdictTally(v: Verdict)
    requires WellTagged(v)
    ensures TallyVerdicts([v])
            == if v.conflict.Some? then Tally([v.conflict.value], v.warnings, 1, |v.warnings|)
               else Tally([], v.warnings, 0, |v.warnings|)
  {
    assert [v][1..] == [];
    assert TallyVerdicts([v][1..]) == Tally([], [], 0, 0);
    assert v.warnings + [] == v.warnings;
    if v.conflict.Some? {
      assert [v.conflict.value] + [] == [v.conflict.value];
    }
  }

  /** A job with a single shift: its score and messages come from that shift's verdict alone. */
  lemma OneShiftFit(a: Analyzer, timetable: seq<Slot>, shift: Slot)
    ensures var v := ShiftVerdict(a, timetable, shift);
            var conflicting := if v.conflict.Some? then 1 else 0;
            var score := ScheduleScore(1, conflicting, |v.warnings|);
            AnalyzeFit(a, timetable, [shift])
            == FitResult(score, StatusOf(score), Messages(Listed(v.conflict) + v.warnings))
  {
    OneShiftTally(a, timetable, shift);
  }
}
