/**
 * The schedule transformer: the advising records become a routine with one
 * list of entries per weekday. Each record's time-slot name starts with its
 * day codes, and the record is copied into the list of every mapped day.
 */
module Schedule {
  import opened Wrappers
  import opened Text

  datatype Day = Sunday | Monday | Tuesday | Wednesday | Thursday | Friday | Saturday

  /** The days the routine holds, in the order its keys are created. */
  const Week: seq<Day> := [Sunday, Monday, Tuesday, Wednesday, Thursday, Friday, Saturday]

  function DayName(d: Day): string {
    match d
    case Sunday => "Sunday"
    case Monday => "Monday"
    case Tuesday => "Tuesday"
    case Wednesday => "Wednesday"
    case Thursday => "Thursday"
    case Friday => "Friday"
    case Saturday => "Saturday"
  }

  /** The day map: `M`, `S`, `W`, `T` and `R`; any other character is unmapped. */
  function DayOf(code: char): (day: Option<Day>)
    ensures day.Some? <==> code in "MSWTR"
    ensures day != Some(Friday) && day != Some(Saturday)
  {
    if code == 'M' then Some(Monday)
    else if code == 'S' then Some(Sunday)
    else if code == 'W' then Some(Wednesday)
    else if code == 'T' then Some(Tuesday)
    else if code == 'R' then Some(Thursday)
    else None
  }

  /** One record of the advising API. */
  datatype CourseSlot = CourseSlot(
    courseCode: string, sectionName: string, facultyName: string, shortName: string,
    email: string, roomName: string, timeSlotName: string)

  datatype CourseType = Lab | Theory

  /** One entry of the routine. */
  datatype Entry = Entry(
    courseCode: string, courseType: CourseType, section: string, faculty: string,
    shortName: string, email: string, time: string, room: string)

  predicate IsUpper(c: char) {
    'A' <= c <= 'Z'
  }

  /** The length of the leading run of `[A-Z]`. */
  function UpperRun(s: string): (n: nat)
    ensures n <= |s|
    ensures forall k :: 0 <= k < n ==> IsUpper(s[k])
    ensures n == |s| || !IsUpper(s[n])
  {
    if s != [] && IsUpper(s[0]) then 1 + UpperRun(s[1..]) else 0
  }

  /** The pattern `^([A-Z]+)\s` matches `s`, its letters ending before `k`. */
  predicate PrefixAt(s: string, k: int) {
    0 < k < |s| && (forall i :: 0 <= i < k ==> IsUpper(s[i])) && IsSpace(s[k])
  }

  /** Where the letters of the match end, if the pattern matches. */
  function PrefixEnd(s: string): Option<nat> {
    var n := UpperRun(s);
    if 0 < n < |s| && IsSpace(s[n]) then Some(n) else None
  }

  /** The captured day codes, or the empty string when the pattern does not match. */
  function DayCodes(timeSlot: string): (codes: string)
    ensures codes <= timeSlot
    ensures forall k :: 0 <= k < |codes| ==> IsUpper(codes[k])
    ensures codes != [] ==> |codes| < |timeSlot| && IsSpace(timeSlot[|codes|])
  {
    match PrefixEnd(timeSlot)
    case Some(n) => timeSlot[..n]
    case None => ""
  }

  /** The time-slot name with the matched prefix, if any, removed. */
  function TimeOf(timeSlot: string): (time: string)
    ensures |time| <= |timeSlot| && time == timeSlot[|timeSlot| - |time|..]
    ensures time == timeSlot <==> DayCodes(timeSlot) == ""
  {
    match PrefixEnd(timeSlot)
    case Some(n) => timeSlot[n + 1..]
    case None => timeSlot
  }

  /**
   * The day codes are non-empty exactly when the pattern matches; then they
   * are the matched letters and the time is what follows the one whitespace
   * character after them. Without a match the time is the whole name.
   */
  lemma TimeSlotSplit(s: string)
    ensures (exists k :: PrefixAt(s, k)) <==> DayCodes(s) != ""
    ensures forall k :: PrefixAt(s, k) ==> DayCodes(s) == s[..k] && TimeOf(s) == s[k + 1..]
    ensures DayCodes(s) == "" ==> TimeOf(s) == s
  {
    var n := UpperRun(s);
    forall k | PrefixAt(s, k)
      ensures n == k
    {
      if n > k {
        assert false;
      }
    }
    if PrefixEnd(s).Some? {
      assert PrefixAt(s, n);
      assert s[..n] != "";
    }
  }

  /** The routine classifies a course as a lab exactly when its code,
      lower-cased, contains `lab`. */
  function CourseTypeOf(courseCode: string): (t: CourseType)
    ensures courseCode == "" ==> t == Theory
    ensures t == Lab ==> |courseCode| >= 3
  {
    if courseCode != "" && Contains(Lower(courseCode), "lab") then Lab else Theory
  }

  /** `lab` spelt in any mix of cases starts at position `i` of `code`. */
  predicate LabAt(code: string, i: int) {
    0 <= i && i + 3 <= |code|
    && LowerChar(code[i]) == 'l' && LowerChar(code[i + 1]) == 'a' && LowerChar(code[i + 2]) == 'b'
  }

  lemma {:induction false} LabIff(code: string)
    ensures CourseTypeOf(code) == Lab <==> exists i :: LabAt(code, i)
  {
    var low := Lower(code);
    ContainsAt(low, "lab");
    if CourseTypeOf(code) == Lab {
      var i :| OccursAt(low, "lab", i);
      assert low[i..i + 3][0] == 'l' && low[i..i + 3][1] == 'a' && low[i..i + 3][2] == 'b';
      assert LabAt(code, i);
    }
    if i :| LabAt(code, i) {
      assert low[i..i + 3] == "lab";
      assert OccursAt(low, "lab", i);
    }
  }

  /** The entry a record contributes to each of its days. */
  function MakeEntry(course: CourseSlot): (e: Entry)
    ensures e.courseType == Lab ==> |e.courseCode| >= 3
    ensures |e.time| <= |course.timeSlotName|
  {
    Entry(course.courseCode, CourseTypeOf(course.courseCode), course.sectionName,
          course.facultyName, course.shortName, course.email,
          TimeOf(course.timeSlotName), course.roomName)
  }

  /** How many of `codes` map to day `d`. */
  function CodeCount(codes: string, d: Day): nat {
    if codes == [] then 0
    else CodeCount(codes[..|codes| - 1], d) + (if DayOf(codes[|codes| - 1]) == Some(d) then 1 else 0)
  }

  /** How many of `codes` are in the day map. */
  function MappedCount(codes: string): nat {
    if codes == [] then 0
    else MappedCount(codes[..|codes| - 1]) + (if DayOf(codes[|codes| - 1]).Some? then 1 else 0)
  }

  /** The entries pushed onto day `d` while walking `codes` in order. */
  function EntriesForCodes(codes: string, e: Entry, d: Day): seq<Entry> {
    if codes == [] then []
    else EntriesForCodes(codes[..|codes| - 1], e, d) + (if DayOf(codes[|codes| - 1]) == Some(d) then [e] else [])
  }

  /** The entries one record contributes to day `d`. */
  function EntriesFor(course: CourseSlot, d: Day): seq<Entry> {
    EntriesForCodes(DayCodes(course.timeSlotName), MakeEntry(course), d)
  }

  /** The list of day `d` after the records have been processed in order. */
  function DayList(records: seq<CourseSlot>, d: Day): seq<Entry> {
    ConcatMap(records, course => EntriesFor(course, d))
  }

  /** The lists `f` gives for the elements of `xs`, concatenated in order. */
  function ConcatMap<T, U>(xs: seq<T>, f: T -> seq<U>): seq<U> {
    if xs == [] then [] else ConcatMap(xs[..|xs| - 1], f) + f(xs[|xs| - 1])
  }

  lemma {:induction false} ConcatMapAppend<T, U>(xs: seq<T>, ys: seq<T>, f: T -> seq<U>)
    ensures ConcatMap(xs + ys, f) == ConcatMap(xs, f) + ConcatMap(ys, f)
  {
    if ys != [] {
      var init, last := ys[..|ys| - 1], ys[|ys| - 1];
      assert (xs + ys)[..|xs + ys| - 1] == xs + init;
      assert (xs + ys)[|xs + ys| - 1] == last;
      ConcatMapAppend(xs, init, f);
    } else {
      assert xs + ys == xs;
    }
  }

  /** The routine as its JSON object: the seven days in key order, each with its list. */
  function WeeklyJson(records: seq<CourseSlot>): seq<(string, seq<Entry>)> {
    seq(7, i requires 0 <= i < 7 => (DayName(Week[i]), DayList(records, Week[i])))
  }

  /** A record contributes copies of its one entry, as many to a day as
      its codes name that day. */
  lemma {:induction false} EntriesAreCopies(codes: string, e: Entry, d: Day)
    ensures |EntriesForCodes(codes, e, d)| == CodeCount(codes, d)
    ensures forall k :: 0 <= k < |EntriesForCodes(codes, e, d)| ==> EntriesForCodes(codes, e, d)[k] == e
  {
    if codes != [] {
      EntriesAreCopies(codes[..|codes| - 1], e, d);
    }
  }

  /** Every entry a record contributes to a day carries the record's fields
      unchanged, its course type and its time with the day prefix removed,
      and there is one per code of the record that names the day. */
  lemma EntriesOfRecord(course: CourseSlot, d: Day)
    ensures |EntriesFor(course, d)| == CodeCount(DayCodes(course.timeSlotName), d)
    ensures forall e :: e in EntriesFor(course, d) ==>
              && e.courseCode == course.courseCode && e.section == course.sectionName
              && e.faculty == course.facultyName && e.shortName == course.shortName
              && e.email == course.email && e.room == course.roomName
              && e.courseType == CourseTypeOf(course.courseCode)
              && e.time == TimeOf(course.timeSlotName)
  {
    EntriesAreCopies(DayCodes(course.timeSlotName), MakeEntry(course), d);
  }

  /** No code maps to Friday or Saturday. */
  lemma {:induction false} NoWeekendCodes(codes: string, e: Entry)
    ensures EntriesForCodes(codes, e, Friday) == [] && EntriesForCodes(codes, e, Saturday) == []
  {
    if codes != [] {
      NoWeekendCodes(codes[..|codes| - 1], e);
    }
  }

  /** Friday and Saturday stay empty whatever the records. */
  lemma {:induction false} WeekendEmpty(records: seq<CourseSlot>)
    ensures DayList(records, Friday) == [] && DayList(records, Saturday) == []
  {
    if records != [] {
      var last := records[|records| - 1];
      WeekendEmpty(records[..|records| - 1]);
      NoWeekendCodes(DayCodes(last.timeSlotName), MakeEntry(last));
    }
  }

  /** Processing one more record appends its entries to each day's list. */
  lemma DayListSnoc(records: seq<CourseSlot>, course: CourseSlot, d: Day)
    ensures DayList(records + [course], d) == DayList(records, d) + EntriesFor(course, d)
  {
    assert (records + [course])[..|records|] == records;
  }

  /** Each day's list is built in record order: the records of a prefix come
      first, those of the rest after them. */
  lemma DayListAppend(front: seq<CourseSlot>, back: seq<CourseSlot>, d: Day)
    ensures DayList(front + back, d) == DayList(front, d) + DayList(back, d)
  {
    ConcatMapAppend(front, back, course => EntriesFor(course, d));
  }

  /** A record whose time-slot name does not start with day codes and
      whitespace leaves every list unchanged. */
  lemma NoPrefixNoEntries(records: seq<CourseSlot>, course: CourseSlot, d: Day)
    requires forall k :: !PrefixAt(course.timeSlotName, k)
    ensures DayList(records + [course], d) == DayList(records, d)
  {
    TimeSlotSplit(course.timeSlotName);
    DayListSnoc(records, course, d);
  }

  /** The number of entries of a routine: the sum of its seven lists. */
  function RoutineSize(records: seq<CourseSlot>): nat {
    |DayList(records, Sunday)| + |DayList(records, Monday)| + |DayList(records, Tuesday)|
    + |DayList(records, Wednesday)| + |DayList(records, Thursday)| + |DayList(records, Friday)|
    + |DayList(records, Saturday)|
  }

  /** The number of mapped day codes over all records. */
  function MappedTotal(records: seq<CourseSlot>): nat {
    if records == [] then 0
    else MappedTotal(records[..|records| - 1]) + MappedCount(DayCodes(records[|records| - 1].timeSlotName))
  }

  lemma {:induction false} CodeCountsSum(codes: string)
    ensures CodeCount(codes, Sunday) + CodeCount(codes, Monday) + CodeCount(codes, Tuesday)
            + CodeCount(codes, Wednesday) + CodeCount(codes, Thursday) + CodeCount(codes, Friday)
            + CodeCount(codes, Saturday) == MappedCount(codes)
  {
    if codes != [] {
      CodeCountsSum(codes[..|codes| - 1]);
    }
  }

  /** The routine holds one entry per mapped day-code character of each record. */
  lemma {:induction false} RoutineSizeIsCodeCount(records: seq<CourseSlot>)
    ensures RoutineSize(records) == MappedTotal(records)
  {
    if records != [] {
      var last := records[|records| - 1];
      var codes := DayCodes(last.timeSlotName);
      var e := MakeEntry(last);
      RoutineSizeIsCodeCount(records[..|records| - 1]);
      EntriesAreCopies(codes, e, Sunday);
      EntriesAreCopies(codes, e, Monday);
      EntriesAreCopies(codes, e, Tuesday);
      EntriesAreCopies(codes, e, Wednesday);
      EntriesAreCopies(codes, e, Thursday);
      EntriesAreCopies(codes, e, Friday);
      EntriesAreCopies(codes, e, Saturday);
      CodeCountsSum(codes);
    }
  }

  /** The routine's keys are the seven day names, Sunday first, and its
      last two lists are empty. */
  lemma WeeklyJsonShape(records: seq<CourseSlot>)
    ensures |WeeklyJson(records)| == 7
    ensures forall i :: 0 <= i < 7 ==>
              (WeeklyJson(records)[i].0 == ["Sunday", "Monday", "Tuesday", "Wednesday", "Thursday", "Friday", "Saturday"][i])
    ensures WeeklyJson(records)[5].1 == [] && WeeklyJson(records)[6].1 == []
  {
    WeekendEmpty(records);
  }

  /** The routine object the handler fills: one list per day, keyed by day. */
  class Routine {
    var lists: map<Day, seq<Entry>>

    ghost predicate Valid()
      reads this
    {
      forall d: Day :: d in lists
    }

    /** The seven empty lists. */
    constructor ()
      ensures Valid()
      ensures forall d: Day :: lists[d] == []
    {
      lists := map[Sunday := [], Monday := [], Tuesday := [], Wednesday := [],
                   Thursday := [], Friday := [], Saturday := []];
      new;
      forall d: Day
        ensures d in lists
      {
        match d
        case Sunday =>
        case Monday =>
        case Tuesday =>
        case Wednesday =>
        case Thursday =>
        case Friday =>
        case Saturday =>
      }
    }

    /** Appends one entry to the list of day `d`. */
    method Push(d: Day, e: Entry)
      requires Valid()
      modifies this
      ensures Valid()
      ensures lists == old(lists)[d := old(lists)[d] + [e]]
    {
      lists := lists[d := lists[d] + [e]];
    }

    /** The routine as its JSON object, keys in creation order. */
    function Json(): seq<(string, seq<Entry>)>
      reads this
      requires Valid()
    {
      var days := lists;
      seq(7, i requires 0 <= i < 7 => (DayName(Week[i]), days[Week[i]]))
    }
  }

  /** Pushes one record's entry onto the list of each mapped day of `codes`,
      in order. */
  method PushCodes(routine: Routine, codes: string, entry: Entry)
    requires routine.Valid()
    modifies routine
    ensures routine.Valid()
    ensures forall d: Day :: routine.lists[d] == old(routine.lists[d]) + EntriesForCodes(codes, entry, d)
  {
    var j := 0;
    while j < |codes|
      invariant 0 <= j <= |codes|
      invariant routine.Valid()
      invariant forall d: Day :: routine.lists[d] == old(routine.lists[d]) + EntriesForCodes(codes[..j], entry, d)
    {
      var day := DayOf(codes[j]);
      if day.Some? {
        routine.Push(day.value, entry);
      }
      assert codes[..j + 1][..j] == codes[..j];
      j := j + 1;
    }
    assert codes[..j] == codes;
  }

  /** Walks the records in order and, for each, its day codes in order,
      pushing the record's entry onto the list of every mapped day. */
  method BuildRoutine(records: seq<CourseSlot>) returns (routine: Routine)
    ensures routine.Valid()
    ensures forall d: Day :: routine.lists[d] == DayList(records, d)
    ensures routine.Json() == WeeklyJson(records)
  {
    routine := new Routine();
    var i := 0;
    while i < |records|
      invariant 0 <= i <= |records|
      invariant routine.Valid()
      invariant forall d: Day :: routine.lists[d] == DayList(records[..i], d)
    {
      var course := records[i];
      PushCodes(routine, DayCodes(course.timeSlotName), MakeEntry(course));
      assert records[..i + 1][..i] == records[..i];
      i := i + 1;
    }
    assert records[..i] == records;
  }
}
