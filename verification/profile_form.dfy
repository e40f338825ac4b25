/** The teacher-profile form logic that both dashboards carry, line for line, in their own copy:
    clock strings to minutes, each weekday's elapsed minutes, the weekly total against the
    quota `chRegimeBasico * 15`, the HH:MM rendering, the five-way validity gate, the
    `"start às end"` serialisation of a day and the regular expression that reads it back,
    the MASP formatter, the edits of the form's fields, the teacher record a valid form saves, and
    the guard on a new activity-type name. */
module ProfileForm {
  import opened Text
  import opened Records

  /** A clock string: hour digits, a colon, two minute digits. */
  predicate IsClock(t: string) {
    |t| >= 4 && t[|t| - 3] == ':' && AllDigits(t[..|t| - 3]) && IsDigit(t[|t| - 2]) && IsDigit(t[|t| - 1])
  }

  /** The two-digit "HH:MM" that a time input produces and `\d{2}:\d{2}` captures. */
  predicate IsHHMM(t: string) {
    |t| == 5 && IsDigit(t[0]) && IsDigit(t[1]) && t[2] == ':' && IsDigit(t[3]) && IsDigit(t[4])
  }

  lemma HHMMIsClock(t: string)
    requires IsHHMM(t)
    ensures IsClock(t)
  {
    assert t[..2] == [t[0], t[1]];
  }

  /** What a time field of the form can hold: empty, or a clock string. */
  type TimeText = t: string | t == "" || IsClock(t)

  datatype DayRange = DayRange(start: TimeText, end: TimeText)

  const EmptyRange: DayRange := DayRange("", "")

  const EmptySchedule: Week<DayRange> := Week(EmptyRange, EmptyRange, EmptyRange, EmptyRange, EmptyRange)

  /** The form state `{name, masp, subject, chRegimeBasico, schedule}` of both dashboards. */
  datatype TeacherForm = TeacherForm(
    name: string,
    masp: string,
    subject: string,
    chRegimeBasico: int,
    schedule: Week<DayRange>)

  const EmptyForm: TeacherForm := TeacherForm("", "", "", 0, EmptySchedule)

  /** The digits before the colon of a clock string. */
  function HoursPart(t: string): (hs: string)
    requires IsClock(t)
    ensures AllDigits(hs) && |hs| == |t| - 3
  {
    t[..|t| - 3]
  }

  /** The two digits after the colon of a clock string. */
  function MinutesPart(t: string): (ms: string)
    requires IsClock(t)
    ensures AllDigits(ms) && |ms| == 2
  {
    var ms := t[|t| - 2..];
    assert ms == [t[|t| - 2], t[|t| - 1]];
    ms
  }

  /** `timeToMinutes`: 0 for the empty string, otherwise hours * 60 + minutes. */
  function TimeToMinutes(t: TimeText): (m: nat)
    ensures t == "" ==> m == 0
    ensures t != "" && DecimalValue(MinutesPart(t)) < 60 ==>
      m / 60 == DecimalValue(HoursPart(t)) && m % 60 == DecimalValue(MinutesPart(t))
  {
    if t == "" then 0
    else DecimalValue(HoursPart(t)) * 60 + DecimalValue(MinutesPart(t))
  }

  /** A two-digit clock "HH:MM" reads as HH * 60 + MM. */
  lemma HHMMMinutes(t: string)
    requires IsHHMM(t)
    ensures IsClock(t)
    ensures TimeToMinutes(t) == (DigitValue(t[0]) * 10 + DigitValue(t[1])) * 60 + DigitValue(t[3]) * 10 + DigitValue(t[4])
  {
    HHMMIsClock(t);
    assert t[..2] == [t[0], t[1]] && t[3..] == [t[3], t[4]];
    TwoDigitValue(t[..2]);
    TwoDigitValue(t[3..]);
  }

  /** `calculateDayMinutes`: the minutes from start to end, clamped at zero. */
  function DayMinutes(start: TimeText, end: TimeText): (m: nat)
    ensures m == 0 <==> TimeToMinutes(end) <= TimeToMinutes(start)
    ensures m > 0 ==> TimeToMinutes(start) + m == TimeToMinutes(end)
    ensures m <= TimeToMinutes(end)
  {
    var s, e := TimeToMinutes(start), TimeToMinutes(end);
    if e > s then e - s else 0
  }

  function RangeMinutes(r: DayRange): nat { DayMinutes(r.start, r.end) }

  /** An empty start reads as 00:00, so a day with only an end time counts that end's full minutes. */
  lemma EndOnlyCountsFromMidnight(end: TimeText)
    ensures DayMinutes("", end) == TimeToMinutes(end)
  {
  }

  /** The left-to-right sum of the listed days' minutes. */
  function SumDays(days: seq<Weekday>, w: Week<DayRange>): nat {
    if days == [] then 0 else SumDays(days[..|days| - 1], w) + RangeMinutes(w.Get(days[|days| - 1]))
  }

  /** The weekly total, `currentTotalMinutes`, as a specification. */
  function TotalMinutes(w: Week<DayRange>): nat {
    SumDays(Days, w)
  }

  lemma SumDaysSnoc(days: seq<Weekday>, d: Weekday, w: Week<DayRange>)
    ensures SumDays(days + [d], w) == SumDays(days, w) + RangeMinutes(w.Get(d))
  {
    assert (days + [d])[..|days|] == days;
  }

  /** The weekly total is the sum of the five days' results. */
  lemma TotalIsSumOfDays(w: Week<DayRange>)
    ensures TotalMinutes(w) == RangeMinutes(w.segunda) + RangeMinutes(w.terca) + RangeMinutes(w.quarta)
                               + RangeMinutes(w.quinta) + RangeMinutes(w.sexta)
  {
    SumDaysSnoc([], Segunda, w);
    assert [] + [Segunda] == [Segunda];
    SumDaysSnoc([Segunda], Terca, w);
    assert [Segunda] + [Terca] == [Segunda, Terca];
    assert [Segunda, Terca] + [Quarta] == [Segunda, Terca, Quarta];
    assert [Segunda, Terca, Quarta] + [Quinta] == [Segunda, Terca, Quarta, Quinta];
    SumDaysSnoc([Segunda, Terca], Quarta, w);
    SumDaysSnoc([Segunda, Terca, Quarta], Quinta, w);
    SumDaysSnoc([Segunda, Terca, Quarta, Quinta], Sexta, w);
    assert [Segunda, Terca, Quarta, Quinta] + [Sexta] == Days;
  }

  /** A schedule whose every slot is empty totals zero. */
  lemma EmptyScheduleTotalsZero(w: Week<DayRange>)
    requires forall d :: w.Get(d) == EmptyRange
    ensures TotalMinutes(w) == 0
  {
    TotalIsSumOfDays(w);
    assert w.Get(Segunda) == EmptyRange && w.Get(Terca) == EmptyRange && w.Get(Quarta) == EmptyRange;
    assert w.Get(Quinta) == EmptyRange && w.Get(Sexta) == EmptyRange;
  }

  /** `currentTotalMinutes`: the reduce over the five days of the form. */
  method CurrentTotalMinutes(w: Week<DayRange>) returns (total: nat)
    ensures total == TotalMinutes(w)
  {
    total := 0;
    for i := 0 to |Days|
      invariant total == SumDays(Days[..i], w)
    {
      assert Days[..i + 1][..i] == Days[..i];
      total := total + DayMinutes(w.Get(Days[i]).start, w.Get(Days[i]).end);
    }
    assert Days[..|Days|] == Days;
  }

  /** `targetMinutes`: one class period of base workload asks for 15 minutes of extra duty. */
  function RequiredMinutes(chRegimeBasico: int): (r: int)
    ensures r % 15 == 0 && r / 15 == chRegimeBasico
  {
    chRegimeBasico * 15
  }

  /** `String(n).padStart(2, '0')`: a numeral of at least two digits that reads back as `n`, with
      exactly two digits when `n` is below 100. */
  function Padded(n: nat): (s: string)
    ensures AllDigits(s) && DecimalValue(s) == n
    ensures |s| >= 2
    ensures |s| == 2 <==> n < 100
    ensures |s| > 2 ==> s[0] != '0'
  {
    PadTwo(DecimalString(n))
  }

  /** "HH:MM" with both parts padded to at least two digits. */
  function Clock(h: nat, m: nat): string {
    Padded(h) + ":" + Padded(m)
  }

  /** A clock string built from two digit strings: hours of any width, two minute digits. */
  lemma ClockOfParts(hs: string, ms: string)
    requires AllDigits(hs) && |hs| >= 1 && AllDigits(ms) && |ms| == 2
    ensures IsClock(hs + ":" + ms)
    ensures (hs + ":" + ms)[..|hs|] == hs && (hs + ":" + ms)[|hs| + 1..] == ms
  {
    var t := hs + ":" + ms;
    assert t[..|t| - 3] == hs;
    assert t[|t| - 2] == ms[0] && t[|t| - 1] == ms[1];
  }

  /** Such a clock string reads as its hours times 60 plus its minutes. */
  lemma ClockOfPartsMinutes(hs: string, ms: string, h: nat, m: nat, t: string)
    requires AllDigits(hs) && |hs| >= 1 && AllDigits(ms) && |ms| == 2
    requires DecimalValue(hs) == h && DecimalValue(ms) == m
    requires t == hs + ":" + ms
    ensures IsClock(t)
    ensures HoursPart(t) == hs && MinutesPart(t) == ms
    ensures TimeToMinutes(t) == h * 60 + m
  {
    ClockOfParts(hs, ms);
    assert t[|t| - 2..] == ms;
  }

  /** Such a clock string has the two-digit "HH:MM" shape exactly when the hours have two digits. */
  lemma ClockOfPartsShape(hs: string, ms: string, t: string)
    requires AllDigits(hs) && |hs| >= 1 && AllDigits(ms) && |ms| == 2
    requires t == hs + ":" + ms
    ensures IsHHMM(t) <==> |hs| == 2
  {
    if |hs| == 2 {
      assert t[0] == hs[0] && t[1] == hs[1] && t[2] == ':' && t[3] == ms[0] && t[4] == ms[1];
    }
  }

  lemma ClockReadsBack(h: nat, m: nat)
    requires m < 100
    ensures IsClock(Clock(h, m)) && TimeToMinutes(Clock(h, m)) == h * 60 + m
    ensures HoursPart(Clock(h, m)) == Padded(h) && MinutesPart(Clock(h, m)) == Padded(m)
    ensures IsHHMM(Clock(h, m)) <==> h < 100
  {
    var hs, ms := Padded(h), Padded(m);
    ClockOfPartsMinutes(hs, ms, h, m, Clock(h, m));
    ClockOfPartsShape(hs, ms, Clock(h, m));
  }

  /** `formatMinutesToHHMM`: the whole hours, padded to two digits and not capped, a colon, and
      the remaining minutes padded to two digits; it reads back as the same minutes. */
  function FormatMinutes(mins: nat): (r: TimeText)
    ensures IsClock(r)
    ensures DecimalValue(HoursPart(r)) == mins / 60 && DecimalValue(MinutesPart(r)) == mins % 60
    ensures |HoursPart(r)| == 2 || HoursPart(r)[0] != '0'
    ensures TimeToMinutes(r) == mins
    ensures IsHHMM(r) <==> mins < 6000
  {
    ClockReadsBack(mins / 60, mins % 60);
    Clock(mins / 60, mins % 60)
  }

  /** `isFormValid` / `isProfileValid`: the five conditions that all must hold before a save. */
  function IsFormValid(f: TeacherForm): (ok: bool)
    ensures ok <==> && !IsBlank(f.name)
                    && |f.masp| >= 3
                    && !IsBlank(f.subject)
                    && f.chRegimeBasico > 0
                    && TotalMinutes(f.schedule) == RequiredMinutes(f.chRegimeBasico)
  {
    && Trim(f.name) != ""
    && |f.masp| >= 3
    && Trim(f.subject) != ""
    && f.chRegimeBasico > 0
    && TotalMinutes(f.schedule) == RequiredMinutes(f.chRegimeBasico)
  }

  /** One day as stored on the teacher: `"start às end"` when both ends are set, otherwise empty. */
  function FormatSlot(r: DayRange): (s: string)
    ensures s == "" <==> r.start == "" || r.end == ""
  {
    if r.start != "" && r.end != "" then r.start + " às " + r.end else ""
  }

  /** A stored day with both ends set is the start, the word "às" between two spaces, and the end. */
  lemma FormatSlotParts(r: DayRange)
    requires r.start != "" && r.end != ""
    ensures var s := FormatSlot(r);
      && |s| == |r.start| + 4 + |r.end|
      && s[..|r.start|] == r.start && s[|r.start|..|r.start| + 4] == " às " && s[|r.start| + 4..] == r.end
  {
    var s := FormatSlot(r);
    assert s == r.start + " às " + r.end;
    assert s[..|r.start|] == r.start;
    assert s[|r.start|..|r.start| + 4] == " às ";
  }

  predicate ClockAt(s: string, i: nat) {
    i + 5 <= |s| && IsHHMM(s[i..i + 5])
  }

  /** The regular expression `(\d{2}:\d{2})\s*às\s*(\d{2}:\d{2})` matches with its first clock at
      `i`, the word "às" at `j` and its second clock at `k`, only whitespace in between. */
  predicate RegexAt(s: string, i: nat, j: nat, k: nat) {
    && ClockAt(s, i) && i + 5 <= j && j + 2 <= k && ClockAt(s, k)
    && (forall m :: i + 5 <= m < j ==> IsSpace(s[m]))
    && s[j] == 'à' && s[j + 1] == 's'
    && (forall m :: j + 2 <= m < k ==> IsSpace(s[m]))
  }

  /** Neither "à" nor a digit is whitespace, so each `\s*` must consume the whole run of
      whitespace: a match at `i` has its word and second clock where the greedy runs end. */
  lemma RegexAtIsGreedy(s: string, i: nat, j: nat, k: nat)
    requires RegexAt(s, i, j, k)
    ensures j == SkipSpaces(s, i + 5) && k == SkipSpaces(s, j + 2)
  {
    assert !IsSpace(s[j]);
    assert IsDigit(s[k..k + 5][0]) && s[k..k + 5][0] == s[k];
    assert !IsSpace(s[k]);
  }

  /** The regular expression anchored at position `i`, as its two captured groups. */
  function MatchAt(s: string, i: nat): (r: Option<(string, string)>)
    requires i <= |s|
    ensures r.Some? ==> IsHHMM(r.value.0) && IsHHMM(r.value.1)
  {
    if !ClockAt(s, i) then None
    else
      var j := SkipSpaces(s, i + 5);
      if j + 2 <= |s| && s[j] == 'à' && s[j + 1] == 's' then
        var k := SkipSpaces(s, j + 2);
        if ClockAt(s, k) then Some((s[i..i + 5], s[k..k + 5])) else None
      else None
  }

  /** An anchored match that succeeds is a match of the expression at `i`, and captures its two
      clocks. */
  lemma MatchAtSound(s: string, i: nat)
    requires i <= |s| && MatchAt(s, i).Some?
    ensures exists j: nat, k: nat :: RegexAt(s, i, j, k) && MatchAt(s, i).value == (s[i..i + 5], s[k..k + 5])
  {
    var j := SkipSpaces(s, i + 5);
    var k := SkipSpaces(s, j + 2);
    assert RegexAt(s, i, j, k);
  }

  /** An anchored match fails only where the expression does not match at `i`. */
  lemma MatchAtComplete(s: string, i: nat, j: nat, k: nat)
    requires i <= |s| && RegexAt(s, i, j, k)
    ensures MatchAt(s, i) == Some((s[i..i + 5], s[k..k + 5]))
  {
    RegexAtIsGreedy(s, i, j, k);
  }

  /** The leftmost match starting at or after position `i`. */
  function SearchFrom(s: string, i: nat): (r: Option<(string, string)>)
    requires i <= |s|
    ensures r.Some? ==> IsHHMM(r.value.0) && IsHHMM(r.value.1)
    decreases |s| - i
  {
    if i == |s| then None
    else if MatchAt(s, i).Some? then MatchAt(s, i)
    else SearchFrom(s, i + 1)
  }

  /** The search returns the anchored match at the first position where one succeeds, and
      nothing when none does. */
  lemma {:induction false} SearchFromMeaning(s: string, i: nat) returns (p: nat)
    requires i <= |s|
    ensures i <= p <= |s|
    ensures SearchFrom(s, i) == if p < |s| then MatchAt(s, p) else None
    ensures p < |s| ==> MatchAt(s, p).Some?
    ensures forall q :: i <= q < p ==> MatchAt(s, q).None?
    decreases |s| - i
  {
    if i == |s| || MatchAt(s, i).Some? {
      p := i;
    } else {
      var m := MatchAt(s, i);
      p := SearchFromMeaning(s, i + 1);
      forall q | i <= q < p
        ensures MatchAt(s, q).None?
      {
        if q == i {
          assert MatchAt(s, q) == m;
        }
      }
    }
  }

  /** `timeStr.match(/(\d{2}:\d{2})\s*às\s*(\d{2}:\d{2})/)`, as its two captured groups. */
  function ParseSlot(s: string): (r: Option<(string, string)>)
    ensures r.Some? ==> IsHHMM(r.value.0) && IsHHMM(r.value.1)
  {
    SearchFrom(s, 0)
  }

  /** What `match` returns: nothing exactly when the expression matches nowhere, and otherwise
      the groups of the match that starts leftmost. */
  lemma ParseSlotMeaning(s: string)
    ensures ParseSlot(s).None? <==> forall p: nat, j: nat, k: nat :: !RegexAt(s, p, j, k)
    ensures ParseSlot(s).Some? ==> exists p: nat, j: nat, k: nat ::
      && RegexAt(s, p, j, k) && ParseSlot(s).value == (s[p..p + 5], s[k..k + 5])
      && forall q: nat, j': nat, k': nat :: q < p ==> !RegexAt(s, q, j', k')
  {
    var p := SearchFromMeaning(s, 0);
    if p == |s| {
      forall q: nat, j: nat, k: nat ensures !RegexAt(s, q, j, k) {
        if q < |s| && RegexAt(s, q, j, k) {
          MatchAtComplete(s, q, j, k);
        }
      }
    } else {
      MatchAtSound(s, p);
      forall q: nat, j': nat, k': nat | q < p ensures !RegexAt(s, q, j', k') {
        if RegexAt(s, q, j', k') {
          MatchAtComplete(s, q, j', k');
        }
      }
    }
  }

  /** A stored day back into the form: the captured pair, or two empty fields when nothing matches. */
  function SlotToRange(s: string): (r: DayRange)
    ensures r == EmptyRange || (IsHHMM(r.start) && IsHHMM(r.end))
    ensures r == EmptyRange <==> ParseSlot(s).None?
    ensures ParseSlot(s).Some? ==> ParseSlot(s).value == (r.start, r.end)
  {
    match ParseSlot(s)
    case Some((a, b)) =>
      HHMMIsClock(a);
      HHMMIsClock(b);
      DayRange(a, b)
    case None => EmptyRange
  }

  /** Reading a formatted day recovers the pair that was written. */
  lemma SlotRoundTrip(r: DayRange)
    requires IsHHMM(r.start) && IsHHMM(r.end)
    ensures ParseSlot(FormatSlot(r)) == Some((r.start, r.end))
    ensures SlotToRange(FormatSlot(r)) == r
  {
    var s := FormatSlot(r);
    assert s == r.start + " às " + r.end;
    assert |s| == 14;
    assert s[0..5] == r.start;
    assert s[9..14] == r.end;
    assert ClockAt(s, 0);
    assert s[5] == ' ' && s[6] == 'à' && s[7] == 's' && s[8] == ' ';
    assert SkipSpaces(s, 6) == 6;
    assert SkipSpaces(s, 5) == 6;
    assert !IsSpace(s[9]);
    assert SkipSpaces(s, 9) == 9;
    assert SkipSpaces(s, 8) == 9;
    assert ClockAt(s, 9);
    assert MatchAt(s, 0) == Some((r.start, r.end));
  }

  /** A day with a missing end is stored as "" and reads back as two empty fields. */
  lemma IncompleteSlotReadsEmpty(r: DayRange)
    requires r.start == "" || r.end == ""
    ensures FormatSlot(r) == ""
    ensures SlotToRange(FormatSlot(r)) == EmptyRange
  {
  }

  /** `(teacher.schedule as any)?.[day.key] || ''`. */
  function StoredSlot(stored: Option<Week<string>>, d: Weekday): string {
    match stored
    case Some(w) => w.Get(d)
    case None => ""
  }

  /** The `formattedSchedule` object that a save builds, day by day. */
  function FormattedSchedule(w: Week<DayRange>): (out: Week<string>)
    ensures forall d :: out.Get(d) == FormatSlot(w.Get(d))
  {
    Week(FormatSlot(w.segunda), FormatSlot(w.terca), FormatSlot(w.quarta), FormatSlot(w.quinta), FormatSlot(w.sexta))
  }

  /** The `newSchedule` object that opening a teacher in the form builds, day by day. */
  function ParsedSchedule(stored: Option<Week<string>>): (form: Week<DayRange>)
    ensures forall d :: form.Get(d) == SlotToRange(StoredSlot(stored, d))
  {
    Week(SlotToRange(StoredSlot(stored, Segunda)), SlotToRange(StoredSlot(stored, Terca)),
         SlotToRange(StoredSlot(stored, Quarta)), SlotToRange(StoredSlot(stored, Quinta)),
         SlotToRange(StoredSlot(stored, Sexta)))
  }

  /** The `DAYS.forEach` loop of `handleSaveTeacher` and `handleSaveProfile`. */
  method FormatSchedule(w: Week<DayRange>) returns (out: Week<string>)
    ensures out == FormattedSchedule(w)
  {
    out := Week("", "", "", "", "");
    for i := 0 to |Days|
      invariant forall k :: 0 <= k < i ==> out.Get(Days[k]) == FormatSlot(w.Get(Days[k]))
    {
      out := out.Set(Days[i], FormatSlot(w.Get(Days[i])));
    }
    assert out.Get(Days[0]) == FormatSlot(w.Get(Days[0])) && out.Get(Days[1]) == FormatSlot(w.Get(Days[1]));
    assert out.Get(Days[2]) == FormatSlot(w.Get(Days[2])) && out.Get(Days[3]) == FormatSlot(w.Get(Days[3]));
    assert out.Get(Days[4]) == FormatSlot(w.Get(Days[4]));
  }

  /** The `DAYS.forEach` loop of the effects that load a teacher into the form. */
  method ParseSchedule(stored: Option<Week<string>>) returns (form: Week<DayRange>)
    ensures form == ParsedSchedule(stored)
  {
    form := EmptySchedule;
    for i := 0 to |Days|
      invariant forall k :: 0 <= k < i ==> form.Get(Days[k]) == SlotToRange(StoredSlot(stored, Days[k]))
    {
      var timeStr := StoredSlot(stored, Days[i]);
      form := form.Set(Days[i], SlotToRange(timeStr));
    }
    assert form.Get(Days[0]) == SlotToRange(StoredSlot(stored, Days[0]));
    assert form.Get(Days[1]) == SlotToRange(StoredSlot(stored, Days[1]));
    assert form.Get(Days[2]) == SlotToRange(StoredSlot(stored, Days[2]));
    assert form.Get(Days[3]) == SlotToRange(StoredSlot(stored, Days[3]));
    assert form.Get(Days[4]) == SlotToRange(StoredSlot(stored, Days[4]));
  }

  /** A day that the stored string can carry: both ends set as "HH:MM", or both empty. */
  predicate CompleteOrEmpty(r: DayRange) {
    (IsHHMM(r.start) && IsHHMM(r.end)) || r == EmptyRange
  }

  /** Saving a schedule and opening it again gives back the same form, when every day is
      complete or empty. */
  lemma ScheduleRoundTrip(w: Week<DayRange>)
    requires forall d :: CompleteOrEmpty(w.Get(d))
    ensures ParsedSchedule(Some(FormattedSchedule(w))) == w
  {
    forall d ensures SlotToRange(FormatSlot(w.Get(d))) == w.Get(d) {
      if IsHHMM(w.Get(d).start) && IsHHMM(w.Get(d).end) {
        SlotRoundTrip(w.Get(d));
      }
    }
    var p := ParsedSchedule(Some(FormattedSchedule(w)));
    assert p.Get(Segunda) == w.Get(Segunda) && p.Get(Terca) == w.Get(Terca) && p.Get(Quarta) == w.Get(Quarta);
    assert p.Get(Quinta) == w.Get(Quinta) && p.Get(Sexta) == w.Get(Sexta);
  }

  /** A day with only an end time counts toward the total, but is saved as "" and opens empty. */
  lemma EndOnlyDayIsNotStored(w: Week<DayRange>, d: Weekday)
    requires w.Get(d).start == "" && w.Get(d).end != ""
    ensures RangeMinutes(w.Get(d)) == TimeToMinutes(w.Get(d).end)
    ensures ParsedSchedule(Some(FormattedSchedule(w))).Get(d) == EmptyRange
  {
  }

  datatype Field = Start | End

  /** `updateDaySchedule` and the time inputs' `onChange`: one end of one day takes the new value. */
  function UpdateDay(f: TeacherForm, d: Weekday, field: Field, value: TimeText): (g: TeacherForm)
    ensures g.name == f.name && g.masp == f.masp && g.subject == f.subject && g.chRegimeBasico == f.chRegimeBasico
    ensures forall e :: e != d ==> g.schedule.Get(e) == f.schedule.Get(e)
    ensures g.schedule.Get(d) == if field == Start then DayRange(value, f.schedule.Get(d).end) else DayRange(f.schedule.Get(d).start, value)
  {
    var day := f.schedule.Get(d);
    var day' := match field case Start => day.(start := value) case End => day.(end := value);
    f.(schedule := f.schedule.Set(d, day'))
  }

  /** Editing one day changes the weekly total by that day's change only. */
  lemma UpdateDayTotal(f: TeacherForm, d: Weekday, field: Field, value: TimeText)
    ensures TotalMinutes(UpdateDay(f, d, field, value).schedule) + RangeMinutes(f.schedule.Get(d))
            == TotalMinutes(f.schedule) + RangeMinutes(UpdateDay(f, d, field, value).schedule.Get(d))
  {
    var w, w' := f.schedule, UpdateDay(f, d, field, value).schedule;
    TotalIsSumOfDays(w);
    TotalIsSumOfDays(w');
    assert w'.Get(Segunda) == w'.segunda && w'.Get(Terca) == w'.terca && w'.Get(Quarta) == w'.quarta;
    assert w'.Get(Quinta) == w'.quinta && w'.Get(Sexta) == w'.sexta;
  }

  /** A dash before the last of two or more digits: the digit filter removes it again. */
  lemma DashBeforeLast(digits: string)
    requires AllDigits(digits) && |digits| >= 2
    ensures var r := digits[..|digits| - 1] + "-" + digits[|digits| - 1..];
      && |r| == |digits| + 1 && r[|r| - 2] == '-' && r[..|r| - 2] + r[|r| - 1..] == digits
      && DigitsOnly(r) == digits
  {
    var main, dv := digits[..|digits| - 1], digits[|digits| - 1..];
    var r := main + "-" + dv;
    assert main + dv == digits;
    assert AllDigits(main) && AllDigits(dv);
    DigitsOnlyOfDigits(main);
    DigitsOnlyOfDigits(dv);
    DigitsOnlyAppend(main + "-", dv);
    DigitsOnlyAppend(main, "-");
    assert DigitsOnly("-") == [];
    assert r[..|r| - 2] == main && r[|r| - 1..] == dv;
  }

  /** `formatMasp`: the digits of the input, with a dash before the last one when there are two or more. */
  function FormatMasp(val: string): (r: string)
    ensures DigitsOnly(r) == DigitsOnly(val)
    ensures |DigitsOnly(val)| <= 1 ==> r == DigitsOnly(val)
    ensures |DigitsOnly(val)| >= 2 ==>
      |r| == |DigitsOnly(val)| + 1 && r[|r| - 2] == '-' && r[..|r| - 2] + r[|r| - 1..] == DigitsOnly(val)
  {
    var digits := DigitsOnly(val);
    if |digits| <= 1 then
      DigitsOnlyOfDigits(digits);
      digits
    else
      DashBeforeLast(digits);
      digits[..|digits| - 1] + "-" + digits[|digits| - 1..]
  }

  /** Formatting a formatted MASP changes nothing. */
  lemma FormatMaspIdempotent(val: string)
    ensures FormatMasp(FormatMasp(val)) == FormatMasp(val)
  {
    DigitsOnlyIdempotent(val);
  }

  /** `{ ...teacher fields }` of a save: name and subject upper-cased, the quota rendered as HH:MM. */
  function SavedRecord(id: string, role: Role, f: TeacherForm): (u: User)
    requires f.chRegimeBasico >= 0
    ensures u.id == id && u.role == role && u.masp == f.masp
    ensures u.name == ToUpper(f.name) && u.subject == Some(ToUpper(f.subject))
    ensures u.chRegimeBasico == Some(f.chRegimeBasico)
    ensures u.chExtraClasse.Some? && IsClock(u.chExtraClasse.value)
            && TimeToMinutes(u.chExtraClasse.value) == RequiredMinutes(f.chRegimeBasico)
    ensures u.schedule.Some? && forall d :: u.schedule.value.Get(d) == FormatSlot(f.schedule.Get(d))
  {
    User(id, ToUpper(f.name), f.masp, role, Some(ToUpper(f.subject)), Some(f.chRegimeBasico),
         Some(FormatMinutes(f.chRegimeBasico * 15)), Some(FormattedSchedule(f.schedule)))
  }

  /** The record builder of both save handlers, with its `DAYS.forEach` loop. */
  method BuildRecord(id: string, role: Role, f: TeacherForm) returns (u: User)
    requires IsFormValid(f)
    ensures u == SavedRecord(id, role, f)
  {
    var chExtraStr := FormatMinutes(RequiredMinutes(f.chRegimeBasico));
    var formattedSchedule := FormatSchedule(f.schedule);
    u := User(id, ToUpper(f.name), f.masp, role, Some(ToUpper(f.subject)), Some(f.chRegimeBasico),
              Some(chExtraStr), Some(formattedSchedule));
  }

  /** The form the effects fill from a stored teacher (`subject || ''`, `chRegimeBasico || 0`). */
  function FormOf(u: User): (f: TeacherForm)
    ensures f.name == u.name && f.masp == u.masp
    ensures f.subject == (if u.subject.Some? then u.subject.value else "")
    ensures f.chRegimeBasico == (if u.chRegimeBasico.Some? then u.chRegimeBasico.value else 0)
    ensures forall d :: f.schedule.Get(d) == SlotToRange(StoredSlot(u.schedule, d))
  {
    TeacherForm(u.name, u.masp, u.subject.GetOr(""), u.chRegimeBasico.GetOr(0), ParsedSchedule(u.schedule))
  }

  /** What a valid save stores: the quota string reads back as the scheduled total, and the record
      keeps the non-blank name and subject. */
  lemma SavedRecordFacts(id: string, role: Role, f: TeacherForm)
    requires IsFormValid(f)
    ensures var u := SavedRecord(id, role, f);
      && u.id == id && u.role == role && u.masp == f.masp
      && u.chExtraClasse.Some? && u.chExtraClasse.value == FormatMinutes(RequiredMinutes(f.chRegimeBasico))
      && TimeToMinutes(u.chExtraClasse.value) == TotalMinutes(f.schedule)
      && !IsBlank(u.name) && u.subject.Some? && !IsBlank(u.subject.value)
  {
  }

  /** Opening a saved record again gives back the form that was saved, with its name and subject
      upper-cased, when every day is complete or empty. */
  lemma SavedRecordRoundTrip(id: string, role: Role, f: TeacherForm)
    requires f.chRegimeBasico >= 0
    requires forall d :: CompleteOrEmpty(f.schedule.Get(d))
    ensures FormOf(SavedRecord(id, role, f)) == f.(name := ToUpper(f.name), subject := ToUpper(f.subject))
  {
    ScheduleRoundTrip(f.schedule);
  }

  /** When every day is complete or empty, opening a saved record again yields a form that
      passes the gate. */
  lemma SavedRecordReopensValid(id: string, role: Role, f: TeacherForm)
    requires IsFormValid(f)
    requires forall d :: CompleteOrEmpty(f.schedule.Get(d))
    ensures IsFormValid(FormOf(SavedRecord(id, role, f)))
  {
    ScheduleRoundTrip(f.schedule);
    var g := FormOf(SavedRecord(id, role, f));
    assert g.schedule == f.schedule;
    assert g.name == ToUpper(f.name) && g.subject == ToUpper(f.subject);
  }

  /** `handleAddNewType` and `handleAddNewActivity`: the typed name is passed on as typed, and only
      when it has a character other than whitespace. */
  function NewTypeName(name: string): (r: Option<string>)
    ensures r.Some? <==> !IsBlank(name)
    ensures r.Some? ==> r.value == name
  {
    if Trim(name) != "" then Some(name) else None
  }
}
