/** The report sheet as it is drawn: the schedule cells, the first selectable date of the month,
    which description slots and which weeks appear, and the placeholder for a month without
    weeks. Nothing here changes state. */
module ReportGrid {
  import opened Seqs
  import opened Text
  import opened Records
  import opened ProfileForm

  /** `(user.schedule as any)?.[day] || '--'`: the stored day, or "--" when it is empty or missing. */
  function ScheduleCell(stored: Option<Week<string>>, d: Weekday): (cell: string)
    ensures cell != ""
    ensures StoredSlot(stored, d) != "" ==> cell == StoredSlot(stored, d)
    ensures StoredSlot(stored, d) == "" ==> cell == "--"
  {
    var s := StoredSlot(stored, d);
    if s != "" then s else "--"
  }

  /** On a teacher saved through a form, a day shows `"start às end"` when both ends were set and
      "--" otherwise. */
  lemma SavedScheduleCell(w: Week<DayRange>, d: Weekday)
    ensures ScheduleCell(Some(FormattedSchedule(w)), d) ==
      if w.Get(d).start != "" && w.Get(d).end != "" then w.Get(d).start + " às " + w.Get(d).end else "--"
  {
  }

  /** `MONTHS.indexOf(month)`: the position of the month name, or -1. */
  function MonthIndex(month: string): (i: int)
    ensures -1 <= i < |Months|
    ensures i == -1 <==> month !in Months
    ensures i >= 0 ==> Months[i] == month
  {
    var k := FindFirst(Months, (m: string) => m == month);
    FindFirstMissing(Months, (m: string) => m == month);
    if k < |Months| then k else -1
  }

  /** `d` is `"<y>-MM-01"` whose MM, read as a number, is the position of `month` counted from 1. */
  predicate FirstOfMonth(d: string, y: string, month: string) {
    && |d| == |y| + 6
    && d[..|y|] == y
    && d[|y|] == '-' && d[|y| + 3..] == "-01"
    && AllDigits(d[|y| + 1..|y| + 3])
    && 1 <= DecimalValue(d[|y| + 1..|y| + 3]) <= |Months|
    && Months[DecimalValue(d[|y| + 1..|y| + 3]) - 1] == month
  }

  lemma FirstOfMonthParts(y: string, mm: string, d: string, i: nat, month: string)
    requires i < |Months| && Months[i] == month
    requires |mm| == 2 && AllDigits(mm) && DecimalValue(mm) == i + 1
    requires d == y + "-" + mm + "-01"
    ensures FirstOfMonth(d, y, month)
  {
    assert d[..|y|] == y;
    assert d[|y| + 1..|y| + 3] == mm;
    assert d[|y| + 3..] == "-01";
  }

  /** `minDate`: `"<year>-MM-01"` with MM the month's number padded to two digits, and no value
      for a name that is not a month. The year is the clock's, as input. */
  function MinDate(year: nat, month: string): (r: Option<string>)
    ensures r.Some? <==> month in Months
    ensures r.Some? ==> FirstOfMonth(r.value, DecimalString(year), month)
  {
    var i := MonthIndex(month);
    if i == -1 then None
    else
      var y, mm := DecimalString(year), Padded(i + 1);
      var d := y + "-" + mm + "-01";
      FirstOfMonthParts(y, mm, d, i, month);
      Some(d)
  }

  /** `d && d.trim() !== ''`: a description slot with something other than whitespace in it. */
  predicate Filled(d: string) { Trim(d) != "" }

  /** `displayDescriptions`: in read-only mode the filled slots, in their order; otherwise all
      slots as they are, empty ones included. */
  function Shown(descs: seq<string>, readonly: bool): (r: seq<string>)
    ensures readonly ==> forall x :: x in r <==> x in descs && !IsBlank(x)
    ensures readonly ==> forall x :: !IsBlank(x) ==> multiset(r)[x] == multiset(descs)[x]
    ensures readonly ==> (r == [] <==> forall i :: 0 <= i < |descs| ==> IsBlank(descs[i]))
    ensures !readonly ==> r == descs
  {
    if readonly then
      forall x | !IsBlank(x) ensures multiset(Filter(descs, Filled))[x] == multiset(descs)[x] {
        FilterMultiplicity(descs, Filled, x);
      }
      NothingFilled(descs);
      Filter(descs, Filled)
    else descs
  }

  lemma NothingFilled(descs: seq<string>)
    ensures Filter(descs, Filled) == [] <==> forall i :: 0 <= i < |descs| ==> IsBlank(descs[i])
  {
    var r := Filter(descs, Filled);
    if r == [] {
      forall i | 0 <= i < |descs| ensures IsBlank(descs[i]) {
        assert descs[i] in descs;
      }
    } else {
      assert r[0] in r;
    }
  }

  /** In read-only mode two filled slots keep their relative order. */
  lemma ShownKeepsOrder(descs: seq<string>, i: nat, j: nat)
    requires i < j < |descs| && !IsBlank(descs[i]) && !IsBlank(descs[j])
    ensures exists p, q :: 0 <= p < q < |Shown(descs, true)| && Shown(descs, true)[p] == descs[i] && Shown(descs, true)[q] == descs[j]
  {
    FilterKeepsOrder(descs, Filled, i, j);
    assert Shown(descs, true) == Filter(descs, Filled);
  }

  /** One drawn week with the slots it shows. */
  datatype Row = Row(week: WeeklyActivity, shown: seq<string>)

  /** Whether a week is drawn: always when editing, and in read-only mode only when a slot has
      something other than whitespace in it. */
  predicate Drawn(w: WeeklyActivity, readonly: bool) {
    !readonly || exists i :: 0 <= i < |w.descriptions| && !IsBlank(w.descriptions[i])
  }

  /** The skip `readOnly && displayDescriptions.length === 0` leaves out exactly the weeks that
      are not drawn. */
  lemma DrawnUnlessNothingShown(w: WeeklyActivity, readonly: bool)
    ensures Drawn(w, readonly) <==> !(readonly && |Shown(w.descriptions, readonly)| == 0)
  {
  }

  /** The row a single week contributes: itself with its shown slots, or nothing. */
  function RowOf(w: WeeklyActivity, readonly: bool): (r: seq<Row>)
    ensures |r| <= 1
    ensures r != [] <==> Drawn(w, readonly)
    ensures r != [] ==> r[0] == Row(w, Shown(w.descriptions, readonly))
  {
    if Drawn(w, readonly) then [Row(w, Shown(w.descriptions, readonly))] else []
  }

  /** `weeks.map(...)` with the read-only skip: the drawn weeks, in order, each with its slots. */
  function Rows(weeks: seq<WeeklyActivity>, readonly: bool): (rows: seq<Row>)
    ensures |rows| <= |weeks|
    ensures rows == [] <==> forall w :: w in weeks ==> !Drawn(w, readonly)
    ensures forall r :: r in rows ==> r.week in weeks && Drawn(r.week, readonly) && r.shown == Shown(r.week.descriptions, readonly)
    ensures forall w :: w in weeks && Drawn(w, readonly) ==> Row(w, Shown(w.descriptions, readonly)) in rows
    ensures !readonly ==> |rows| == |weeks| && forall i :: 0 <= i < |weeks| ==> rows[i] == Row(weeks[i], weeks[i].descriptions)
  {
    if weeks == [] then []
    else
      assert weeks == [weeks[0]] + weeks[1..];
      RowOf(weeks[0], readonly) + Rows(weeks[1..], readonly)
  }

  lemma RowsCons(weeks: seq<WeeklyActivity>, readonly: bool)
    requires weeks != []
    ensures Rows(weeks, readonly) == RowOf(weeks[0], readonly) + Rows(weeks[1..], readonly)
  {
  }

  /** Each drawn week appears as many times as it does in the report. */
  lemma {:induction false} RowsMultiplicity(weeks: seq<WeeklyActivity>, readonly: bool, w: WeeklyActivity)
    requires Drawn(w, readonly)
    ensures multiset(Rows(weeks, readonly))[Row(w, Shown(w.descriptions, readonly))] == multiset(weeks)[w]
  {
    if weeks != [] {
      var rest, head := Rows(weeks[1..], readonly), RowOf(weeks[0], readonly);
      RowsMultiplicity(weeks[1..], readonly, w);
      RowsCons(weeks, readonly);
      MultisetCons(weeks);
      MultisetAppend(head, rest);
    }
  }

  /** Some row of `a` comes before some row of `b`. */
  predicate RowBefore(rows: seq<Row>, a: WeeklyActivity, b: WeeklyActivity) {
    exists p, q :: 0 <= p < q < |rows| && rows[p].week == a && rows[q].week == b
  }

  lemma RowBeforeAfterHead(head: seq<Row>, rest: seq<Row>, a: WeeklyActivity, b: WeeklyActivity)
    requires RowBefore(rest, a, b)
    ensures RowBefore(head + rest, a, b)
  {
    var p, q :| 0 <= p < q < |rest| && rest[p].week == a && rest[q].week == b;
    IndexAppend(head, rest, p);
    IndexAppend(head, rest, q);
  }

  lemma RowBeforeFromHead(head: seq<Row>, rest: seq<Row>, a: WeeklyActivity, x: Row)
    requires |head| == 1 && head[0].week == a && x in rest
    ensures RowBefore(head + rest, a, x.week)
  {
    var q :| 0 <= q < |rest| && rest[q] == x;
    IndexAppend(head, rest, q);
    assert (head + rest)[0] == head[0];
  }

  lemma RowsKeepOrderFromFirst(weeks: seq<WeeklyActivity>, readonly: bool, j: nat)
    requires 0 < j < |weeks| && Drawn(weeks[0], readonly) && Drawn(weeks[j], readonly)
    ensures RowBefore(Rows(weeks, readonly), weeks[0], weeks[j])
  {
    TailIndex(weeks, j);
    var rest, head := Rows(weeks[1..], readonly), RowOf(weeks[0], readonly);
    RowsCons(weeks, readonly);
    RowBeforeFromHead(head, rest, weeks[0], Row(weeks[j], Shown(weeks[j].descriptions, readonly)));
  }

  /** Two drawn weeks are drawn in the order they have in the report. */
  lemma {:induction false} RowsKeepOrder(weeks: seq<WeeklyActivity>, readonly: bool, i: nat, j: nat)
    requires i < j < |weeks| && Drawn(weeks[i], readonly) && Drawn(weeks[j], readonly)
    ensures RowBefore(Rows(weeks, readonly), weeks[i], weeks[j])
  {
    if i == 0 {
      RowsKeepOrderFromFirst(weeks, readonly, j);
    } else {
      var tail := weeks[1..];
      TailIndex(weeks, i);
      TailIndex(weeks, j);
      assert tail[i - 1] == weeks[i] && tail[j - 1] == weeks[j];
      RowsKeepOrder(tail, readonly, i - 1, j - 1);
      var head, rest := RowOf(weeks[0], readonly), Rows(tail, readonly);
      RowsCons(weeks, readonly);
      assert Rows(weeks, readonly) == head + rest;
      RowBeforeAfterHead(head, rest, weeks[i], weeks[j]);
    }
  }

  /** What the weeks area holds: the placeholder, or the drawn weeks. */
  datatype Body = Placeholder | Weeks(rows: seq<Row>)

  function RenderBody(weeks: seq<WeeklyActivity>, readonly: bool): (b: Body)
    ensures b.Placeholder? <==> weeks == []
    ensures b.Weeks? ==> b.rows == Rows(weeks, readonly)
  {
    if |weeks| == 0 then Placeholder else Weeks(Rows(weeks, readonly))
  }

  /** A read-only sheet whose weeks all have blank slots draws neither the placeholder nor any week. */
  lemma AllBlankWeeksDrawNothing(weeks: seq<WeeklyActivity>)
    requires weeks != []
    requires forall w :: w in weeks ==> forall i :: 0 <= i < |w.descriptions| ==> IsBlank(w.descriptions[i])
    ensures RenderBody(weeks, true) == Weeks([])
  {
  }
}
