/** The teacher's dashboard: the weeks of the month being edited (add, edit one field or slot,
    two-step delete), the month they are loaded from, the report a save hands on, and the
    teacher's own profile form. */
module TeacherDashboard {
  import opened Seqs
  import opened Text
  import opened Records
  import opened ProfileForm

  /** The week `handleAddWeek` appends: no dates yet and six empty description slots. */
  function NewWeek(id: string): (w: WeeklyActivity)
    ensures w.id == id && w.startDate == "" && w.endDate == ""
    ensures |w.descriptions| == 6 && forall i :: 0 <= i < 6 ==> w.descriptions[i] == ""
  {
    WeeklyActivity(id, "", "", ["", "", "", "", "", ""])
  }

  /** The three calls `updateWeek` receives from the report grid: a new start date, a new end
      date, or a new value for the description slot at `index`. */
  datatype WeekEdit = StartDate(value: string) | EndDate(value: string) | Description(index: nat, value: string)

  /** A description edit names a slot the week has (the grid only offers the slots it shows). */
  predicate EditFits(w: WeeklyActivity, e: WeekEdit) {
    e.Description? ==> e.index < |w.descriptions|
  }

  /** The edit of one week: the named field, or the named slot, takes the new value; the id,
      the other fields and the other slots are kept, and so is the number of slots. */
  function ApplyEdit(w: WeeklyActivity, e: WeekEdit): (r: WeeklyActivity)
    requires EditFits(w, e)
    ensures r.id == w.id
    ensures r.startDate == if e.StartDate? then e.value else w.startDate
    ensures r.endDate == if e.EndDate? then e.value else w.endDate
    ensures |r.descriptions| == |w.descriptions|
    ensures forall i :: 0 <= i < |w.descriptions| ==>
      r.descriptions[i] == if e.Description? && e.index == i then e.value else w.descriptions[i]
  {
    match e
    case StartDate(v) => w.(startDate := v)
    case EndDate(v) => w.(endDate := v)
    case Description(i, v) => w.(descriptions := w.descriptions[i := v])
  }

  /** Every week with the given id can take the edit. */
  predicate EditFitsAll(ws: seq<WeeklyActivity>, weekId: string, e: WeekEdit) {
    forall k :: 0 <= k < |ws| && ws[k].id == weekId ==> EditFits(ws[k], e)
  }

  /** `updateWeek`: the map over the weeks that edits those whose id matches and keeps the rest. */
  function EditWeeks(ws: seq<WeeklyActivity>, weekId: string, e: WeekEdit): (r: seq<WeeklyActivity>)
    requires EditFitsAll(ws, weekId, e)
    ensures |r| == |ws|
    ensures forall k :: 0 <= k < |ws| ==> r[k].id == ws[k].id
    ensures forall k :: 0 <= k < |ws| && ws[k].id != weekId ==> r[k] == ws[k]
    ensures forall k :: 0 <= k < |ws| && ws[k].id == weekId ==> r[k] == ApplyEdit(ws[k], e)
  {
    seq(|ws|, k requires 0 <= k < |ws| => if ws[k].id == weekId then ApplyEdit(ws[k], e) else ws[k])
  }

  /** An edit of an id that no week carries changes nothing. */
  lemma EditMissingWeek(ws: seq<WeeklyActivity>, weekId: string, e: WeekEdit)
    requires forall w :: w in ws ==> w.id != weekId
    ensures EditFitsAll(ws, weekId, e) && EditWeeks(ws, weekId, e) == ws
  {
  }

  /** Making the same edit twice is the same as making it once. */
  lemma EditWeeksIdempotent(ws: seq<WeeklyActivity>, weekId: string, e: WeekEdit)
    requires EditFitsAll(ws, weekId, e)
    ensures EditFitsAll(EditWeeks(ws, weekId, e), weekId, e)
    ensures EditWeeks(EditWeeks(ws, weekId, e), weekId, e) == EditWeeks(ws, weekId, e)
  {
    var once := EditWeeks(ws, weekId, e);
    var twice := EditWeeks(once, weekId, e);
    forall k | 0 <= k < |ws| ensures twice[k] == once[k] {
      if ws[k].id == weekId {
        var a, b := once[k], twice[k];
        assert b.descriptions == a.descriptions;
      }
    }
  }

  /** `prev.filter(w => w.id !== weekToDelete)`: the weeks without that id, in their order. */
  function WithoutWeek(ws: seq<WeeklyActivity>, weekId: string): (r: seq<WeeklyActivity>)
    ensures forall w :: w in r <==> w in ws && w.id != weekId
    ensures forall w: WeeklyActivity :: w.id != weekId ==> multiset(r)[w] == multiset(ws)[w]
  {
    var keep := (w: WeeklyActivity) => w.id != weekId;
    forall w: WeeklyActivity | w.id != weekId ensures multiset(Filter(ws, keep))[w] == multiset(ws)[w] {
      FilterMultiplicity(ws, keep, w);
    }
    Filter(ws, keep)
  }

  /** Deleting keeps the surviving weeks in their original relative order. */
  lemma WithoutWeekKeepsOrder(ws: seq<WeeklyActivity>, weekId: string, i: nat, j: nat)
    requires i < j < |ws| && ws[i].id != weekId && ws[j].id != weekId
    ensures exists p, q ::
      0 <= p < q < |WithoutWeek(ws, weekId)| && WithoutWeek(ws, weekId)[p] == ws[i] && WithoutWeek(ws, weekId)[q] == ws[j]
  {
    var keep := (w: WeeklyActivity) => w.id != weekId;
    FilterKeepsOrder(ws, keep, i, j);
    assert WithoutWeek(ws, weekId) == Filter(ws, keep);
  }

  /** The weeks the month-load effect shows: those of the first report of that teacher for that
      month name, whatever its year, and none when there is no such report. */
  function MonthWeeks(reports: seq<MonthlyReport>, teacherId: string, month: string): (ws: seq<WeeklyActivity>)
    ensures (forall r :: r in reports ==> !ForMonth(r, teacherId, month)) ==> ws == []
    ensures FindForMonth(reports, teacherId, month).Some? ==> ws == FindForMonth(reports, teacherId, month).value.weeks
    ensures ws != [] ==> exists i ::
      && 0 <= i < |reports| && ForMonth(reports[i], teacherId, month) && reports[i].weeks == ws
      && forall j :: 0 <= j < i ==> !ForMonth(reports[j], teacherId, month)
  {
    match FindForMonth(reports, teacherId, month)
    case Some(r) => r.weeks
    case None => []
  }

  /** The dashboard's own state; `user` is the `user` prop, the signed-in teacher's record. */
  class TeacherView {
    var user: User
    var selectedMonth: string
    var currentWeeks: seq<WeeklyActivity>
    var weekToDelete: Option<string>
    var editForm: TeacherForm
    var newActivityName: string

    /** The initial state, with the current month's index as input: no weeks, nothing pending,
        and the form holding the user's fields with an empty schedule. */
    constructor (u: User, monthIndex: nat)
      requires monthIndex < |Months|
      ensures user == u && selectedMonth == Months[monthIndex]
      ensures currentWeeks == [] && weekToDelete == None && newActivityName == ""
      ensures editForm == TeacherForm(u.name, u.masp, u.subject.GetOr(""), u.chRegimeBasico.GetOr(0), EmptySchedule)
    {
      user := u;
      selectedMonth := Months[monthIndex];
      currentWeeks := [];
      weekToDelete := None;
      editForm := TeacherForm(u.name, u.masp, u.subject.GetOr(""), u.chRegimeBasico.GetOr(0), EmptySchedule);
      newActivityName := "";
    }

    /** A new `user` prop: the root replaces the signed-in record after a profile save, and the
        mounted dashboard keeps its month, weeks and form. */
    method RefreshUser(u: User)
      modifies this`user
      ensures user == u
    {
      user := u;
    }

    /** The month-load effect. */
    method LoadMonth(reports: seq<MonthlyReport>)
      modifies this`currentWeeks
      ensures currentWeeks == MonthWeeks(reports, user.id, selectedMonth)
    {
      var existing := FindForMonth(reports, user.id, selectedMonth);
      if existing.Some? {
        currentWeeks := existing.value.weeks;
      } else {
        currentWeeks := [];
      }
    }

    /** The month selector's `onChange`, followed by the effect it triggers. */
    method SelectMonth(month: string, reports: seq<MonthlyReport>)
      modifies this`selectedMonth, this`currentWeeks
      ensures selectedMonth == month
      ensures currentWeeks == MonthWeeks(reports, user.id, month)
    {
      selectedMonth := month;
      LoadMonth(reports);
    }

    /** The effect that runs when the profile editor opens: the form is filled from the user,
        with each stored day read back through the regular expression. */
    method OpenProfileEditor()
      modifies this`editForm
      ensures editForm == FormOf(user)
    {
      var newSchedule := ParseSchedule(user.schedule);
      editForm := TeacherForm(user.name, user.masp, user.subject.GetOr(""), user.chRegimeBasico.GetOr(0), newSchedule);
    }

    /** `handleAddWeek`, with the clock-derived id as input. */
    method AddWeek(freshId: string)
      modifies this`currentWeeks
      ensures currentWeeks == old(currentWeeks) + [NewWeek(freshId)]
    {
      currentWeeks := currentWeeks + [NewWeek(freshId)];
    }

    /** `updateWeek`. */
    method UpdateWeek(weekId: string, e: WeekEdit)
      requires EditFitsAll(currentWeeks, weekId, e)
      modifies this`currentWeeks
      ensures currentWeeks == EditWeeks(old(currentWeeks), weekId, e)
    {
      currentWeeks := EditWeeks(currentWeeks, weekId, e);
    }

    /** `requestDeleteWeek`: only the pending id is recorded. */
    method RequestDeleteWeek(id: string)
      modifies this`weekToDelete
      ensures weekToDelete == Some(id)
    {
      weekToDelete := Some(id);
    }

    /** The confirmation dialog's cancel button. */
    method CancelDeleteWeek()
      modifies this`weekToDelete
      ensures weekToDelete == None
    {
      weekToDelete := None;
    }

    /** `confirmDeleteWeek`: with an id pending, every week with that id goes and nothing is
        pending any more; with none pending, nothing changes. */
    method ConfirmDeleteWeek()
      modifies this`currentWeeks, this`weekToDelete
      ensures Truthy(old(weekToDelete)) ==>
        currentWeeks == WithoutWeek(old(currentWeeks), old(weekToDelete).value) && weekToDelete == None
      ensures !Truthy(old(weekToDelete)) ==>
        currentWeeks == old(currentWeeks) && weekToDelete == old(weekToDelete)
    {
      if Truthy(weekToDelete) {
        currentWeeks := WithoutWeek(currentWeeks, weekToDelete.value);
        weekToDelete := None;
      }
    }

    /** `handleSave`, with the clock's year and timestamp as inputs: the report of this teacher
        for the selected month, holding the weeks on screen. */
    method Save(year: int, timestamp: string) returns (report: MonthlyReport)
      ensures report.teacherId == user.id && report.month == selectedMonth && report.year == year
      ensures report.weeks == currentWeeks && report.lastUpdated == timestamp
      ensures ForMonth(report, user.id, selectedMonth)
    {
      report := MonthlyReport(user.id, selectedMonth, year, currentWeeks, timestamp);
    }

    /** `handleSaveProfile`: nothing unless the form passes the gate; otherwise the user with
        every form field replaced, keeping the user's id and role. */
    method SaveProfile() returns (updated: Option<User>)
      ensures updated.Some? <==> IsFormValid(editForm)
      ensures updated.Some? ==> updated.value == SavedRecord(user.id, user.role, editForm)
      ensures updated.Some? ==> updated.value.id == user.id && updated.value.role == user.role
    {
      if !IsFormValid(editForm) {
        return None;
      }
      var record := BuildRecord(user.id, user.role, editForm);
      SavedRecordFacts(user.id, user.role, editForm);
      updated := Some(record);
    }

    /** The name field's `onChange`. */
    method SetName(value: string)
      modifies this`editForm
      ensures editForm == old(editForm).(name := value)
    {
      editForm := editForm.(name := value);
    }

    /** The MASP field's `onChange`: what is typed goes through `formatMasp`. */
    method SetMasp(value: string)
      modifies this`editForm
      ensures editForm == old(editForm).(masp := FormatMasp(value))
    {
      editForm := editForm.(masp := FormatMasp(value));
    }

    /** The subject field's `onChange`. */
    method SetSubject(value: string)
      modifies this`editForm
      ensures editForm == old(editForm).(subject := value)
    {
      editForm := editForm.(subject := value);
    }

    /** The base-workload field's `onChange`: `parseInt(value) || 0`, with `None` for NaN. */
    method SetChRegimeBasico(parsed: Option<int>)
      modifies this`editForm
      ensures editForm == old(editForm).(chRegimeBasico := parsed.GetOr(0))
    {
      editForm := editForm.(chRegimeBasico := parsed.GetOr(0));
    }

    /** The start and end time inputs' `onChange`. */
    method UpdateDaySchedule(d: Weekday, field: Field, value: TimeText)
      modifies this`editForm
      ensures editForm == UpdateDay(old(editForm), d, field, value)
    {
      editForm := UpdateDay(editForm, d, field, value);
    }

    /** The new activity-type field's `onChange`. */
    method SetNewActivityName(value: string)
      modifies this`newActivityName
      ensures newActivityName == value
    {
      newActivityName := value;
    }

    /** `handleAddNewType`: passes the typed name on when it is not blank, and then clears it. */
    method AddNewType() returns (forwarded: Option<string>)
      modifies this`newActivityName
      ensures forwarded == NewTypeName(old(newActivityName))
      ensures newActivityName == if forwarded.Some? then "" else old(newActivityName)
    {
      forwarded := NewTypeName(newActivityName);
      if forwarded.Some? {
        newActivityName := "";
      }
    }
  }
}
