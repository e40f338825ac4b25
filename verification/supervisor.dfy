/** The supervisor's dashboard: which teacher and month are on screen, the teacher form it opens
    for a new or an existing teacher, and what saving that form asks the application to do. */
module SupervisorDashboard {
  import opened Text
  import opened Records
  import opened ProfileForm

  /** What `handleSaveTeacher` hands to the application: nothing, a new teacher, or a replacement. */
  datatype SaveAction = NoSave | AddTeacher(teacher: User) | UpdateTeacher(teacher: User)

  /** The decision of `handleSaveTeacher`: nothing unless the form passes the gate; otherwise a
      teacher record built from the form, under the id being edited when there is one (a
      non-empty `editingTeacherId`) and under a fresh id when not. */
  function SaveOutcome(f: TeacherForm, editing: Option<string>, freshId: string): (a: SaveAction)
    ensures a.NoSave? <==> !IsFormValid(f)
    ensures a.UpdateTeacher? <==> IsFormValid(f) && Truthy(editing)
    ensures a.UpdateTeacher? ==> a.teacher.id == editing.value
    ensures a.AddTeacher? ==> a.teacher.id == freshId
    ensures !a.NoSave? ==> f.chRegimeBasico > 0 && a.teacher == SavedRecord(a.teacher.id, Teacher, f)
  {
    if !IsFormValid(f) then NoSave
    else if Truthy(editing) then UpdateTeacher(SavedRecord(editing.value, Teacher, f))
    else AddTeacher(SavedRecord(freshId, Teacher, f))
  }

  /** The body of `handleSaveTeacher` up to the hand-over: the gate, the record builder with its
      `DAYS.forEach` loop, and the choice between the update and the add path. */
  method BuildSaveAction(f: TeacherForm, editing: Option<string>, freshId: string) returns (action: SaveAction)
    ensures action == SaveOutcome(f, editing, freshId)
  {
    if !IsFormValid(f) {
      return NoSave;
    }
    if Truthy(editing) {
      var record := BuildRecord(editing.value, Teacher, f);
      action := UpdateTeacher(record);
    } else {
      var record := BuildRecord(freshId, Teacher, f);
      action := AddTeacher(record);
    }
  }

  /** A saved teacher is a teacher whose quota string reads back as the scheduled minutes, with
      the name and subject upper-cased. */
  lemma SavedTeacherFacts(f: TeacherForm, editing: Option<string>, freshId: string)
    requires !SaveOutcome(f, editing, freshId).NoSave?
    ensures var u := SaveOutcome(f, editing, freshId).teacher;
      && u.role == Teacher
      && u.name == ToUpper(f.name) && u.subject == Some(ToUpper(f.subject))
      && u.chExtraClasse.Some? && u.chExtraClasse.value == FormatMinutes(RequiredMinutes(f.chRegimeBasico))
      && TimeToMinutes(u.chExtraClasse.value) == TotalMinutes(f.schedule)
  {
    var u := SaveOutcome(f, editing, freshId).teacher;
    SavedRecordFacts(u.id, Teacher, f);
  }

  /** The dashboard's own state. */
  class SupervisorView {
    var selectedTeacherId: string
    var selectedMonth: string
    var editingTeacherId: Option<string>
    var teacherForm: TeacherForm
    var newActivityName: string

    /** The initial state, with the current month's index (`new Date().getMonth()`) as input. */
    constructor (monthIndex: nat)
      requires monthIndex < |Months|
      ensures selectedTeacherId == "" && selectedMonth == Months[monthIndex]
      ensures editingTeacherId == None && teacherForm == EmptyForm && newActivityName == ""
    {
      selectedTeacherId := "";
      selectedMonth := Months[monthIndex];
      editingTeacherId := None;
      teacherForm := EmptyForm;
      newActivityName := "";
    }

    /** The teacher selector's `onChange`. */
    method SelectTeacher(id: string)
      modifies this`selectedTeacherId
      ensures selectedTeacherId == id
    {
      selectedTeacherId := id;
    }

    /** The month selector's `onChange`. */
    method SelectMonth(month: string)
      modifies this`selectedMonth
      ensures selectedMonth == month
    {
      selectedMonth := month;
    }

    /** `selectedTeacher`: the first roster entry with the selected id. */
    method SelectedTeacher(teachers: seq<User>) returns (t: Option<User>)
      ensures t.Some? ==> t.value in teachers && t.value.id == selectedTeacherId
      ensures t.None? <==> forall u :: u in teachers ==> u.id != selectedTeacherId
      ensures t.Some? ==> exists i :: 0 <= i < |teachers| && teachers[i] == t.value
                                      && forall j :: 0 <= j < i ==> teachers[j].id != selectedTeacherId
    {
      t := FindTeacher(teachers, selectedTeacherId);
    }

    /** `activeReport`: the first report of the selected teacher for the selected month name,
        whatever its year. */
    method ActiveReport(reports: seq<MonthlyReport>) returns (r: Option<MonthlyReport>)
      ensures r == FindForMonth(reports, selectedTeacherId, selectedMonth)
    {
      r := FindForMonth(reports, selectedTeacherId, selectedMonth);
    }

    /** The "new teacher" button: nothing is being edited. */
    method NewTeacher()
      modifies this`editingTeacherId
      ensures editingTeacherId == None
    {
      editingTeacherId := None;
    }

    /** `handleEditTeacher`. */
    method EditTeacher(t: User)
      modifies this`editingTeacherId
      ensures editingTeacherId == Some(t.id)
    {
      editingTeacherId := Some(t.id);
    }

    /** The effect that fills the form: from the teacher being edited when there is one on the
        roster, left alone when the id is not on the roster, and emptied when nothing is edited. */
    method SyncForm(teachers: seq<User>)
      modifies this`teacherForm
      ensures Truthy(editingTeacherId) && FindTeacher(teachers, editingTeacherId.value).Some? ==>
        teacherForm == FormOf(FindTeacher(teachers, editingTeacherId.value).value)
      ensures Truthy(editingTeacherId) && FindTeacher(teachers, editingTeacherId.value).None? ==>
        teacherForm == old(teacherForm)
      ensures !Truthy(editingTeacherId) ==> teacherForm == EmptyForm
    {
      if Truthy(editingTeacherId) {
        var teacher := FindTeacher(teachers, editingTeacherId.value);
        if teacher.Some? {
          var t := teacher.value;
          var newSchedule := ParseSchedule(t.schedule);
          teacherForm := TeacherForm(t.name, t.masp, t.subject.GetOr(""), t.chRegimeBasico.GetOr(0), newSchedule);
        }
      } else {
        teacherForm := EmptyForm;
      }
    }

    /** The name field's `onChange`. */
    method SetName(value: string)
      modifies this`teacherForm
      ensures teacherForm == old(teacherForm).(name := value)
    {
      teacherForm := teacherForm.(name := value);
    }

    /** The MASP field's `onChange`: what is typed goes through `formatMasp`. */
    method SetMasp(value: string)
      modifies this`teacherForm
      ensures teacherForm == old(teacherForm).(masp := FormatMasp(value))
    {
      teacherForm := teacherForm.(masp := FormatMasp(value));
    }

    /** The subject field's `onChange`. */
    method SetSubject(value: string)
      modifies this`teacherForm
      ensures teacherForm == old(teacherForm).(subject := value)
    {
      teacherForm := teacherForm.(subject := value);
    }

    /** The base-workload field's `onChange`: `parseInt(value) || 0`, with `None` for NaN. */
    method SetChRegimeBasico(parsed: Option<int>)
      modifies this`teacherForm
      ensures teacherForm == old(teacherForm).(chRegimeBasico := parsed.GetOr(0))
    {
      teacherForm := teacherForm.(chRegimeBasico := parsed.GetOr(0));
    }

    /** `updateDaySchedule`. */
    method UpdateDaySchedule(d: Weekday, field: Field, value: TimeText)
      modifies this`teacherForm
      ensures teacherForm == UpdateDay(old(teacherForm), d, field, value)
    {
      teacherForm := UpdateDay(teacherForm, d, field, value);
    }

    /** `handleSaveTeacher`, with the clock-derived id as input; after a save nothing is being
        edited, and an invalid form changes nothing. */
    method SaveTeacher(freshId: string) returns (action: SaveAction)
      modifies this`editingTeacherId
      ensures action == SaveOutcome(old(teacherForm), old(editingTeacherId), freshId)
      ensures editingTeacherId == if action.NoSave? then old(editingTeacherId) else None
    {
      action := BuildSaveAction(teacherForm, editingTeacherId, freshId);
      if !action.NoSave? {
        editingTeacherId := None;
      }
    }

    /** The new activity-type field's `onChange`. */
    method SetNewActivityName(value: string)
      modifies this`newActivityName
      ensures newActivityName == value
    {
      newActivityName := value;
    }

    /** `handleAddNewActivity`: passes the typed name on when it is not blank, and then clears it. */
    method AddNewActivity() returns (forwarded: Option<string>)
      modifies this`newActivityName
      ensures forwarded == NewTypeName(old(newActivityName))
      ensures newActivityName == if forwarded.Some? then "" else old(newActivityName)
    {
      forwarded := NewTypeName(newActivityName);
      if forwarded.Some? {
        newActivityName := "";
      }
    }
  }
}
