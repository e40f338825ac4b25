/** The root state container: the session user, the teacher roster, the activity types and the
    monthly reports, the rule that picks where the initial data comes from, and the handlers the
    dashboards call to change them. Each handler's new list is a pure filter, map or append of the
    old one; those are the functions below, and `AppState` applies them to its fields. */
module App {
  import opened Seqs
  import opened Text
  import opened Records

  /** What the remote store returns: any of its three lists may be missing. */
  datatype CloudData = CloudData(
    teachers: Option<seq<User>>,
    reports: Option<seq<MonthlyReport>>,
    activityTypes: Option<seq<ActivityType>>)

  /** The three lists kept in the browser's local storage, each present or not. */
  datatype LocalCache = LocalCache(
    teachers: Option<seq<User>>,
    activityTypes: Option<seq<ActivityType>>,
    reports: Option<seq<MonthlyReport>>)

  /** The composite key of a report: one report per teacher, month name and year. */
  function KeyOf(r: MonthlyReport): (string, string, int) {
    (r.teacherId, r.month, r.year)
  }

  /** The reports whose key differs from `key`, in their original order. */
  function WithoutKey(rs: seq<MonthlyReport>, key: (string, string, int)): (out: seq<MonthlyReport>)
    ensures forall x :: x in out <==> x in rs && KeyOf(x) != key
  {
    Filter(rs, (x: MonthlyReport) => KeyOf(x) != key)
  }

  /** The new report list of `saveReport`: the old reports with another key, then the saved one. */
  function Upsert(rs: seq<MonthlyReport>, r: MonthlyReport): (out: seq<MonthlyReport>)
    ensures |out| >= 1 && out[|out| - 1] == r
    ensures forall i :: 0 <= i < |out| - 1 ==> KeyOf(out[i]) != KeyOf(r)
    ensures forall x :: x in out <==> x == r || (x in rs && KeyOf(x) != KeyOf(r))
  {
    var kept := WithoutKey(rs, KeyOf(r));
    assert forall i :: 0 <= i < |kept| ==> kept[i] in kept;
    kept + [r]
  }

  /** A report with another key keeps each of its occurrences. */
  lemma UpsertKeepsOthers(rs: seq<MonthlyReport>, r: MonthlyReport, x: MonthlyReport)
    requires KeyOf(x) != KeyOf(r)
    ensures multiset(Upsert(rs, r))[x] == multiset(rs)[x]
  {
    FilterMultiplicity(rs, (y: MonthlyReport) => KeyOf(y) != KeyOf(r), x);
  }

  /** Two reports with another key keep their relative order. */
  lemma UpsertKeepsOrder(rs: seq<MonthlyReport>, r: MonthlyReport, i: nat, j: nat)
    requires i < j < |rs| && KeyOf(rs[i]) != KeyOf(r) && KeyOf(rs[j]) != KeyOf(r)
    ensures exists p, q :: 0 <= p < q < |Upsert(rs, r)| - 1 && Upsert(rs, r)[p] == rs[i] && Upsert(rs, r)[q] == rs[j]
  {
    var keep := (y: MonthlyReport) => KeyOf(y) != KeyOf(r);
    FilterKeepsOrder(rs, keep, i, j);
    var kept := Filter(rs, keep);
    var p, q :| 0 <= p < q < |kept| && kept[p] == rs[i] && kept[q] == rs[j];
    assert Upsert(rs, r)[p] == kept[p] && Upsert(rs, r)[q] == kept[q];
  }

  /** Saving twice under the same key leaves only the second save. */
  lemma UpsertOverwrites(rs: seq<MonthlyReport>, r1: MonthlyReport, r2: MonthlyReport)
    requires KeyOf(r1) == KeyOf(r2)
    ensures Upsert(Upsert(rs, r1), r2) == Upsert(rs, r2)
  {
    var keep := (y: MonthlyReport) => KeyOf(y) != KeyOf(r2);
    var kept := Filter(rs, keep);
    assert Upsert(rs, r1) == kept + [r1];
    FilterAppend(kept, [r1], keep);
    FilterIdempotent(rs, keep);
    assert Filter([r1], keep) == [];
  }

  /** Saving keeps the report keys pairwise distinct. */
  lemma UpsertKeepsKeysDistinct(rs: seq<MonthlyReport>, r: MonthlyReport)
    requires DistinctKeys(rs, KeyOf)
    ensures DistinctKeys(Upsert(rs, r), KeyOf)
  {
    FilterKeepsDistinctKeys(rs, (y: MonthlyReport) => KeyOf(y) != KeyOf(r), KeyOf);
    var out := Upsert(rs, r);
    assert DistinctKeys(out[..|out| - 1], KeyOf);
    forall i, j | 0 <= i < j < |out| ensures KeyOf(out[i]) != KeyOf(out[j]) {
      if j < |out| - 1 {
        assert out[i] == out[..|out| - 1][i] && out[j] == out[..|out| - 1][j];
      }
    }
  }

  /** When no report of that teacher and month name has another year, the month lookup of
      the teacher's dashboard reads back the report just saved. */
  lemma ReadBackAfterSave(rs: seq<MonthlyReport>, r: MonthlyReport)
    requires forall x :: x in rs && ForMonth(x, r.teacherId, r.month) ==> x.year == r.year
    ensures FindForMonth(Upsert(rs, r), r.teacherId, r.month) == Some(r)
  {
    var out := Upsert(rs, r);
    var found := FindForMonth(out, r.teacherId, r.month);
    assert r in out;
    assert found.Some?;
    var i :| 0 <= i < |out| && out[i] == found.value && ForMonth(found.value, r.teacherId, r.month);
    if i < |out| - 1 {
      assert false;
    }
  }

  /** The month lookup ignores the year: a report of the same teacher and month name from
      another year, saved earlier, keeps hiding a newly saved one. */
  lemma OtherYearShadowsSave(rs: seq<MonthlyReport>, r: MonthlyReport, earlier: MonthlyReport)
    requires earlier in rs && ForMonth(earlier, r.teacherId, r.month) && earlier.year != r.year
    ensures FindForMonth(Upsert(rs, r), r.teacherId, r.month) != Some(r)
  {
    var out := Upsert(rs, r);
    assert earlier in out;
    var found := FindForMonth(out, r.teacherId, r.month);
    assert found.Some?;
    var i :| 0 <= i < |out| && out[i] == found.value && ForMonth(found.value, r.teacherId, r.month)
             && forall j :: 0 <= j < i ==> !ForMonth(out[j], r.teacherId, r.month);
    var k :| 0 <= k < |out| && out[k] == earlier;
    assert k < |out| - 1;
    assert i <= k;
    assert i < |out| - 1;
  }

  /** `teachers.map(t => t.id === updated.id ? updated : t)`. */
  function ReplaceTeacher(ts: seq<User>, u: User): (out: seq<User>)
    ensures |out| == |ts|
    ensures forall i :: 0 <= i < |ts| ==> out[i].id == ts[i].id
    ensures forall i :: 0 <= i < |ts| && ts[i].id != u.id ==> out[i] == ts[i]
    ensures forall i :: 0 <= i < |ts| && ts[i].id == u.id ==> out[i] == u
  {
    seq(|ts|, i requires 0 <= i < |ts| => if ts[i].id == u.id then u else ts[i])
  }

  /** After a replacement the roster lookup by that id finds the new record, or nothing when the
      id was not on the roster. */
  lemma ReplaceThenFind(ts: seq<User>, u: User)
    ensures FindTeacher(ReplaceTeacher(ts, u), u.id) == if FindTeacher(ts, u.id).Some? then Some(u) else None
  {
    var out := ReplaceTeacher(ts, u);
    var before := FindTeacher(ts, u.id);
    var after := FindTeacher(out, u.id);
    if before.Some? {
      var i :| 0 <= i < |ts| && ts[i] == before.value;
      assert out[i] == u;
      assert after.Some?;
      var k := FindFirst(out, (t: User) => t.id == u.id);
      assert after.value == out[k];
    }
  }

  /** Replacing with the same record twice is the same as once. */
  lemma ReplaceTeacherIdempotent(ts: seq<User>, u: User)
    ensures ReplaceTeacher(ReplaceTeacher(ts, u), u) == ReplaceTeacher(ts, u)
  {
  }

  /** `teachers.filter(t => t.id !== id)`. */
  function WithoutTeacher(ts: seq<User>, id: string): (out: seq<User>)
    ensures forall t :: t in out <==> t in ts && t.id != id
    ensures FindTeacher(out, id) == None
  {
    Filter(ts, (t: User) => t.id != id)
  }

  /** A teacher with another id keeps each of its occurrences through the deletion. */
  lemma WithoutTeacherKeepsOthers(ts: seq<User>, id: string, t: User)
    requires t.id != id
    ensures multiset(WithoutTeacher(ts, id))[t] == multiset(ts)[t]
  {
    FilterMultiplicity(ts, (u: User) => u.id != id, t);
  }

  /** Two teachers with another id keep their relative order through the deletion. */
  lemma WithoutTeacherKeepsOrder(ts: seq<User>, id: string, i: nat, j: nat)
    requires i < j < |ts| && ts[i].id != id && ts[j].id != id
    ensures exists p, q ::
      0 <= p < q < |WithoutTeacher(ts, id)| && WithoutTeacher(ts, id)[p] == ts[i] && WithoutTeacher(ts, id)[q] == ts[j]
  {
    var keep := (u: User) => u.id != id;
    FilterKeepsOrder(ts, keep, i, j);
    assert WithoutTeacher(ts, id) == Filter(ts, keep);
  }

  /** `reports.filter(r => r.teacherId !== id)`: the cascade of a teacher's deletion. */
  function WithoutOwner(rs: seq<MonthlyReport>, id: string): (out: seq<MonthlyReport>)
    ensures forall x :: x in out <==> x in rs && x.teacherId != id
    ensures forall m :: FindForMonth(out, id, m) == None
  {
    Filter(rs, (x: MonthlyReport) => x.teacherId != id)
  }

  /** A report of another teacher keeps each of its occurrences through the cascade. */
  lemma CascadeKeepsOthers(rs: seq<MonthlyReport>, id: string, x: MonthlyReport)
    requires x.teacherId != id
    ensures multiset(WithoutOwner(rs, id))[x] == multiset(rs)[x]
  {
    FilterMultiplicity(rs, (y: MonthlyReport) => y.teacherId != id, x);
  }

  /** Reports of other teachers keep their relative order through the cascade, so the month
      lookup still finds the same first match for them. */
  lemma CascadeKeepsOrder(rs: seq<MonthlyReport>, id: string, i: nat, j: nat)
    requires i < j < |rs| && rs[i].teacherId != id && rs[j].teacherId != id
    ensures exists p, q ::
      0 <= p < q < |WithoutOwner(rs, id)| && WithoutOwner(rs, id)[p] == rs[i] && WithoutOwner(rs, id)[q] == rs[j]
  {
    var keep := (x: MonthlyReport) => x.teacherId != id;
    FilterKeepsOrder(rs, keep, i, j);
    assert WithoutOwner(rs, id) == Filter(rs, keep);
  }

  /** The entry `addActivityType` appends: the given id and the upper-cased name. */
  function NewActivity(id: string, name: string): (a: ActivityType)
    ensures a.id == id && |a.name| == |name|
    ensures forall i :: 0 <= i < |name| ==> a.name[i] == UpperChar(name[i])
  {
    ActivityType(id, ToUpper(name))
  }

  /** `activityTypes.filter(a => a.id !== id)`. */
  function WithoutActivity(types: seq<ActivityType>, id: string): (out: seq<ActivityType>)
    ensures forall a :: a in out <==> a in types && a.id != id
  {
    Filter(types, (a: ActivityType) => a.id != id)
  }

  /** A type with another id keeps each of its occurrences through the deletion. */
  lemma WithoutActivityKeepsOthers(types: seq<ActivityType>, id: string, a: ActivityType)
    requires a.id != id
    ensures multiset(WithoutActivity(types, id))[a] == multiset(types)[a]
  {
    FilterMultiplicity(types, (b: ActivityType) => b.id != id, a);
  }

  /** Two types with another id keep their relative order through the deletion. */
  lemma WithoutActivityKeepsOrder(types: seq<ActivityType>, id: string, i: nat, j: nat)
    requires i < j < |types| && types[i].id != id && types[j].id != id
    ensures exists p, q ::
      0 <= p < q < |WithoutActivity(types, id)| && WithoutActivity(types, id)[p] == types[i] && WithoutActivity(types, id)[q] == types[j]
  {
    var keep := (b: ActivityType) => b.id != id;
    FilterKeepsOrder(types, keep, i, j);
    assert WithoutActivity(types, id) == Filter(types, keep);
  }

  /** Deleting an activity type that is not listed changes nothing. */
  lemma DeleteMissingActivity(types: seq<ActivityType>, id: string)
    requires forall a :: a in types ==> a.id != id
    ensures WithoutActivity(types, id) == types
  {
    FilterKeepsAll(types, (a: ActivityType) => a.id != id);
  }

  /** The source-selection rule of `loadData` for the activity list of the remote store:
      a missing or empty list falls back to the seed list. */
  function CloudActivities(c: CloudData): (types: seq<ActivityType>)
    ensures |types| > 0
    ensures c.activityTypes.Some? && c.activityTypes.value != [] ==> types == c.activityTypes.value
    ensures c.activityTypes.None? || c.activityTypes.value == [] ==> types == InitialActivityTypes
  {
    if c.activityTypes.Some? && |c.activityTypes.value| > 0 then c.activityTypes.value else InitialActivityTypes
  }

  /** The application state and its handlers. */
  class AppState {
    var currentUser: Option<User>
    var teachers: seq<User>
    var activityTypes: seq<ActivityType>
    var reports: seq<MonthlyReport>
    var isLoading: bool

    /** The initial state: nobody logged in, empty lists, loading. */
    constructor ()
      ensures currentUser == None && teachers == [] && activityTypes == [] && reports == [] && isLoading
    {
      currentUser := None;
      teachers := [];
      activityTypes := [];
      reports := [];
      isLoading := true;
    }

    /** `loadData`, with the remote answer (`None` when the fetch or the parse failed) and the
        local cache as inputs. */
    method LoadData(cloud: Option<CloudData>, cache: LocalCache)
      modifies this
      ensures currentUser == old(currentUser) && !isLoading
      ensures cloud.Some? ==>
        && teachers == cloud.value.teachers.GetOr([])
        && reports == cloud.value.reports.GetOr([])
        && activityTypes == CloudActivities(cloud.value)
      ensures cloud.None? ==>
        && teachers == cache.teachers.GetOr(InitialTeachers)
        && activityTypes == cache.activityTypes.GetOr(InitialActivityTypes)
        && reports == cache.reports.GetOr(old(reports))
    {
      isLoading := true;
      match cloud {
        case Some(data) =>
          teachers := data.teachers.GetOr([]);
          reports := data.reports.GetOr([]);
          if data.activityTypes.Some? && |data.activityTypes.value| > 0 {
            activityTypes := data.activityTypes.value;
          } else {
            activityTypes := InitialActivityTypes;
          }
        case None =>
          if cache.teachers.Some? {
            teachers := cache.teachers.value;
          } else {
            teachers := InitialTeachers;
          }
          if cache.activityTypes.Some? {
            activityTypes := cache.activityTypes.value;
          } else {
            activityTypes := InitialActivityTypes;
          }
          if cache.reports.Some? {
            reports := cache.reports.value;
          }
      }
      isLoading := false;
    }

    /** `handleLogin`. */
    method Login(u: User)
      modifies this`currentUser
      ensures currentUser == Some(u)
    {
      currentUser := Some(u);
    }

    /** `handleLogout`. */
    method Logout()
      modifies this`currentUser
      ensures currentUser == None
    {
      currentUser := None;
    }

    /** `saveReport`: replaces the report with the same key, or adds it. */
    method SaveReport(r: MonthlyReport)
      modifies this`reports
      ensures reports == Upsert(old(reports), r)
    {
      var filtered := WithoutKey(reports, KeyOf(r));
      reports := filtered + [r];
    }

    /** `addActivityType`, with the clock-derived id as a parameter; duplicates are not checked. */
    method AddActivityType(freshId: string, name: string)
      modifies this`activityTypes
      ensures activityTypes == old(activityTypes) + [NewActivity(freshId, name)]
    {
      activityTypes := activityTypes + [ActivityType(freshId, ToUpper(name))];
    }

    /** `deleteActivityType`, with the user's answer to the confirmation dialog as a parameter. */
    method DeleteActivityType(id: string, confirmed: bool)
      modifies this`activityTypes
      ensures activityTypes == if confirmed then WithoutActivity(old(activityTypes), id) else old(activityTypes)
    {
      if confirmed {
        activityTypes := WithoutActivity(activityTypes, id);
      }
    }

    /** `addTeacher`: appends without checking that the id is new. */
    method AddTeacher(t: User)
      modifies this`teachers
      ensures teachers == old(teachers) + [t]
    {
      teachers := teachers + [t];
    }

    /** `handleUpdateTeacher`: the roster entries with that id and, when it is the same person,
        the session user are replaced. */
    method UpdateTeacher(u: User)
      modifies this`teachers, this`currentUser
      ensures teachers == ReplaceTeacher(old(teachers), u)
      ensures currentUser == if old(currentUser).Some? && old(currentUser).value.id == u.id then Some(u) else old(currentUser)
    {
      teachers := ReplaceTeacher(teachers, u);
      if currentUser.Some? && currentUser.value.id == u.id {
        currentUser := Some(u);
      }
    }

    /** `handleDeleteTeacher`: when confirmed, the teacher and all of their reports go. */
    method DeleteTeacher(id: string, confirmed: bool)
      modifies this`teachers, this`reports
      ensures confirmed ==> teachers == WithoutTeacher(old(teachers), id) && reports == WithoutOwner(old(reports), id)
      ensures !confirmed ==> teachers == old(teachers) && reports == old(reports)
    {
      if confirmed {
        teachers := WithoutTeacher(teachers, id);
        reports := WithoutOwner(reports, id);
      }
    }
  }
}
