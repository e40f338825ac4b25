/** The application's records (users, weekly activities, monthly reports, activity types),
    the month names, the seed data, and the month lookup both dashboards use. */
module Records {
  import opened Seqs

  datatype Option<T> = None | Some(value: T) {
    function GetOr(default: T): T {
      match this
      case Some(v) => v
      case None => default
    }
  }

  /** JavaScript truthiness of a `string | null`: null and the empty string are falsy. */
  predicate Truthy(s: Option<string>) { s.Some? && s.value != "" }

  datatype Role = Teacher | Supervisor

  datatype Weekday = Segunda | Terca | Quarta | Quinta | Sexta

  /** The `DAYS` table of both dashboards: the weekdays in display order. */
  const Days: seq<Weekday> := [Segunda, Terca, Quarta, Quinta, Sexta]

  lemma EveryDayListed(d: Weekday)
    ensures d in Days
  {
  }

  /** One value per weekday: a user's stored schedule strings, or a form's time ranges. */
  datatype Week<T> = Week(segunda: T, terca: T, quarta: T, quinta: T, sexta: T) {
    function Get(d: Weekday): T {
      match d
      case Segunda => segunda
      case Terca => terca
      case Quarta => quarta
      case Quinta => quinta
      case Sexta => sexta
    }

    function Set(d: Weekday, v: T): (w: Week<T>)
      ensures w.Get(d) == v
      ensures forall e :: e != d ==> w.Get(e) == Get(e)
    {
      match d
      case Segunda => this.(segunda := v)
      case Terca => this.(terca := v)
      case Quarta => this.(quarta := v)
      case Quinta => this.(quinta := v)
      case Sexta => this.(sexta := v)
    }
  }

  /** A person: a teacher (with the optional teacher fields) or the supervisor. */
  datatype User = User(
    id: string,
    name: string,
    masp: string,
    role: Role,
    subject: Option<string>,
    chRegimeBasico: Option<int>,
    chExtraClasse: Option<string>,
    schedule: Option<Week<string>>)

  /** One reported week: a date range and its description slots. */
  datatype WeeklyActivity = WeeklyActivity(id: string, startDate: string, endDate: string, descriptions: seq<string>)

  datatype MonthlyReport = MonthlyReport(
    teacherId: string,
    month: string,
    year: int,
    weeks: seq<WeeklyActivity>,
    lastUpdated: string)

  datatype ActivityType = ActivityType(id: string, name: string)

  const Months: seq<string> := [
    "JANEIRO", "FEVEREIRO", "MARÇO", "ABRIL", "MAIO", "JUNHO",
    "JULHO", "AGOSTO", "SETEMBRO", "OUTUBRO", "NOVEMBRO", "DEZEMBRO"
  ]

  const InitialTeachers: seq<User> := [
    User("1", "RENATO PEREIRA SILVA", "1324749-9", Teacher, Some("QUÍMICA"), Some(22), Some("05:30"),
      Some(Week("16:00 às 17:00", "15:00 às 18:00", "16:00 às 17:00", "17:00 às 18:00", "18:00 às 19:00"))),
    User("2", "MARIO COSTA", "1223895-2", Teacher, Some("MATEMÁTICA"), Some(20), Some("05:00"),
      Some(Week("", "", "", "07:00 às 12:00", ""))),
    User("3", "SARA DE SOUZA", "554545-5", Teacher, Some("HISTÓRIA"), Some(16), Some("04:00"),
      Some(Week("", "", "", "07:00 às 12:00", "")))
  ]

  const InitialActivityTypes: seq<ActivityType> := [
    ActivityType("1", "REPASSES GERAIS DO SUPERVISOR"),
    ActivityType("2", "ORIENTAÇÕES SOBRE AS TURMAS COM O SUPERVISOR"),
    ActivityType("3", "LANÇAMENTOS E REGISTROS NO DED"),
    ActivityType("4", "ORGANIZAÇÃO DAS ATIVIDADES APLICADAS"),
    ActivityType("5", "ATUALIZAÇÃO DO DED E REGISTROS DE FREQUÊNCIA"),
    ActivityType("6", "AVALIAÇÃO DIAGNÓSTICA"),
    ActivityType("7", "PREENCHIMENTO PLANILHA DE CONTROLE TRIMESTRAL"),
    ActivityType("8", "REUNIÃO ADM/PEDAGÓGICA"),
    ActivityType("9", "CONSELHO DE CLASSE"),
    ActivityType("10", "PLANEJAMENTO TRIMESTRAL"),
    ActivityType("11", "LANÇAMENTO RESULTADOS SIMAVE"),
    ActivityType("12", "CORREÇÃO DE AVALIAÇÃO"),
    ActivityType("13", "PRODUÇÃO DE AVALIAÇÃO"),
    ActivityType("14", "LANÇAMENTO SIMADE"),
    ActivityType("15", "REGISTRO DE ATA"),
    ActivityType("16", "ORGANIZAÇÃO DIDÁTICA DE CONCEITOS")
  ]

  /** `teachers.find(t => t.id === id)`. */
  function FindTeacher(teachers: seq<User>, id: string): (r: Option<User>)
    ensures r.Some? ==> r.value in teachers && r.value.id == id
    ensures r.None? <==> forall t :: t in teachers ==> t.id != id
    ensures r.Some? ==> exists i :: 0 <= i < |teachers| && teachers[i] == r.value
                                    && forall j :: 0 <= j < i ==> teachers[j].id != id
  {
    var k := FindFirst(teachers, (t: User) => t.id == id);
    FindFirstMissing(teachers, (t: User) => t.id == id);
    if k < |teachers| then Some(teachers[k]) else None
  }

  predicate ForMonth(r: MonthlyReport, teacherId: string, month: string) {
    r.teacherId == teacherId && r.month == month
  }

  /** `reports.find(r => r.teacherId === teacherId && r.month === month)`: the first report
      of that teacher for that month name, whatever its year. */
  function FindForMonth(reports: seq<MonthlyReport>, teacherId: string, month: string): (r: Option<MonthlyReport>)
    ensures r.None? <==> forall x :: x in reports ==> !ForMonth(x, teacherId, month)
    ensures r.Some? ==> exists i :: 0 <= i < |reports| && reports[i] == r.value && ForMonth(r.value, teacherId, month)
                                    && forall j :: 0 <= j < i ==> !ForMonth(reports[j], teacherId, month)
  {
    var k := FindFirst(reports, (x: MonthlyReport) => ForMonth(x, teacherId, month));
    FindFirstMissing(reports, (x: MonthlyReport) => ForMonth(x, teacherId, month));
    if k < |reports| then Some(reports[k]) else None
  }
}
