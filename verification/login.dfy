/** The decision of the login form: the fixed supervisor pair first, then a teacher whose MASP
    digits equal the digits typed as both username and password. */
module LoginForm {
  import opened Seqs
  import opened Text
  import opened Records
  import opened ProfileForm

  /** The identity the supervisor pair logs in as. */
  const SupervisorUser: User := User("supervisor", "Supervisor", "ADMIN", Supervisor, None, None, None, None)

  const MissingMasp: string := "Por favor, insira o MASP."
  const InvalidCredentials: string := "Usuário ou senha inválidos."

  /** What a submission does: log the supervisor in, log a teacher in, or show an error. */
  datatype Outcome = SupervisorLogin(user: User) | TeacherLogin(user: User) | Rejected(error: string)

  predicate IsSupervisorPair(username: string, password: string) {
    username == "supervisor" && password == "admin"
  }

  /** The `teachers.find` predicate: the teacher's MASP digits equal the username's, and the
      username's digits equal the password's. */
  predicate Matches(t: User, nu: string, np: string) {
    DigitsOnly(t.masp) == nu && nu == np
  }

  /** `handleSubmit`. Each field goes through `normalize` (the digit filter); an empty result is
      the "insert the MASP" error; otherwise the first teacher on the roster that matches logs in,
      and an unknown MASP and a wrong password give the same error. */
  function Submit(username: string, password: string, teachers: seq<User>): (o: Outcome)
    ensures o.SupervisorLogin? <==> IsSupervisorPair(username, password)
    ensures o.SupervisorLogin? ==> o.user == SupervisorUser
    ensures o.TeacherLogin? <==>
      && !IsSupervisorPair(username, password)
      && DigitsOnly(username) != "" && DigitsOnly(username) == DigitsOnly(password)
      && exists t :: t in teachers && DigitsOnly(t.masp) == DigitsOnly(username)
    ensures o.TeacherLogin? ==> exists i ::
      && 0 <= i < |teachers| && teachers[i] == o.user && Matches(o.user, DigitsOnly(username), DigitsOnly(password))
      && forall j :: 0 <= j < i ==> !Matches(teachers[j], DigitsOnly(username), DigitsOnly(password))
    ensures o.Rejected? ==>
      o.error == if DigitsOnly(username) == "" || DigitsOnly(password) == "" then MissingMasp else InvalidCredentials
  {
    if IsSupervisorPair(username, password) then SupervisorLogin(SupervisorUser)
    else
      var nu, np := DigitsOnly(username), DigitsOnly(password);
      if nu == "" || np == "" then Rejected(MissingMasp)
      else
        var k := FindFirst(teachers, (t: User) => Matches(t, nu, np));
        FindFirstMissing(teachers, (t: User) => Matches(t, nu, np));
        if k < |teachers| then TeacherLogin(teachers[k]) else Rejected(InvalidCredentials)
  }

  /** A teacher on the roster whose MASP digits are the username's digits. */
  predicate KnownMasp(teachers: seq<User>, nu: string) {
    exists t :: t in teachers && DigitsOnly(t.masp) == nu
  }

  /** The error line after a submission of `username` and `password`, whatever line was shown
      before it (`setError('')` runs first): empty after a login, the "insert the MASP" message
      when a digit-filtered field is empty, and the invalid-credentials message otherwise. */
  function ErrorShown(previous: string, username: string, password: string, teachers: seq<User>): (shown: string)
    ensures shown == "" <==>
      || IsSupervisorPair(username, password)
      || (DigitsOnly(username) != "" && DigitsOnly(username) == DigitsOnly(password)
          && KnownMasp(teachers, DigitsOnly(username)))
    ensures shown == MissingMasp <==>
      !IsSupervisorPair(username, password) && (DigitsOnly(username) == "" || DigitsOnly(password) == "")
    ensures shown == InvalidCredentials <==>
      && !IsSupervisorPair(username, password)
      && DigitsOnly(username) != "" && DigitsOnly(password) != ""
      && (DigitsOnly(username) != DigitsOnly(password) || !KnownMasp(teachers, DigitsOnly(username)))
  {
    var cleared := "";
    match Submit(username, password, teachers)
    case Rejected(error) => error
    case _ => cleared
  }

  /** A MASP saved through the form's formatter logs its teacher in (or an earlier teacher with
      the same digits) when its digits are typed as both username and password. */
  lemma {:induction false} FormattedMaspLogsIn(teachers: seq<User>, i: nat, typed: string)
    requires i < |teachers| && teachers[i].masp == FormatMasp(typed) && DigitsOnly(typed) != ""
    ensures var d := DigitsOnly(typed);
      Submit(d, d, teachers).TeacherLogin? && DigitsOnly(Submit(d, d, teachers).user.masp) == d
  {
    var d := DigitsOnly(typed);
    assert !IsSupervisorPair(d, d) by {
      assert IsDigit(d[0]);
    }
    DigitsOnlyIdempotent(typed);
    assert teachers[i] in teachers;
  }

  /** Two different digit strings are refused with the same message as an unknown MASP. */
  lemma MismatchRejected(username: string, password: string, teachers: seq<User>)
    requires !IsSupervisorPair(username, password)
    requires DigitsOnly(username) != "" && DigitsOnly(password) != "" && DigitsOnly(username) != DigitsOnly(password)
    ensures Submit(username, password, teachers) == Rejected(InvalidCredentials)
  {
  }
}
