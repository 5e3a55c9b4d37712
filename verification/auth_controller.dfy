/** Registration and login (src/controllers/auth.controller.js): who a pair
    of credentials names, and the token payload a login issues. */
module AuthController {
  import opened Wrappers
  import opened Http
  import opened Directory
  import opened Db

  /** Deployment settings, read once at start-up and never changed. */
  datatype Config = Config(adminEmail: string, adminPassword: string)

  /** The admin is not stored anywhere: it has a fixed id and name. */
  const AdminUid: string := "admin_id"
  const AdminName: string := "Hostel Admin"

  /** Token lifetime, in seconds (`expiresIn: '1h'`). */
  const TokenLifetime: nat := 3600

  /** Whom a login names. */
  datatype Principal = AdminPrincipal | StaffPrincipal(staff: Staff) | StudentPrincipal(student: Student)

  /** The ordered resolution: the admin email is decided by the admin password
      alone; otherwise the first Staff record with the email is decided by its
      digest alone; only when no Staff record has the email is the Student
      collection consulted. None is the uniform failure. */
  function Resolve(cfg: Config, staff: seq<Staff>, students: seq<Student>, email: string, password: string): (r: Option<Principal>)
    ensures email == cfg.adminEmail ==>
      r == (if password == cfg.adminPassword then Some(AdminPrincipal) else None)
    ensures r == Some(AdminPrincipal) ==> email == cfg.adminEmail
    ensures email != cfg.adminEmail && StaffWithEmail(staff, email).Some? ==>
      && (r.Some? <==> Matches(password, staff[StaffWithEmail(staff, email).value].passwordHash))
      && (r.Some? ==> r.value.StaffPrincipal?)
    ensures email != cfg.adminEmail && StaffWithEmail(staff, email).None? && StudentWithEmail(students, email).Some? ==>
      && (r.Some? <==> Matches(password, students[StudentWithEmail(students, email).value].passwordHash))
      && (r.Some? ==> r.value.StudentPrincipal?)
    ensures email != cfg.adminEmail && StaffWithEmail(staff, email).None? && StudentWithEmail(students, email).None? ==>
      r == None
    ensures r.Some? && r.value.StaffPrincipal? ==>
      && email != cfg.adminEmail
      && StaffWithEmail(staff, email).Some?
      && r.value.staff == staff[StaffWithEmail(staff, email).value]
      && r.value.staff.email == email
      && Matches(password, r.value.staff.passwordHash)
    ensures r.Some? && r.value.StudentPrincipal? ==>
      && email != cfg.adminEmail
      && StaffWithEmail(staff, email).None?
      && StudentWithEmail(students, email).Some?
      && r.value.student == students[StudentWithEmail(students, email).value]
      && r.value.student.email == email
      && Matches(password, r.value.student.passwordHash)
  {
    if email == cfg.adminEmail then
      if password == cfg.adminPassword then Some(AdminPrincipal) else None
    else
      match StaffWithEmail(staff, email)
      case Some(i) =>
        if Matches(password, staff[i].passwordHash) then Some(StaffPrincipal(staff[i])) else None
      case None =>
        match StudentWithEmail(students, email)
        case Some(j) =>
          if Matches(password, students[j].passwordHash) then Some(StudentPrincipal(students[j])) else None
        case None => None
  }

  /** The `user` object a token carries for a principal. */
  function Payload(p: Principal): (u: User)
    ensures u.role == AdminRole || u.role == StaffRole || u.role == StudentRole
    ensures u.role == AdminRole <==> p.AdminPrincipal?
    ensures u.role == StaffRole <==> p.StaffPrincipal?
    ensures p.AdminPrincipal? ==> u.id == AdminUid && u.name == AdminName
    ensures p.StaffPrincipal? ==> u.id == p.staff.uid && u.name == p.staff.name
    ensures p.StudentPrincipal? ==> u.id == p.student.uid && u.name == p.student.name
  {
    match p
    case AdminPrincipal => User(AdminUid, AdminName, AdminRole)
    case StaffPrincipal(st) => User(st.uid, st.name, StaffRole)
    case StudentPrincipal(sd) => User(sd.uid, sd.name, StudentRole)
  }

  /** POST /api/auth/login: the payload of the token issued, signed at `now`
      (milliseconds) and expiring an hour later; every failure is the same 400
      (an absent password, read as "", is one of them). */
  function Login(cfg: Config, s: Store, email: string, password: string, now: nat): (r: Response<Claims>)
    ensures r.Rejected? ==> r.failure == InvalidCredentials
    ensures r.Sent? <==> Resolve(cfg, s.staff, s.students, email, password).Some?
    ensures r.Sent? ==>
      && r.code == 200
      && r.body.user == Some(Payload(Resolve(cfg, s.staff, s.students, email, password).value))
      && r.body.iat == now / 1000
      && r.body.exp == Some(r.body.iat + TokenLifetime)
  {
    match Resolve(cfg, s.staff, s.students, email, password)
    case None => Rejected(InvalidCredentials)
    case Some(p) => Sent(200, Claims(Some(Payload(p)), now / 1000, Some(now / 1000 + TokenLifetime)))
  }

  /** The admin email never reaches the directories: whatever they hold, the
      outcome is the same, and it is admin exactly when the admin password is given. */
  lemma AdminEmailShadowsDirectories(cfg: Config, s1: Store, s2: Store, password: string, now: nat)
    ensures Login(cfg, s1, cfg.adminEmail, password, now) == Login(cfg, s2, cfg.adminEmail, password, now)
    ensures Login(cfg, s1, cfg.adminEmail, password, now).Sent? <==> password == cfg.adminPassword
  {
  }

  /** An email held by a Staff record never reaches the Student collection,
      not even when the password is wrong. */
  lemma StaffEmailShadowsStudents(cfg: Config, s: Store, students: seq<Student>, email: string, password: string, now: nat)
    requires email != cfg.adminEmail && StaffWithEmail(s.staff, email).Some?
    ensures Login(cfg, s, email, password, now) == Login(cfg, s.(students := students), email, password, now)
    ensures Login(cfg, s, email, password, now).Sent? ==>
      Login(cfg, s, email, password, now).body.user.value.role == StaffRole
  {
  }

  /** The student lookup decides only emails that are neither the admin's nor any Staff record's. */
  lemma StudentLookupLast(cfg: Config, s: Store, email: string, password: string, now: nat)
    requires Login(cfg, s, email, password, now).Sent?
    requires Login(cfg, s, email, password, now).body.user.value.role == StudentRole
    ensures email != cfg.adminEmail
    ensures forall k :: 0 <= k < |s.staff| ==> s.staff[k].email != email
  {
  }

  /** POST /api/auth/register: only the Student collection is checked for the
      email; the document is then validated, hashed and indexed before it is stored. */
  function Register(s: Store, env: Env, rollNumber: string, name: string, email: string, password: string): (r: Step<string>)
    ensures StudentWithEmail(s.students, email).Some? ==> r.response == Rejected(EmailTaken)
    ensures r.response.Rejected? ==> r.store == s
    ensures r.response.Rejected? ==> r.response.failure == EmailTaken || r.response.failure == ServerError
    ensures StudentWithEmail(s.students, email).None? && r.response.Rejected? ==> r.response.failure == ServerError
    ensures r.response.Sent? ==>
      && r.response.code == 201
      && r.store.complaints == s.complaints && r.store.staff == s.staff
      && |r.store.students| == |s.students| + 1
      && r.store.students[..|s.students|] == s.students
    ensures r.response.Sent? ==>
      var rec := r.store.students[|s.students|];
      && rec.uid == env.freshId && rec.rollNumber == rollNumber && rec.name == name && rec.email == email
      && (forall p :: Matches(p, rec.passwordHash) <==> p == password)
    ensures r.response.Sent? <==>
      && StudentWithEmail(s.students, email).None?
      && rollNumber != "" && name != "" && email != "" && password != ""
      && !StudentClashes(s.students, Student(env.freshId, rollNumber, name, email, Plain(password)))
  {
    if StudentWithEmail(s.students, email).Some? then Step(Rejected(EmailTaken), s)
    else
      var rec := Student(env.freshId, rollNumber, name, email, Plain(password));
      if !StudentComplete(rec) || StudentClashes(s.students, rec) then Step(Rejected(ServerError), s)
      else
        var saved := rec.(passwordHash := HashIfModified(rec.passwordHash, true, env.salt));
        Step(Sent(201, "Student registered successfully!"), s.(students := s.students + [saved]))
  }

  /** Registration never looks at the Staff collection: an email a Staff record
      holds can still be registered by a student. */
  lemma RegisterIgnoresStaff(s: Store, staff: seq<Staff>, env: Env, rollNumber: string, name: string, email: string, password: string)
    ensures Register(s, env, rollNumber, name, email, password).response
         == Register(s.(staff := staff), env, rollNumber, name, email, password).response
  {
  }

  /** Registration and login agree: a student who has just registered can log
      in with the same email and password, unless the admin or a Staff record
      holds that email first. */
  lemma {:induction false} RegisterThenLogin(cfg: Config, s: Store, env: Env, rollNumber: string, name: string, email: string, password: string, now: nat)
    requires Register(s, env, rollNumber, name, email, password).response.Sent?
    requires email != cfg.adminEmail && StaffWithEmail(s.staff, email).None?
    ensures var t := Register(s, env, rollNumber, name, email, password).store;
      var r := Login(cfg, t, email, password, now);
      r.Sent? && r.body.user == Some(User(env.freshId, name, StudentRole))
  {
    var t := Register(s, env, rollNumber, name, email, password).store;
    var n := |s.students|;
    assert forall k :: 0 <= k < n ==> t.students[k] == s.students[k];
    assert StudentWithEmail(t.students, email) == Some(n);
  }
}
