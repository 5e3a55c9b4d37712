/** Properties that span several routes: the store invariant every write
    keeps, the complaint lifecycle, the staff queues, and the path from a
    login to the routes its token opens. */
module Lifecycle {
  import opened Wrappers
  import opened Http
  import opened ComplaintModel
  import opened Directory
  import opened Db
  import Guards
  import Listing
  import AuthController
  import ComplaintRoutes
  import AdminComplaintRoutes
  import StaffRoutes
  import AdminStaffRoutes
  import AssignPanel
  import Timeline

  // ---- The staff queues ----

  /** Each complaint assigned to a staff member is in exactly one of that
      member's two queues, and nothing else is in either. */
  lemma QueuesPartitionAssigned(m: map<ComplaintModel.Id, Complaint>, uid: ComplaintModel.Id, active: seq<ComplaintModel.Id>, resolved: seq<ComplaintModel.Id>)
    requires Listing.IsListing(active, m, ActiveFor(uid), ByCreation())
    requires Listing.IsListing(resolved, m, ResolvedFor(uid), ByUpdate())
    ensures forall id :: id in m && m[id].assignedStaffId == Some(uid) ==> (id in active <==> id !in resolved)
    ensures forall id :: id in active || id in resolved ==> id in m && m[id].assignedStaffId == Some(uid)
  {
    forall id | id in active
      ensures id in m && ActiveFor(uid)(m[id])
    {
      var i :| 0 <= i < |active| && active[i] == id;
    }
    forall id | id in resolved
      ensures id in m && ResolvedFor(uid)(m[id])
    {
      var i :| 0 <= i < |resolved| && resolved[i] == id;
    }
  }

  // ---- The store invariant ----

  /** A complaint write that keeps the record well formed keeps the store valid. */
  lemma ComplaintWriteKeepsValid(s: Store, id: ComplaintModel.Id, c: Complaint)
    requires Valid(s) && WellFormed(c)
    ensures Valid(s.(complaints := s.complaints[id := c]))
  {
  }

  lemma SubmitKeepsValid(s: Store, h: Headers, env: Env, category: string, description: string, file: Option<ComplaintRoutes.Upload>)
    requires Valid(s)
    ensures Valid(ComplaintRoutes.Submit(s, h, env, category, description, file).store)
  {
    var r := ComplaintRoutes.Submit(s, h, env, category, description, file);
    if r.response.Sent? {
      ComplaintWriteKeepsValid(s, env.freshId, r.response.body);
    }
  }

  lemma AssignKeepsValid(s: Store, h: Headers, env: Env, id: ComplaintModel.Id, staffId: string)
    requires Valid(s) && ClockAhead(s, env.now)
    ensures Valid(AdminComplaintRoutes.Assign(s, h, env, id, staffId).store)
    ensures ClockAhead(AdminComplaintRoutes.Assign(s, h, env, id, staffId).store, env.now)
  {
    var r := AdminComplaintRoutes.Assign(s, h, env, id, staffId);
    if r.response.Sent? {
      ComplaintWriteKeepsValid(s, id, r.response.body);
    }
  }

  lemma UpdateStatusKeepsValid(s: Store, h: Headers, env: Env, id: ComplaintModel.Id, status: string, remarks: string)
    requires Valid(s) && ClockAhead(s, env.now)
    ensures Valid(StaffRoutes.UpdateStatus(s, h, env, id, status, remarks).store)
    ensures ClockAhead(StaffRoutes.UpdateStatus(s, h, env, id, status, remarks).store, env.now)
  {
    var r := StaffRoutes.UpdateStatus(s, h, env, id, status, remarks);
    if r.response.Sent? {
      ComplaintWriteKeepsValid(s, id, r.response.body);
    }
  }

  lemma RegisterKeepsValid(s: Store, env: Env, rollNumber: string, name: string, email: string, password: string)
    requires Valid(s)
    ensures Valid(AuthController.Register(s, env, rollNumber, name, email, password).store)
  {
    var r := AuthController.Register(s, env, rollNumber, name, email, password);
    if r.response.Sent? {
      var rec := Student(env.freshId, rollNumber, name, email, Plain(password));
      StudentInsertUnique(s.students, rec);
      var saved := r.store.students[|s.students|];
      assert r.store.students == s.students + [saved];
      assert saved == rec.(passwordHash := saved.passwordHash);
    }
  }

  lemma StaffDirectoryKeepsValid(s: Store, h: Headers, env: Env, uid: Directory.Id,
                                 staffId: string, name: string, email: string, role: string, password: string,
                                 oStaffId: Option<string>, oName: Option<string>, oEmail: Option<string>, oRole: Option<string>)
    requires Valid(s)
    ensures Valid(AdminStaffRoutes.CreateStaff(s, h, env, staffId, name, email, role, password).store)
    ensures Valid(AdminStaffRoutes.UpdateStaff(s, h, env, uid, oStaffId, oName, oEmail, oRole).store)
    ensures Valid(AdminStaffRoutes.DeleteStaff(s, h, env, uid).store)
  {
    AdminStaffRoutes.StaffRoutesKeepUnique(s, h, env, uid, staffId, name, email, role, password, oStaffId, oName, oEmail, oRole);
  }

  // ---- The lifecycle ----

  /** No route deletes a complaint or changes what it is about. */
  lemma ComplaintWritesEvolve(s: Store, h: Headers, env: Env, id: ComplaintModel.Id, staffId: string, status: string, remarks: string,
                              category: string, description: string, file: Option<ComplaintRoutes.Upload>)
    ensures Evolves(s, AdminComplaintRoutes.Assign(s, h, env, id, staffId).store)
    ensures Evolves(s, StaffRoutes.UpdateStatus(s, h, env, id, status, remarks).store)
    ensures Evolves(s, ComplaintRoutes.Submit(s, h, env, category, description, file).store)
  {
    AssignEvolves(s, h, env, id, staffId);
    UpdateStatusEvolves(s, h, env, id, status, remarks);
    SubmitEvolves(s, h, env, category, description, file);
  }

  lemma AssignEvolves(s: Store, h: Headers, env: Env, id: ComplaintModel.Id, staffId: string)
    ensures Evolves(s, AdminComplaintRoutes.Assign(s, h, env, id, staffId).store)
  {
  }

  lemma UpdateStatusEvolves(s: Store, h: Headers, env: Env, id: ComplaintModel.Id, status: string, remarks: string)
    ensures Evolves(s, StaffRoutes.UpdateStatus(s, h, env, id, status, remarks).store)
  {
  }

  lemma SubmitEvolves(s: Store, h: Headers, env: Env, category: string, description: string, file: Option<ComplaintRoutes.Upload>)
    ensures Evolves(s, ComplaintRoutes.Submit(s, h, env, category, description, file).store)
  {
  }

  /** Deleting a staff member leaves every complaint as it was, including the
      ones still assigned to the removed id. */
  lemma DeleteStaffOrphansAssignments(s: Store, h: Headers, env: Env, uid: Directory.Id, id: ComplaintModel.Id)
    requires AdminStaffRoutes.DeleteStaff(s, h, env, uid).response.Sent?
    requires id in s.complaints && s.complaints[id].assignedStaffId == Some(uid)
    ensures AdminStaffRoutes.DeleteStaff(s, h, env, uid).store.complaints[id].assignedStaffId == Some(uid)
  {
  }

  /** The ownership test throws on a complaint nobody has been assigned: 500, nothing written. */
  lemma UpdateUnassignedIsServerError(s: Store, h: Headers, env: Env, id: ComplaintModel.Id, status: string, remarks: string)
    requires Guards.StaffGate(h, env).Ok? && StaffRoutes.StatusTarget(status, remarks).Some?
    requires id in s.complaints && s.complaints[id].assignedStaffId.None?
    ensures StaffRoutes.UpdateStatus(s, h, env, id, status, remarks) == Step(Rejected(ServerError), s)
    ensures StaffRoutes.UpdateStatus(s, h, env, id, status, remarks).response.Code() == 500
  {
  }

  /** A freshly submitted complaint can only be worked on by staff once an
      admin has assigned it. */
  lemma NewComplaintNeedsAssignment(s: Store, h: Headers, hStaff: Headers, env: Env, category: string, description: string, file: Option<ComplaintRoutes.Upload>, status: string, remarks: string)
    requires ComplaintRoutes.Submit(s, h, env, category, description, file).response.Sent?
    ensures var t := ComplaintRoutes.Submit(s, h, env, category, description, file).store;
      !StaffRoutes.UpdateStatus(t, hStaff, env, env.freshId, status, remarks).response.Sent?
  {
  }

  /** The walk through the lifecycle: a student's Electrical complaint shows
      up as pending on the dashboard, is assigned to a plumber (the trade the
      dialog would not suggest, which the server does not check), and resolved
      by that plumber, after which it sits in the plumber's resolved queue and
      not in the active one. */
  lemma ElectricalComplaintScenario(
    s0: Store, env: Env, hStudent: Headers, hAdmin: Headers, hPlumber: Headers,
    student: User, plumber: Staff, views: seq<StaffView>, file: ComplaintRoutes.Upload)
    requires s0.complaints == map[]
    requires plumber.role == "Plumber" && plumber.uid != ""
    requires Guards.Authenticate(hStudent, env) == Ok(Some(student)) && student.id != ""
    requires Guards.AdminGate(hAdmin, env).Ok?
    requires Guards.StaffGate(hPlumber, env).Ok? && Guards.StaffGate(hPlumber, env).value.id == plumber.uid
    requires 0 < |file.data| <= ComplaintRoutes.UploadLimit && file.mimeType != ""
    ensures View(plumber) !in AssignPanel.Offered(Electrical, views)
    ensures var s1 := ComplaintRoutes.Submit(s0, hStudent, env, "Electrical", "Light broken", Some(file)).store;
      var s2 := AdminComplaintRoutes.Assign(s1, hAdmin, env, env.freshId, plumber.uid).store;
      var s3 := StaffRoutes.UpdateStatus(s2, hPlumber, env, env.freshId, "Resolved", "fixed").store;
      && AdminComplaintRoutes.Stats(s1, hAdmin, env) == Sent(200, AdminComplaintRoutes.Counts(1, 0, 1))
      && env.freshId in s2.complaints && s2.complaints[env.freshId].status == InProgress
      && s2.complaints[env.freshId].assignedStaffId == Some(plumber.uid)
      && env.freshId in s3.complaints && s3.complaints[env.freshId].status == Resolved
      && s3.complaints[env.freshId].remarks == "fixed"
      && ResolvedFor(plumber.uid)(s3.complaints[env.freshId]) && !ActiveFor(plumber.uid)(s3.complaints[env.freshId])
  {
    ScenarioSubmit(s0, env, hStudent, student, file);
    var s1 := ComplaintRoutes.Submit(s0, hStudent, env, "Electrical", "Light broken", Some(file)).store;
    StatsOfOneOpen(s1, hAdmin, env, env.freshId, s1.complaints[env.freshId]);
    PlumberNotOffered(views, plumber);
    AssignThenResolve(s1, hAdmin, hPlumber, env, env.freshId, plumber.uid);
  }

  /** The second half of the walk on any store holding the complaint: the
      admin assigns it and the assignee resolves it with a remark. */
  lemma AssignThenResolve(s1: Store, hAdmin: Headers, hPlumber: Headers, env: Env, id: ComplaintModel.Id, uid: Directory.Id)
    requires Guards.AdminGate(hAdmin, env).Ok? && uid != "" && id in s1.complaints
    requires Guards.StaffGate(hPlumber, env).Ok? && Guards.StaffGate(hPlumber, env).value.id == uid
    ensures var s2 := AdminComplaintRoutes.Assign(s1, hAdmin, env, id, uid).store;
      var s3 := StaffRoutes.UpdateStatus(s2, hPlumber, env, id, "Resolved", "fixed").store;
      && id in s2.complaints && s2.complaints[id].status == InProgress
      && s2.complaints[id].assignedStaffId == Some(uid)
      && id in s3.complaints && s3.complaints[id].status == Resolved
      && s3.complaints[id].remarks == "fixed"
      && ResolvedFor(uid)(s3.complaints[id]) && !ActiveFor(uid)(s3.complaints[id])
  {
    ScenarioAssign(s1, hAdmin, env, id, uid);
    var s2 := AdminComplaintRoutes.Assign(s1, hAdmin, env, id, uid).store;
    ScenarioResolve(s2, hPlumber, env, id, uid);
  }

  /** The middle step of the walk: the admin assigns the complaint. */
  lemma ScenarioAssign(s: Store, h: Headers, env: Env, id: ComplaintModel.Id, uid: Directory.Id)
    requires Guards.AdminGate(h, env).Ok? && uid != "" && id in s.complaints
    ensures var t := AdminComplaintRoutes.Assign(s, h, env, id, uid).store;
      id in t.complaints && t.complaints[id].status == InProgress && t.complaints[id].assignedStaffId == Some(uid)
  {
  }

  /** The last step of the walk: the assignee resolves with a remark. */
  lemma ScenarioResolve(s: Store, h: Headers, env: Env, id: ComplaintModel.Id, uid: Directory.Id)
    requires Guards.StaffGate(h, env).Ok? && Guards.StaffGate(h, env).value.id == uid
    requires id in s.complaints && s.complaints[id].assignedStaffId == Some(uid)
    ensures var t := StaffRoutes.UpdateStatus(s, h, env, id, "Resolved", "fixed").store;
      && t.complaints[id].status == Resolved && t.complaints[id].remarks == "fixed"
      && ResolvedFor(uid)(t.complaints[id]) && !ActiveFor(uid)(t.complaints[id])
  {
    var r := StaffRoutes.UpdateStatus(s, h, env, id, "Resolved", "fixed");
    assert StaffRoutes.StatusTarget("Resolved", "fixed") == Some(Resolved);
    assert r.response.Sent?;
    assert StatusName(r.response.body.status) == "Resolved";
  }

  /** The first step of the walk: the submission is accepted and is the only complaint. */
  lemma ScenarioSubmit(s0: Store, env: Env, hStudent: Headers, student: User, file: ComplaintRoutes.Upload)
    requires s0.complaints == map[]
    requires Guards.Authenticate(hStudent, env) == Ok(Some(student)) && student.id != ""
    requires 0 < |file.data| <= ComplaintRoutes.UploadLimit && file.mimeType != ""
    ensures var r := ComplaintRoutes.Submit(s0, hStudent, env, "Electrical", "Light broken", Some(file));
      && r.response.Sent?
      && r.store.complaints == map[env.freshId := r.response.body]
      && r.response.body.status == Submitted
  {
    var desc := "Light broken";
    assert !IsJsSpace(desc[0]);
    assert !Blank(desc);
  }

  /** One open complaint shows on the dashboard as total 1, resolved 0, pending 1. */
  lemma StatsOfOneOpen(s: Store, h: Headers, env: Env, id: ComplaintModel.Id, c: Complaint)
    requires Guards.AdminGate(h, env).Ok?
    requires s.complaints == map[id := c] && c.status != Resolved
    ensures AdminComplaintRoutes.Stats(s, h, env) == Sent(200, AdminComplaintRoutes.Counts(1, 0, 1))
  {
    assert AdminComplaintRoutes.WithStatus(s.complaints, (st: Status) => st == Resolved) == {};
    assert AdminComplaintRoutes.WithStatus(s.complaints, (st: Status) => st != Resolved) == {id};
  }

  /** The assign dialog does not suggest a plumber for an Electrical complaint. */
  lemma PlumberNotOffered(views: seq<StaffView>, plumber: Staff)
    requires plumber.role == "Plumber"
    ensures View(plumber) !in AssignPanel.Offered(Electrical, views)
  {
  }

  /** The student's timeline, fed the update time, dates a resolution with
      the clock reading at which staff resolved it. */
  lemma TimelineDatesResolution(s: Store, h: Headers, env: Env, id: ComplaintModel.Id, remarks: string, today: nat)
    requires StaffRoutes.UpdateStatus(s, h, env, id, "Resolved", remarks).response.Sent?
    ensures var c := StaffRoutes.UpdateStatus(s, h, env, id, "Resolved", remarks).store.complaints[id];
      Timeline.ResolutionDate(Timeline.TrackedCard(c), today) == Some(env.now)
  {
    var c := StaffRoutes.UpdateStatus(s, h, env, id, "Resolved", remarks).store.complaints[id];
    assert StatusName(c.status) == "Resolved";
    Timeline.TrackedResolutionDateIsUpdate(c, today);
  }

  // ---- From login to the routes ----

  /** A token issued by a login, presented before it expires, admits its
      holder to the admin routes exactly when the login named the admin and to
      the staff routes exactly when it named a staff member. */
  lemma LoginTokenOpensItsRoutes(cfg: AuthController.Config, s: Store, email: string, password: string, issuedAt: nat, h: Headers, env: Env)
    requires AuthController.Login(cfg, s, email, password, issuedAt).Sent?
    requires AuthHeader in h && h[AuthHeader] != ""
    requires env.verify(h[AuthHeader]) == Some(AuthController.Login(cfg, s, email, password, issuedAt).body)
    requires env.now / 1000 < issuedAt / 1000 + AuthController.TokenLifetime
    ensures var p := AuthController.Resolve(cfg, s.staff, s.students, email, password).value;
      && Guards.Authenticate(h, env) == Ok(Some(AuthController.Payload(p)))
      && (Guards.AdminGate(h, env).Ok? <==> p.AdminPrincipal?)
      && (Guards.StaffGate(h, env).Ok? <==> p.StaffPrincipal?)
  {
  }

  /** The same token is refused with 401 once the hour is over. */
  lemma LoginTokenExpires(cfg: AuthController.Config, s: Store, email: string, password: string, issuedAt: nat, h: Headers, env: Env)
    requires AuthController.Login(cfg, s, email, password, issuedAt).Sent?
    requires AuthHeader in h && h[AuthHeader] != ""
    requires env.verify(h[AuthHeader]) == Some(AuthController.Login(cfg, s, email, password, issuedAt).body)
    requires env.now / 1000 >= issuedAt / 1000 + AuthController.TokenLifetime
    ensures Guards.Authenticate(h, env) == Err(BadToken)
  {
  }

  /** Without a token every protected route answers 401 and writes nothing. */
  lemma NoTokenNoAccess(s: Store, h: Headers, env: Env, id: ComplaintModel.Id, staffId: string, status: string, remarks: string)
    requires AuthHeader !in h
    ensures AdminComplaintRoutes.Stats(s, h, env).Code() == 401
    ensures AdminComplaintRoutes.Assign(s, h, env, id, staffId) == Step(Rejected(NoToken), s)
    ensures StaffRoutes.UpdateStatus(s, h, env, id, status, remarks) == Step(Rejected(NoToken), s)
    ensures AdminStaffRoutes.DeleteStaff(s, h, env, id) == Step(Rejected(NoToken), s)
    ensures AdminStaffRoutes.ListStaff(s, h, env).Code() == 401
  {
  }

  /** Staff and students are refused the admin routes with 403, and admins and
      students the staff routes, whatever the request. */
  lemma WrongRoleForbidden(s: Store, h: Headers, env: Env, id: ComplaintModel.Id, staffId: string, status: string, remarks: string)
    requires Guards.Authenticate(h, env).Ok?
    ensures Guards.Authenticate(h, env).value.Some? && Guards.Authenticate(h, env).value.value.role != AdminRole ==>
      AdminComplaintRoutes.Assign(s, h, env, id, staffId) == Step(Rejected(AdminOnly), s)
    ensures Guards.Authenticate(h, env).value.Some? && Guards.Authenticate(h, env).value.value.role != StaffRole ==>
      StaffRoutes.UpdateStatus(s, h, env, id, status, remarks) == Step(Rejected(StaffOnly), s)
    ensures Guards.Authenticate(h, env).value.None? ==>
      AdminComplaintRoutes.Stats(s, h, env).Code() == 403 && StaffRoutes.UpdateStatus(s, h, env, id, status, remarks).response.Code() == 403
  {
  }

  /** Emails are unique within each directory only: a student's email can be
      given to a new staff member, since creation looks only at Staff. */
  lemma CreateStaffIgnoresStudents(s: Store, students: seq<Student>, h: Headers, env: Env, staffId: string, name: string, email: string, role: string, password: string)
    ensures AdminStaffRoutes.CreateStaff(s.(students := students), h, env, staffId, name, email, role, password).response
         == AdminStaffRoutes.CreateStaff(s, h, env, staffId, name, email, role, password).response
  {
  }
}
