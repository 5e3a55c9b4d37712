/** The staff member's routes (src/routes/staff.routes.js): the open queue,
    the resolved history, and the status update. */
module StaffRoutes {
  import opened Wrappers
  import opened Http
  import opened ComplaintModel
  import opened Db
  import Guards
  import Listing

  /** GET /api/staff/complaints/active: the caller's assigned complaints that
      are not Resolved, newest first. */
  method Active(s: Store, h: Headers, env: Env) returns (r: Response<seq<ComplaintModel.Id>>)
    ensures Guards.StaffGate(h, env).Err? ==> r == Rejected(Guards.StaffGate(h, env).error)
    ensures Guards.StaffGate(h, env).Ok? ==>
      && r.Sent? && r.code == 200
      && Listing.IsListing(r.body, s.complaints, ActiveFor(Guards.StaffGate(h, env).value.id), ByCreation())
  {
    match Guards.StaffGate(h, env)
    case Err(f) => r := Rejected(f);
    case Ok(user) =>
      var ids := Listing.SortedSelection(s.complaints, ActiveFor(user.id), ByCreation());
      r := Sent(200, ids);
  }

  /** GET /api/staff/complaints/resolved: the caller's Resolved complaints,
      most recently updated first. */
  method ResolvedList(s: Store, h: Headers, env: Env) returns (r: Response<seq<ComplaintModel.Id>>)
    ensures Guards.StaffGate(h, env).Err? ==> r == Rejected(Guards.StaffGate(h, env).error)
    ensures Guards.StaffGate(h, env).Ok? ==>
      && r.Sent? && r.code == 200
      && Listing.IsListing(r.body, s.complaints, ResolvedFor(Guards.StaffGate(h, env).value.id), ByUpdate())
  {
    match Guards.StaffGate(h, env)
    case Err(f) => r := Rejected(f);
    case Ok(user) =>
      var ids := Listing.SortedSelection(s.complaints, ResolvedFor(user.id), ByUpdate());
      r := Sent(200, ids);
  }

  /** The body validators: the status must be In Progress or Resolved, and
      resolving needs remarks. */
  function StatusTarget(status: string, remarks: string): (r: Option<Status>)
    ensures r.Some? ==> StatusName(r.value) == status && r.value != Submitted
    ensures r.Some? <==> (status == "In Progress" || (status == "Resolved" && remarks != ""))
  {
    if status == "In Progress" then Some(InProgress)
    else if status == "Resolved" && remarks != "" then Some(Resolved)
    else None
  }

  /** PUT /api/staff/complaints/:id/status. The body is validated before any
      lookup; a missing complaint is 404 before ownership is looked at; an
      unassigned complaint makes the ownership test throw (500); someone
      else's complaint is 401. On success only status, remarks and the update
      time change, whatever the complaint's previous status. */
  function UpdateStatus(s: Store, h: Headers, env: Env, id: ComplaintModel.Id, status: string, remarks: string): (r: Step<Complaint>)
    ensures Guards.StaffGate(h, env).Err? ==> r == Step(Rejected(Guards.StaffGate(h, env).error), s)
    ensures r.response.Rejected? ==> r.store == s
    ensures Guards.StaffGate(h, env).Ok? && StatusTarget(status, remarks).None? ==>
      r.response == Rejected(Invalid)
    ensures Guards.StaffGate(h, env).Ok? && StatusTarget(status, remarks).Some? ==>
      && (id !in s.complaints ==> r.response == Rejected(NotFound))
      && (id in s.complaints && s.complaints[id].assignedStaffId.None? ==> r.response == Rejected(ServerError))
      && (id in s.complaints && s.complaints[id].assignedStaffId.Some? &&
          s.complaints[id].assignedStaffId.value != Guards.StaffGate(h, env).value.id ==>
            r.response == Rejected(NotOwner))
    ensures r.response.Sent? <==>
      && Guards.StaffGate(h, env).Ok? && StatusTarget(status, remarks).Some?
      && id in s.complaints && s.complaints[id].assignedStaffId == Some(Guards.StaffGate(h, env).value.id)
    ensures r.response.Sent? ==>
      var c := s.complaints[id];
      var d := r.response.body;
      && r.response.code == 200
      && r.store == s.(complaints := s.complaints[id := d])
      && StatusName(d.status) == status
      && d.remarks == remarks
      && d.updatedAt == env.now
      && SameSubject(c, d) && d.assignedStaffId == c.assignedStaffId
  {
    match Guards.StaffGate(h, env)
    case Err(f) => Step(Rejected(f), s)
    case Ok(user) =>
      match StatusTarget(status, remarks)
      case None => Step(Rejected(Invalid), s)
      case Some(target) =>
        if id !in s.complaints then Step(Rejected(NotFound), s)
        else
          var c := s.complaints[id];
          match c.assignedStaffId
          case None => Step(Rejected(ServerError), s)
          case Some(owner) =>
            if owner != user.id then Step(Rejected(NotOwner), s)
            else
              var d := c.(status := target, remarks := remarks, updatedAt := env.now);
              Step(Sent(200, d), s.(complaints := s.complaints[id := d]))
  }

  /** The assignee can move a Resolved complaint back to In Progress: no
      guard looks at the previous status. */
  lemma ResolvedCanBeReopened(s: Store, h: Headers, env: Env, id: ComplaintModel.Id)
    requires Guards.StaffGate(h, env).Ok?
    requires id in s.complaints && s.complaints[id].status == Resolved
    requires s.complaints[id].assignedStaffId == Some(Guards.StaffGate(h, env).value.id)
    ensures UpdateStatus(s, h, env, id, "In Progress", "").response.Sent?
    ensures UpdateStatus(s, h, env, id, "In Progress", "").store.complaints[id].status == InProgress
  {
  }

  /** Resolving without remarks is refused whatever the complaint, even a missing one. */
  lemma ResolveNeedsRemarks(s: Store, h: Headers, env: Env, id: ComplaintModel.Id)
    requires Guards.StaffGate(h, env).Ok?
    ensures UpdateStatus(s, h, env, id, "Resolved", "") == Step(Rejected(Invalid), s)
  {
  }
}
