/** The admin's complaint routes (src/routes/admin.complaint.routes.js):
    dashboard counts, the full list, and assignment to a staff member. */
module AdminComplaintRoutes {
  import opened Wrappers
  import opened Http
  import opened ComplaintModel
  import opened Db
  import Guards
  import Listing

  datatype Counts = Counts(total: nat, resolved: nat, pending: nat)

  /** The ids of complaints whose status satisfies `p`. */
  function WithStatus(m: map<ComplaintModel.Id, Complaint>, p: Status -> bool): set<ComplaintModel.Id>
  {
    set id | id in m && p(m[id].status)
  }

  /** GET /api/admin/complaints/stats: three counts over one store; pending is
      everything not Resolved. */
  function Stats(s: Store, h: Headers, env: Env): (r: Response<Counts>)
    ensures Guards.AdminGate(h, env).Err? ==> r == Rejected(Guards.AdminGate(h, env).error)
    ensures Guards.AdminGate(h, env).Ok? ==>
      && r.Sent? && r.code == 200
      && r.body.total == |s.complaints|
      && r.body.resolved == |WithStatus(s.complaints, (st: Status) => st == Resolved)|
      && r.body.pending == |WithStatus(s.complaints, (st: Status) => st != Resolved)|
  {
    match Guards.AdminGate(h, env)
    case Err(f) => Rejected(f)
    case Ok(_) =>
      Sent(200, Counts(|s.complaints|,
                       |WithStatus(s.complaints, (st: Status) => st == Resolved)|,
                       |WithStatus(s.complaints, (st: Status) => st != Resolved)|))
  }

  /** Sets of ids split by a status test add up to the whole store. */
  lemma SplitCounts(m: map<ComplaintModel.Id, Complaint>, p: Status -> bool, q: Status -> bool)
    requires forall st: Status :: p(st) != q(st)
    ensures |WithStatus(m, p)| + |WithStatus(m, q)| == |m|
  {
    var a := WithStatus(m, p);
    var b := WithStatus(m, q);
    assert a + b == m.Keys;
    assert a * b == {};
    assert |a + b| == |a| + |b| - |a * b|;
  }

  /** The dashboard counts are consistent: total = resolved + pending. */
  lemma StatsAddUp(s: Store, h: Headers, env: Env)
    requires Stats(s, h, env).Sent?
    ensures Stats(s, h, env).body.total == Stats(s, h, env).body.resolved + Stats(s, h, env).body.pending
  {
    SplitCounts(s.complaints, (st: Status) => st == Resolved, (st: Status) => st != Resolved);
  }

  /** Pending is not just Submitted: it counts Submitted and In Progress together. */
  lemma PendingCountsBothOpenStates(s: Store, h: Headers, env: Env)
    requires Stats(s, h, env).Sent?
    ensures Stats(s, h, env).body.pending
      == |WithStatus(s.complaints, (st: Status) => st == Submitted)|
       + |WithStatus(s.complaints, (st: Status) => st == InProgress)|
  {
    var m := s.complaints;
    var open := WithStatus(m, (st: Status) => st != Resolved);
    var sub := WithStatus(m, (st: Status) => st == Submitted);
    var inp := WithStatus(m, (st: Status) => st == InProgress);
    assert open == sub + inp;
    assert sub * inp == {};
    assert |sub + inp| == |sub| + |inp| - |sub * inp|;
  }

  /** GET /api/admin/complaints: every complaint, newest first. */
  method ListAll(s: Store, h: Headers, env: Env) returns (r: Response<seq<ComplaintModel.Id>>)
    ensures Guards.AdminGate(h, env).Err? ==> r == Rejected(Guards.AdminGate(h, env).error)
    ensures Guards.AdminGate(h, env).Ok? ==>
      && r.Sent? && r.code == 200
      && Listing.IsListing(r.body, s.complaints, AnyComplaint(), ByCreation())
      && |r.body| == |s.complaints|
  {
    match Guards.AdminGate(h, env)
    case Err(f) => r := Rejected(f);
    case Ok(_) =>
      var ids := Listing.SortedSelection(s.complaints, AnyComplaint(), ByCreation());
      Listing.ListingCoversAll(ids, s.complaints, AnyComplaint(), ByCreation());
      r := Sent(200, ids);
  }

  /** PUT /api/admin/complaints/:id/assign: a missing staff id is refused before
      the store is read; otherwise the complaint, whatever its status or
      assignee, is given to `staffId` and put In Progress. The staff
      directory is never consulted. */
  function Assign(s: Store, h: Headers, env: Env, id: ComplaintModel.Id, staffId: string): (r: Step<Complaint>)
    ensures Guards.AdminGate(h, env).Err? ==> r == Step(Rejected(Guards.AdminGate(h, env).error), s)
    ensures r.response.Rejected? ==> r.store == s
    ensures Guards.AdminGate(h, env).Ok? && staffId == "" ==> r.response == Rejected(StaffIdRequired)
    ensures Guards.AdminGate(h, env).Ok? && staffId != "" && id !in s.complaints ==> r.response == Rejected(NotFound)
    ensures r.response.Sent? <==> Guards.AdminGate(h, env).Ok? && staffId != "" && id in s.complaints
    ensures r.response.Sent? ==>
      var c := s.complaints[id];
      var d := r.response.body;
      && r.response.code == 200
      && r.store == s.(complaints := s.complaints[id := d])
      && d.assignedStaffId == Some(staffId)
      && d.status == InProgress
      && d.updatedAt == env.now
      && SameSubject(c, d) && d.remarks == c.remarks
  {
    match Guards.AdminGate(h, env)
    case Err(f) => Step(Rejected(f), s)
    case Ok(_) =>
      if staffId == "" then Step(Rejected(StaffIdRequired), s)
      else if id !in s.complaints then Step(Rejected(NotFound), s)
      else
        var d := s.complaints[id].(assignedStaffId := Some(staffId), status := InProgress, updatedAt := env.now);
        Step(Sent(200, d), s.(complaints := s.complaints[id := d]))
  }

  /** Assignment reads nothing but the complaints: the staff and student
      directories neither change nor influence the outcome. */
  lemma AssignIgnoresDirectories(s: Store, h: Headers, env: Env, id: ComplaintModel.Id, staffId: string, staff: seq<Directory.Staff>, students: seq<Directory.Student>)
    ensures var t := s.(staff := staff, students := students);
      && Assign(t, h, env, id, staffId).response == Assign(s, h, env, id, staffId).response
      && Assign(t, h, env, id, staffId).store.complaints == Assign(s, h, env, id, staffId).store.complaints
  {
  }

  /** Assignment overwrites a Resolved complaint too: it reopens In Progress. */
  lemma AssignReopensResolved(s: Store, h: Headers, env: Env, id: ComplaintModel.Id, staffId: string)
    requires Guards.AdminGate(h, env).Ok? && staffId != ""
    requires id in s.complaints && s.complaints[id].status == Resolved
    ensures Assign(s, h, env, id, staffId).store.complaints[id].status == InProgress
  {
  }

  /** Assigning the same staff member twice at the same clock reading changes nothing more. */
  lemma AssignIdempotent(s: Store, h: Headers, env: Env, id: ComplaintModel.Id, staffId: string)
    requires Assign(s, h, env, id, staffId).response.Sent?
    ensures var t := Assign(s, h, env, id, staffId).store;
      Assign(t, h, env, id, staffId).store == t
  {
  }
}
