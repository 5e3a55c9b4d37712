/** The admin's complaint table and its assignment dialog
    (src/pages/ManageComplaints.js): which staff are suggested for a
    complaint, when the assign action is offered, and how the table is
    patched once the server has accepted an assignment. */
module AssignPanel {
  import opened Wrappers
  import opened ComplaintModel
  import opened Directory
  import opened Db
  import Seqs
  import Http
  import Guards
  import AdminComplaintRoutes

  /** The category-to-trade suggestion; Other has none. */
  function SuggestedRole(c: Category): (r: Option<string>)
    ensures r.None? <==> c == Other
    ensures r.Some? ==> r.value in {"Electrician", "Plumber", "Cleaner"}
    ensures CategoryName(c) == "Electrical" ==> r == Some("Electrician")
    ensures CategoryName(c) == "Plumbing" ==> r == Some("Plumber")
    ensures CategoryName(c) == "Cleanliness" ==> r == Some("Cleaner")
  {
    match c
    case Electrical => Some("Electrician")
    case Plumbing => Some("Plumber")
    case Cleanliness => Some("Cleaner")
    case Other => None
  }

  /** Different categories never suggest the same trade. */
  lemma SuggestionInjective(a: Category, b: Category)
    requires SuggestedRole(a).Some? && SuggestedRole(a) == SuggestedRole(b)
    ensures a == b
  {
  }

  /** The staff the dialog offers: those whose role is the suggested trade,
      or everyone when there is no suggestion. */
  function Offered(c: Category, all: seq<StaffView>): (r: seq<StaffView>)
    ensures SuggestedRole(c).None? ==> r == all
    ensures SuggestedRole(c).Some? ==>
      && (forall i :: 0 <= i < |r| ==> r[i] in all && r[i].role == SuggestedRole(c).value)
      && (forall i :: 0 <= i < |all| && all[i].role == SuggestedRole(c).value ==> all[i] in r)
  {
    match SuggestedRole(c)
    case None => all
    case Some(role) => Seqs.Filter(all, (v: StaffView) => v.role == role)
  }

  /** The offer keeps the directory's order: offering from two halves is
      offering from each and concatenating. */
  lemma OfferedKeepsOrder(c: Category, a: seq<StaffView>, b: seq<StaffView>)
    ensures Offered(c, a + b) == Offered(c, a) + Offered(c, b)
  {
    if SuggestedRole(c).Some? {
      Seqs.FilterConcat(a, b, (v: StaffView) => v.role == SuggestedRole(c).value);
    }
  }

  /** When every staff member has the suggested trade, all of them are offered. */
  lemma OfferedAllOfTrade(c: Category, all: seq<StaffView>)
    requires SuggestedRole(c).Some?
    requires forall i :: 0 <= i < |all| ==> all[i].role == SuggestedRole(c).value
    ensures Offered(c, all) == all
  {
    Seqs.FilterAll(all, (v: StaffView) => v.role == SuggestedRole(c).value);
  }

  /** The request the dialog's confirm button sends. */
  datatype AssignCall = AssignCall(complaintId: ComplaintModel.Id, staffId: Id)

  /** Confirming with no staff member selected sends nothing. */
  function Confirm(complaintId: ComplaintModel.Id, selected: string): (r: Option<AssignCall>)
    ensures r.None? <==> selected == ""
    ensures r.Some? ==> r.value.complaintId == complaintId && r.value.staffId == selected
  {
    if selected == "" then None else Some(AssignCall(complaintId, selected))
  }

  /** A call the dialog sends always passes the server's staff-id check. */
  lemma ConfirmedCallHasStaffId(complaintId: ComplaintModel.Id, selected: string)
    requires Confirm(complaintId, selected).Some?
    ensures Confirm(complaintId, selected).value.staffId != ""
  {
  }

  /** The assign button is shown only on Submitted rows. */
  predicate AssignButtonShown(status: string)
    ensures AssignButtonShown(status) <==> ParseStatus(status) == Some(Submitted)
  {
    status == "Submitted"
  }

  lemma AssignButtonOnlyWhenSubmitted(st: Status)
    ensures AssignButtonShown(StatusName(st)) <==> st == Submitted
  {
  }

  /** The button is the only thing restricting reassignment: the server
      accepts an assignment of a complaint whose row shows no button. */
  lemma ServerAssignsWhatTheTableHides(s: Store, h: Http.Headers, env: Http.Env, id: ComplaintModel.Id, staffId: string)
    requires Guards.AdminGate(h, env).Ok? && staffId != ""
    requires id in s.complaints && s.complaints[id].status != Submitted
    ensures !AssignButtonShown(StatusName(s.complaints[id].status))
    ensures AdminComplaintRoutes.Assign(s, h, env, id, staffId).response.Sent?
  {
  }

  /** A row of the table: the fields the assignment patch touches. */
  datatype Row = Row(id: ComplaintModel.Id, status: string, assignedStaff: Option<Id>)

  /** The local patch after a successful assignment: the row with that id takes
      the returned status and assignee; every other row is left as it was. */
  function ApplyAssigned(rows: seq<Row>, complaintId: ComplaintModel.Id, status: string, assignee: Option<Id>): (r: seq<Row>)
    ensures |r| == |rows|
    ensures forall i :: 0 <= i < |rows| && rows[i].id != complaintId ==> r[i] == rows[i]
    ensures forall i :: 0 <= i < |rows| && rows[i].id == complaintId ==>
      r[i].id == complaintId && r[i].status == status && r[i].assignedStaff == assignee
  {
    seq(|rows|, i requires 0 <= i < |rows| =>
      if rows[i].id == complaintId then rows[i].(status := status, assignedStaff := assignee) else rows[i])
  }

  /** The table shows what the store holds. */
  predicate Mirrors(rows: seq<Row>, m: map<ComplaintModel.Id, Complaint>)
  {
    forall i :: 0 <= i < |rows| ==>
      && rows[i].id in m
      && rows[i].status == StatusName(m[rows[i].id].status)
      && rows[i].assignedStaff == m[rows[i].id].assignedStaffId
  }

  /** Patching the table with the server's answer keeps it in step with the
      store the server left behind. */
  lemma PatchMatchesServer(rows: seq<Row>, s: Store, h: Http.Headers, env: Http.Env, id: ComplaintModel.Id, staffId: string)
    requires Mirrors(rows, s.complaints)
    requires AdminComplaintRoutes.Assign(s, h, env, id, staffId).response.Sent?
    ensures var d := AdminComplaintRoutes.Assign(s, h, env, id, staffId).response.body;
      Mirrors(ApplyAssigned(rows, id, StatusName(d.status), d.assignedStaffId),
              AdminComplaintRoutes.Assign(s, h, env, id, staffId).store.complaints)
  {
  }
}
