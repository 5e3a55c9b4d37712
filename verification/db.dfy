/** The whole persistent state every route reads and writes: complaints by id
    and the two directories in natural (insertion) order. */
module Db {
  import opened Wrappers
  import opened Http
  import opened ComplaintModel
  import opened Directory

  datatype Store = Store(complaints: map<ComplaintModel.Id, Complaint>, staff: seq<Staff>, students: seq<Student>)

  /** A route's outcome: its response and the store it leaves behind. */
  datatype Step<+T> = Step(response: Response<T>, store: Store)

  /** What the schemas and unique indexes guarantee of every stored state. */
  predicate Valid(s: Store)
  {
    && (forall id :: id in s.complaints ==> WellFormed(s.complaints[id]))
    && StaffUnique(s.staff)
    && StudentsUnique(s.students)
    && (forall k :: 0 <= k < |s.students| ==> StudentComplete(s.students[k]))
  }

  /** The clock never runs behind a stored timestamp. */
  predicate ClockAhead(s: Store, now: nat)
  {
    forall id :: id in s.complaints ==> s.complaints[id].updatedAt <= now
  }

  /** The fields a complaint keeps for life: owner, category, description, image, creation time. */
  predicate SameSubject(c: Complaint, d: Complaint)
  {
    && d.studentId == c.studentId
    && d.category == c.category
    && d.description == c.description
    && d.image == c.image
    && d.createdAt == c.createdAt
  }

  /** How any route may change the complaints: none disappears and none changes its subject. */
  predicate Evolves(s: Store, t: Store)
  {
    && s.complaints.Keys <= t.complaints.Keys
    && forall id :: id in s.complaints ==> SameSubject(s.complaints[id], t.complaints[id])
  }

  /** The query filters and sort keys the routes use. */
  function OwnedBy(uid: ComplaintModel.Id): Complaint -> bool
  {
    (c: Complaint) => c.studentId == uid
  }

  function ActiveFor(uid: ComplaintModel.Id): Complaint -> bool
  {
    (c: Complaint) => c.assignedStaffId == Some(uid) && c.status != Resolved
  }

  function ResolvedFor(uid: ComplaintModel.Id): Complaint -> bool
  {
    (c: Complaint) => c.assignedStaffId == Some(uid) && c.status == Resolved
  }

  function AnyComplaint(): Complaint -> bool
  {
    (c: Complaint) => true
  }

  function ByCreation(): Complaint -> int
  {
    (c: Complaint) => c.createdAt
  }

  function ByUpdate(): Complaint -> int
  {
    (c: Complaint) => c.updatedAt
  }
}
