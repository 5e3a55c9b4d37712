/** The Staff and Student collections (src/models/staff.model.js,
    src/models/student.model.js): records, the stored password field and its
    save hook, lookups, and the uniqueness the collections' indexes enforce. */
module Directory {
  import opened Wrappers
  import Seqs

  type Id = string

  /** The stored password field. A new document holds the plaintext the route
      put there; the save hook replaces it by a salted digest of what it held.
      Digests are compared only by the hash library, never read back. */
  datatype Credential = Plain(text: string) | Digest(of: Credential, salt: nat)

  /** The salted one-way hash applied by the save hook. */
  function Hash(c: Credential, salt: nat): Credential
  {
    Digest(c, salt)
  }

  /** The hash library's compare: a password matches exactly the digest of its plaintext. */
  predicate Matches(password: string, stored: Credential)
  {
    stored.Digest? && stored.of == Plain(password)
  }

  /** The `pre('save')` hook: hash only when the field was modified. */
  function HashIfModified(c: Credential, modified: bool, salt: nat): (r: Credential)
    ensures !modified ==> r == c
    ensures modified && c.Plain? ==> forall p :: Matches(p, r) <==> p == c.text
    ensures modified ==> forall p :: !Matches(p, c) || !Matches(p, r)
  {
    if modified then Hash(c, salt) else c
  }

  /** A `required` string field: present and not empty. */
  predicate Present(c: Credential)
  {
    c.Plain? ==> c.text != ""
  }

  datatype Staff = Staff(uid: Id, staffId: string, name: string, email: string, role: string, passwordHash: Credential)

  datatype Student = Student(uid: Id, rollNumber: string, name: string, email: string, passwordHash: Credential)

  /** A staff record as the list and update routes return it: no password field. */
  datatype StaffView = StaffView(uid: Id, staffId: string, name: string, email: string, role: string)

  function View(s: Staff): (v: StaffView)
    ensures v.uid == s.uid && v.staffId == s.staffId && v.name == s.name
    ensures v.email == s.email && v.role == s.role
  {
    StaffView(s.uid, s.staffId, s.name, s.email, s.role)
  }

  /** Two records that differ only in their password have the same view. */
  lemma ViewForgetsPassword(a: Staff, c: Credential)
    ensures View(a.(passwordHash := c)) == View(a)
  {
  }

  /** `Staff.findOne({ email })`. */
  function StaffWithEmail(staff: seq<Staff>, email: string): Option<nat>
  {
    Seqs.First(staff, (s: Staff) => s.email == email)
  }

  /** `Staff.findById(id)`. */
  function StaffWithUid(staff: seq<Staff>, uid: Id): Option<nat>
  {
    Seqs.First(staff, (s: Staff) => s.uid == uid)
  }

  /** `Student.findOne({ email })`. */
  function StudentWithEmail(students: seq<Student>, email: string): Option<nat>
  {
    Seqs.First(students, (s: Student) => s.email == email)
  }

  /** The unique indexes on Staff: `_id`, `staffId` and `email`. */
  predicate StaffUnique(staff: seq<Staff>)
  {
    forall i, j :: 0 <= i < j < |staff| ==>
      staff[i].uid != staff[j].uid && staff[i].staffId != staff[j].staffId && staff[i].email != staff[j].email
  }

  /** The unique indexes on Student: `_id`, `rollNumber` and `email`. */
  predicate StudentsUnique(students: seq<Student>)
  {
    forall i, j :: 0 <= i < j < |students| ==>
      students[i].uid != students[j].uid && students[i].rollNumber != students[j].rollNumber
      && students[i].email != students[j].email
  }

  /** The Student schema's required fields. */
  predicate StudentComplete(s: Student)
  {
    s.rollNumber != "" && s.name != "" && s.email != "" && Present(s.passwordHash)
  }

  /** Whether inserting `rec` would violate a unique index of Staff. */
  predicate StaffClashes(staff: seq<Staff>, rec: Staff)
  {
    exists k :: 0 <= k < |staff| && (staff[k].uid == rec.uid || staff[k].staffId == rec.staffId || staff[k].email == rec.email)
  }

  /** Whether inserting `rec` would violate a unique index of Student. */
  predicate StudentClashes(students: seq<Student>, rec: Student)
  {
    exists k :: 0 <= k < |students| && (students[k].uid == rec.uid || students[k].rollNumber == rec.rollNumber || students[k].email == rec.email)
  }

  /** An insert that passes the index check keeps the Staff indexes unique. */
  lemma StaffInsertUnique(staff: seq<Staff>, rec: Staff)
    requires StaffUnique(staff) && !StaffClashes(staff, rec)
    ensures StaffUnique(staff + [rec])
  {
  }

  /** An insert that passes the index check keeps the Student indexes unique. */
  lemma StudentInsertUnique(students: seq<Student>, rec: Student)
    requires StudentsUnique(students) && !StudentClashes(students, rec)
    ensures StudentsUnique(students + [rec])
  {
  }

  /** When emails are unique, the first staff record with an email is the only one. */
  lemma StaffEmailLookupUnique(staff: seq<Staff>, email: string, k: nat)
    requires StaffUnique(staff) && k < |staff| && staff[k].email == email
    ensures StaffWithEmail(staff, email) == Some(k)
  {
  }
}
