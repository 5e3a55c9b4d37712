/** The admin's staff-directory routes (src/routes/admin.staff.routes.js). */
module AdminStaffRoutes {
  import opened Wrappers
  import opened Http
  import opened Directory
  import opened Db
  import Guards
  import Seqs

  /** The create route's validators. A form they accept already meets every
      `required` of the Staff schema except the email's, which rests on the
      email checker; the checks do not trim, so white space passes them. */
  predicate StaffFormValid(env: Env, staffId: string, name: string, email: string, role: string, password: string)
    ensures StaffFormValid(env, staffId, name, email, role, password) ==>
      staffId != "" && name != "" && role != "" && Present(Plain(password))
  {
    staffId != "" && name != "" && env.isEmail(email) && role != "" && |password| >= 6
  }

  /** A staff id, name and role of a single space pass the validators. */
  lemma BlankStaffFieldsPass(env: Env, email: string, password: string)
    requires env.isEmail(email) && |password| >= 6
    ensures StaffFormValid(env, " ", " ", email, " ", password)
  {
  }

  /** POST /api/admin/staff. Validators first, then the email lookup among
      Staff only, then the schema and the unique indexes on save; the stored
      record, password digest included, is sent back with 201. */
  function CreateStaff(s: Store, h: Headers, env: Env, staffId: string, name: string, email: string, role: string, password: string): (r: Step<Staff>)
    ensures Guards.AdminGate(h, env).Err? ==> r == Step(Rejected(Guards.AdminGate(h, env).error), s)
    ensures r.response.Rejected? ==> r.store == s
    ensures Guards.AdminGate(h, env).Ok? && !StaffFormValid(env, staffId, name, email, role, password) ==>
      r.response == Rejected(Invalid)
    ensures (Guards.AdminGate(h, env).Ok? && StaffFormValid(env, staffId, name, email, role, password)
             && StaffWithEmail(s.staff, email).Some?) ==> r.response == Rejected(EmailTaken)
    ensures (Guards.AdminGate(h, env).Ok? && StaffFormValid(env, staffId, name, email, role, password)
             && StaffWithEmail(s.staff, email).None? && r.response.Rejected?) ==> r.response == Rejected(ServerError)
    ensures r.response.Sent? <==>
      && Guards.AdminGate(h, env).Ok? && StaffFormValid(env, staffId, name, email, role, password)
      && email != "" && StaffWithEmail(s.staff, email).None?
      && !StaffClashes(s.staff, Staff(env.freshId, staffId, name, email, role, Plain(password)))
    ensures r.response.Sent? ==>
      var rec := r.response.body;
      && r.response.code == 201
      && r.store == s.(staff := s.staff + [rec])
      && rec.uid == env.freshId && rec.staffId == staffId && rec.name == name
      && rec.email == email && rec.role == role
      && (forall p :: Matches(p, rec.passwordHash) <==> p == password)
  {
    match Guards.AdminGate(h, env)
    case Err(f) => Step(Rejected(f), s)
    case Ok(_) =>
      if !StaffFormValid(env, staffId, name, email, role, password) then Step(Rejected(Invalid), s)
      else if StaffWithEmail(s.staff, email).Some? then Step(Rejected(EmailTaken), s)
      else
        var rec := Staff(env.freshId, staffId, name, email, role, Plain(password));
        if email == "" || StaffClashes(s.staff, rec) then Step(Rejected(ServerError), s)
        else
          var saved := rec.(passwordHash := HashIfModified(rec.passwordHash, true, env.salt));
          Step(Sent(201, saved), s.(staff := s.staff + [saved]))
  }

  /** GET /api/admin/staff: every staff record, in directory order, without its password. */
  function ListStaff(s: Store, h: Headers, env: Env): (r: Response<seq<StaffView>>)
    ensures Guards.AdminGate(h, env).Err? ==> r == Rejected(Guards.AdminGate(h, env).error)
    ensures Guards.AdminGate(h, env).Ok? ==>
      && r.Sent? && r.code == 200 && |r.body| == |s.staff|
      && forall i :: 0 <= i < |s.staff| ==> r.body[i] == View(s.staff[i])
  {
    match Guards.AdminGate(h, env)
    case Err(f) => Rejected(f)
    case Ok(_) => Sent(200, seq(|s.staff|, i requires 0 <= i < |s.staff| => View(s.staff[i])))
  }

  /** Whether some record other than the one at `i` already holds `rec`'s staffId or email. */
  predicate ClashesWithOthers(staff: seq<Staff>, i: nat, rec: Staff)
  {
    exists k :: 0 <= k < |staff| && k != i && (staff[k].staffId == rec.staffId || staff[k].email == rec.email)
  }

  /** The `$set` of the update route: each field given in the body replaces the
      stored one; an absent field is left alone; the password never changes. */
  function Patch(rec: Staff, staffId: Option<string>, name: Option<string>, email: Option<string>, role: Option<string>): (r: Staff)
    ensures r.uid == rec.uid && r.passwordHash == rec.passwordHash
    ensures r.staffId == (if staffId.Some? then staffId.value else rec.staffId)
    ensures r.name == (if name.Some? then name.value else rec.name)
    ensures r.email == (if email.Some? then email.value else rec.email)
    ensures r.role == (if role.Some? then role.value else rec.role)
  {
    rec.(staffId := staffId.GetOr(rec.staffId), name := name.GetOr(rec.name),
         email := email.GetOr(rec.email), role := role.GetOr(rec.role))
  }

  /** PUT /api/admin/staff/:id. No validators run on this path, so empty
      values are stored as given; only the unique indexes can refuse (500). */
  function UpdateStaff(s: Store, h: Headers, env: Env, uid: Id, staffId: Option<string>, name: Option<string>, email: Option<string>, role: Option<string>): (r: Step<StaffView>)
    ensures Guards.AdminGate(h, env).Err? ==> r == Step(Rejected(Guards.AdminGate(h, env).error), s)
    ensures r.response.Rejected? ==> r.store == s
    ensures Guards.AdminGate(h, env).Ok? && StaffWithUid(s.staff, uid).None? ==> r.response == Rejected(NotFound)
    ensures Guards.AdminGate(h, env).Ok? && StaffWithUid(s.staff, uid).Some? ==>
      var i := StaffWithUid(s.staff, uid).value;
      && (r.response.Sent? <==> !ClashesWithOthers(s.staff, i, Patch(s.staff[i], staffId, name, email, role)))
      && (r.response.Rejected? ==> r.response.failure == ServerError)
    ensures r.response.Sent? ==>
      var i := StaffWithUid(s.staff, uid).value;
      && r.response.code == 200
      && r.store.complaints == s.complaints && r.store.students == s.students
      && |r.store.staff| == |s.staff|
      && (forall k :: 0 <= k < |s.staff| && k != i ==> r.store.staff[k] == s.staff[k])
      && r.store.staff[i] == Patch(s.staff[i], staffId, name, email, role)
      && r.response.body == View(r.store.staff[i])
  {
    match Guards.AdminGate(h, env)
    case Err(f) => Step(Rejected(f), s)
    case Ok(_) =>
      match StaffWithUid(s.staff, uid)
      case None => Step(Rejected(NotFound), s)
      case Some(i) =>
        var rec := Patch(s.staff[i], staffId, name, email, role);
        if ClashesWithOthers(s.staff, i, rec) then Step(Rejected(ServerError), s)
        else Step(Sent(200, View(rec)), s.(staff := s.staff[i := rec]))
  }

  /** An update can store an empty name: nothing on this path validates it. */
  lemma UpdateAcceptsEmptyName(s: Store, h: Headers, env: Env, uid: Id)
    requires StaffUnique(s.staff)
    requires Guards.AdminGate(h, env).Ok? && StaffWithUid(s.staff, uid).Some?
    ensures UpdateStaff(s, h, env, uid, None, Some(""), None, None).response.Sent?
    ensures UpdateStaff(s, h, env, uid, None, Some(""), None, None).response.body.name == ""
  {
    var i := StaffWithUid(s.staff, uid).value;
    var rec := Patch(s.staff[i], None, Some(""), None, None);
    assert !ClashesWithOthers(s.staff, i, rec) by {
      forall k | 0 <= k < |s.staff| && k != i
        ensures s.staff[k].staffId != rec.staffId && s.staff[k].email != rec.email
      {
        if k < i {
          assert s.staff[k].staffId != s.staff[i].staffId;
        } else {
          assert s.staff[i].email != s.staff[k].email;
        }
      }
    }
  }

  /** DELETE /api/admin/staff/:id: the record is removed; complaints assigned to
      it keep pointing at the removed id. */
  function DeleteStaff(s: Store, h: Headers, env: Env, uid: Id): (r: Step<string>)
    ensures Guards.AdminGate(h, env).Err? ==> r == Step(Rejected(Guards.AdminGate(h, env).error), s)
    ensures r.response.Rejected? ==> r.store == s
    ensures Guards.AdminGate(h, env).Ok? ==> (r.response.Sent? <==> StaffWithUid(s.staff, uid).Some?)
    ensures Guards.AdminGate(h, env).Ok? && StaffWithUid(s.staff, uid).None? ==> r.response == Rejected(NotFound)
    ensures r.response.Sent? ==>
      && r.response.code == 200
      && r.store.complaints == s.complaints && r.store.students == s.students
      && r.store.staff == Seqs.RemoveAt(s.staff, StaffWithUid(s.staff, uid).value)
  {
    match Guards.AdminGate(h, env)
    case Err(f) => Step(Rejected(f), s)
    case Ok(_) =>
      match StaffWithUid(s.staff, uid)
      case None => Step(Rejected(NotFound), s)
      case Some(i) => Step(Sent(200, "Staff member removed"), s.(staff := Seqs.RemoveAt(s.staff, i)))
  }

  /** With unique ids, deletion removes exactly the addressed record: it is
      gone, and every other record is still there. */
  lemma DeleteRemovesExactlyOne(s: Store, h: Headers, env: Env, uid: Id)
    requires StaffUnique(s.staff)
    requires DeleteStaff(s, h, env, uid).response.Sent?
    ensures var t := DeleteStaff(s, h, env, uid).store;
      && (forall k :: 0 <= k < |t.staff| ==> t.staff[k].uid != uid)
      && (forall k :: 0 <= k < |s.staff| && s.staff[k].uid != uid ==> s.staff[k] in t.staff)
  {
    var t := DeleteStaff(s, h, env, uid).store;
    var i := StaffWithUid(s.staff, uid).value;
    forall k | 0 <= k < |s.staff| && s.staff[k].uid != uid
      ensures s.staff[k] in t.staff
    {
      if k < i {
        assert t.staff[k] == s.staff[k];
      } else {
        assert t.staff[k - 1] == s.staff[k];
      }
    }
  }

  /** Each directory mutation keeps the Staff indexes unique. */
  lemma StaffRoutesKeepUnique(s: Store, h: Headers, env: Env, uid: Id,
                              staffId: string, name: string, email: string, role: string, password: string,
                              oStaffId: Option<string>, oName: Option<string>, oEmail: Option<string>, oRole: Option<string>)
    requires StaffUnique(s.staff)
    ensures StaffUnique(CreateStaff(s, h, env, staffId, name, email, role, password).store.staff)
    ensures StaffUnique(UpdateStaff(s, h, env, uid, oStaffId, oName, oEmail, oRole).store.staff)
    ensures StaffUnique(DeleteStaff(s, h, env, uid).store.staff)
  {
    CreateKeepsUnique(s, h, env, staffId, name, email, role, password);
    UpdateKeepsUnique(s, h, env, uid, oStaffId, oName, oEmail, oRole);
    DeleteKeepsUnique(s, h, env, uid);
  }

  lemma CreateKeepsUnique(s: Store, h: Headers, env: Env, staffId: string, name: string, email: string, role: string, password: string)
    requires StaffUnique(s.staff)
    ensures StaffUnique(CreateStaff(s, h, env, staffId, name, email, role, password).store.staff)
  {
    var c := CreateStaff(s, h, env, staffId, name, email, role, password);
    if c.response.Sent? {
      StaffInsertUnique(s.staff, Staff(env.freshId, staffId, name, email, role, Plain(password)));
      assert c.response.body == Staff(env.freshId, staffId, name, email, role, Plain(password)).(passwordHash := c.response.body.passwordHash);
    }
  }

  lemma UpdateKeepsUnique(s: Store, h: Headers, env: Env, uid: Id, oStaffId: Option<string>, oName: Option<string>, oEmail: Option<string>, oRole: Option<string>)
    requires StaffUnique(s.staff)
    ensures StaffUnique(UpdateStaff(s, h, env, uid, oStaffId, oName, oEmail, oRole).store.staff)
  {
    var u := UpdateStaff(s, h, env, uid, oStaffId, oName, oEmail, oRole);
    if u.response.Sent? {
      var i := StaffWithUid(s.staff, uid).value;
      forall a, b | 0 <= a < b < |u.store.staff|
        ensures u.store.staff[a].uid != u.store.staff[b].uid
        ensures u.store.staff[a].staffId != u.store.staff[b].staffId
        ensures u.store.staff[a].email != u.store.staff[b].email
      {
        if a == i {
          assert u.store.staff[a].uid == s.staff[a].uid;
        }
      }
    }
  }

  lemma DeleteKeepsUnique(s: Store, h: Headers, env: Env, uid: Id)
    requires StaffUnique(s.staff)
    ensures StaffUnique(DeleteStaff(s, h, env, uid).store.staff)
  {
    var d := DeleteStaff(s, h, env, uid);
    if d.response.Sent? {
      var i := StaffWithUid(s.staff, uid).value;
      forall a, b | 0 <= a < b < |d.store.staff|
        ensures d.store.staff[a].uid != d.store.staff[b].uid
        ensures d.store.staff[a].staffId != d.store.staff[b].staffId
        ensures d.store.staff[a].email != d.store.staff[b].email
      {
        var a' := if a < i then a else a + 1;
        var b' := if b < i then b else b + 1;
        assert d.store.staff[a] == s.staff[a'] && d.store.staff[b] == s.staff[b'];
      }
    }
  }
}
