/** The student-facing routes (src/routes/complaint.routes.js): submit a
    complaint with its photo, and list one's own complaints. */
module ComplaintRoutes {
  import opened Wrappers
  import opened Http
  import opened ComplaintModel
  import opened Db
  import Guards
  import Listing

  /** The upload limit, in bytes (10 MiB). */
  const UploadLimit: nat := 10 * 1024 * 1024

  /** The single uploaded file, as the upload parser hands it over. */
  datatype Upload = Upload(data: seq<byte>, mimeType: string)

  /** POST /api/complaints. The token guard runs first, then the upload parser
      (an oversized file ends the request with 500 before any validator), then
      the field validators, then the file check, then the schema on save. */
  function Submit(s: Store, h: Headers, env: Env, category: string, description: string, file: Option<Upload>): (r: Step<Complaint>)
    ensures Guards.Authenticate(h, env).Err? ==> r == Step(Rejected(Guards.Authenticate(h, env).error), s)
    ensures r.response.Rejected? ==> r.store == s
    ensures Guards.Authenticate(h, env).Ok? && file.Some? && |file.value.data| > UploadLimit ==>
      r.response == Rejected(UploadTooLarge)
    ensures Guards.Authenticate(h, env).Ok? && (file.None? || |file.value.data| <= UploadLimit) ==>
      && ((category == "" || description == "") ==> r.response == Rejected(Invalid))
      && (category != "" && description != "" && file.None? ==> r.response == Rejected(ImageRequired))
    ensures r.response.Sent? ==>
      var user := Guards.Authenticate(h, env).value;
      var c := r.response.body;
      && user.Some? && file.Some?
      && r.response.code == 200
      && env.freshId !in s.complaints
      && r.store == s.(complaints := s.complaints[env.freshId := c])
      && c.studentId == user.value.id
      && c.image == Image(file.value.data, file.value.mimeType)
      && CategoryName(c.category) == category
      && c.description == Trim(description)
      && c.status == Submitted && c.assignedStaffId == None && c.remarks == ""
      && c.createdAt == env.now && c.updatedAt == env.now
    ensures r.response.Sent? ==> WellFormed(r.response.body)
  {
    match Guards.Authenticate(h, env)
    case Err(f) => Step(Rejected(f), s)
    case Ok(user) =>
      if file.Some? && |file.value.data| > UploadLimit then Step(Rejected(UploadTooLarge), s)
      else if category == "" || description == "" then Step(Rejected(Invalid), s)
      else if file.None? then Step(Rejected(ImageRequired), s)
      else if user.None? then Step(Rejected(ServerError), s)
      else
        match Create(user.value.id, category, description, Image(file.value.data, file.value.mimeType), env.now)
        case None => Step(Rejected(ServerError), s)
        case Some(c) =>
          if env.freshId in s.complaints then Step(Rejected(ServerError), s)
          else Step(Sent(200, c), s.(complaints := s.complaints[env.freshId := c]))
  }

  /** A submission is stored exactly when the caller has an id, the upload
      has data and a type, the category is in the enum and the description
      is not blank; once the early checks pass, every refusal is the 500 of
      a failed save. */
  lemma SubmitAcceptsExactly(s: Store, h: Headers, env: Env, category: string, description: string, file: Option<Upload>)
    ensures var r := Submit(s, h, env, category, description, file);
      (Guards.Authenticate(h, env).Ok? && file.Some? && |file.value.data| <= UploadLimit &&
       category != "" && description != "" && r.response.Rejected?) ==> r.response.failure == ServerError
    ensures Submit(s, h, env, category, description, file).response.Sent? <==>
      && Guards.Authenticate(h, env).Ok? && Guards.Authenticate(h, env).value.Some?
      && Guards.Authenticate(h, env).value.value.id != ""
      && file.Some? && 0 < |file.value.data| <= UploadLimit && file.value.mimeType != ""
      && ParseCategory(category).Some? && !Blank(description)
      && env.freshId !in s.complaints
  {
  }

  /** A description of white space alone passes the route's validator but is
      trimmed to nothing and refused by the schema on save: 500, nothing stored. */
  lemma BlankDescriptionFailsOnSave(s: Store, h: Headers, env: Env, category: string, description: string, file: Upload)
    requires Guards.Authenticate(h, env).Ok? && |file.data| <= UploadLimit
    requires category != "" && description != "" && Blank(description)
    ensures Submit(s, h, env, category, description, Some(file)) == Step(Rejected(ServerError), s)
  {
    TrimEmptyIffBlank(description);
  }

  /** A category outside the schema's enum passes the route's validator but
      is refused by the schema on save: 500, nothing stored. */
  lemma UnknownCategoryFailsOnSave(s: Store, h: Headers, env: Env, category: string, description: string, file: Upload)
    requires Guards.Authenticate(h, env).Ok? && |file.data| <= UploadLimit
    requires category != "" && description != "" && ParseCategory(category).None?
    ensures Submit(s, h, env, category, description, Some(file)) == Step(Rejected(ServerError), s)
  {
  }

  /** Submitting checks only that the caller holds a valid token: any role may
      submit, and the complaint is owned by whatever id the token names. */
  lemma SubmitIgnoresRole(s: Store, h: Headers, env: Env, category: string, description: string, file: Upload, role: string)
    requires Guards.Authenticate(h, env).Ok? && Guards.Authenticate(h, env).value.Some?
    ensures var u := Guards.Authenticate(h, env).value.value;
      var env' := env.(verify := (t: string) => if t == h[AuthHeader] then Some(Claims(Some(u.(role := role)), 0, None)) else None);
      Submit(s, h, env', category, description, Some(file)) == Submit(s, h, env, category, description, Some(file))
  {
  }

  /** GET /api/complaints/my-complaints: the caller's own complaints, newest
      first. Only the token is checked; a token without a user fails with 500. */
  method MyComplaints(s: Store, h: Headers, env: Env) returns (r: Response<seq<ComplaintModel.Id>>)
    ensures Guards.Authenticate(h, env).Err? ==> r == Rejected(Guards.Authenticate(h, env).error)
    ensures Guards.Authenticate(h, env) == Ok(None) ==> r == Rejected(ServerError)
    ensures Guards.Authenticate(h, env).Ok? && Guards.Authenticate(h, env).value.Some? ==>
      && r.Sent? && r.code == 200
      && Listing.IsListing(r.body, s.complaints, OwnedBy(Guards.Authenticate(h, env).value.value.id), ByCreation())
  {
    match Guards.Authenticate(h, env)
    case Err(f) => r := Rejected(f);
    case Ok(user) =>
      if user.None? {
        r := Rejected(ServerError);
      } else {
        var ids := Listing.SortedSelection(s.complaints, OwnedBy(user.value.id), ByCreation());
        r := Sent(200, ids);
      }
  }
}
