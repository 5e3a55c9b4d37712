/** The complaint document: its closed value sets, its defaults, and what the
    schema checks before a document is stored (src/models/complaint.model.js). */
module ComplaintModel {
  import opened Wrappers

  newtype byte = x: int | 0 <= x < 256

  /** A document id, in its string form. */
  type Id = string

  datatype Category = Electrical | Plumbing | Cleanliness | Other

  /** The lifecycle, in timeline order. */
  datatype Status = Submitted | InProgress | Resolved

  datatype Image = Image(data: seq<byte>, contentType: string)

  /** A stored complaint; timestamps are clock readings in milliseconds. */
  datatype Complaint = Complaint(
    studentId: Id,
    category: Category,
    description: string,
    image: Image,
    status: Status,
    assignedStaffId: Option<Id>,
    remarks: string,
    createdAt: nat,
    updatedAt: nat)

  function CategoryName(c: Category): string
  {
    match c
    case Electrical => "Electrical"
    case Plumbing => "Plumbing"
    case Cleanliness => "Cleanliness"
    case Other => "Other"
  }

  /** The category enum check: only the four names are accepted, spelled exactly. */
  function ParseCategory(s: string): (r: Option<Category>)
    ensures r.Some? ==> CategoryName(r.value) == s
    ensures r.None? ==> forall c: Category :: CategoryName(c) != s
  {
    if s == "Electrical" then Some(Electrical)
    else if s == "Plumbing" then Some(Plumbing)
    else if s == "Cleanliness" then Some(Cleanliness)
    else if s == "Other" then Some(Other)
    else None
  }

  lemma CategoryRoundTrip(c: Category)
    ensures ParseCategory(CategoryName(c)) == Some(c)
  {
  }

  function StatusName(s: Status): string
  {
    match s
    case Submitted => "Submitted"
    case InProgress => "In Progress"
    case Resolved => "Resolved"
  }

  /** The status enum check. */
  function ParseStatus(s: string): (r: Option<Status>)
    ensures r.Some? ==> StatusName(r.value) == s
    ensures r.None? ==> forall st: Status :: StatusName(st) != s
  {
    if s == "Submitted" then Some(Submitted)
    else if s == "In Progress" then Some(InProgress)
    else if s == "Resolved" then Some(Resolved)
    else None
  }

  lemma StatusRoundTrip(s: Status)
    ensures ParseStatus(StatusName(s)) == Some(s)
  {
  }

  /** The characters `String.prototype.trim` strips: white space and line terminators. */
  predicate IsJsSpace(ch: char)
  {
    var n := ch as int;
    n == 0x09 || n == 0x0A || n == 0x0B || n == 0x0C || n == 0x0D || n == 0x20
    || n == 0xA0 || n == 0x1680 || (0x2000 <= n <= 0x200A) || n == 0x2028
    || n == 0x2029 || n == 0x202F || n == 0x205F || n == 0x3000 || n == 0xFEFF
  }

  predicate Blank(s: string)
  {
    forall k {:trigger IsJsSpace(s[k])} :: 0 <= k < |s| ==> IsJsSpace(s[k])
  }

  /** `s` with its leading white space removed: a suffix of `s` that does not start with white space. */
  function TrimStart(s: string): (r: string)
    ensures |r| <= |s| && r == s[|s| - |r|..]
    ensures Blank(s[..|s| - |r|])
    ensures |r| > 0 ==> !IsJsSpace(r[0])
  {
    if |s| > 0 && IsJsSpace(s[0]) then TrimStart(s[1..]) else s
  }

  /** `s` with its trailing white space removed: a prefix of `s` that does not end with white space. */
  function TrimEnd(s: string): (r: string)
    ensures |r| <= |s| && r == s[..|r|]
    ensures Blank(s[|r|..])
    ensures |r| > 0 ==> !IsJsSpace(r[|r| - 1])
  {
    if |s| > 0 && IsJsSpace(s[|s| - 1]) then TrimEnd(s[..|s| - 1]) else s
  }

  /** `r` is the part of `s` starting at `i` once white space at both ends is cut off. */
  predicate TrimmedAt(s: string, r: string, i: int)
  {
    && 0 <= i && i + |r| <= |s| && r == s[i..i + |r|]
    && Blank(s[..i]) && Blank(s[i + |r|..])
    && (|r| > 0 ==> !IsJsSpace(r[0]) && !IsJsSpace(r[|r| - 1]))
  }

  /** The schema's `trim: true` setter: the infix of `s` left once the white space at both ends is gone. */
  function Trim(s: string): (r: string)
    ensures TrimmedAt(s, r, |s| - |TrimStart(s)|)
  {
    TrimShape(s);
    TrimEnd(TrimStart(s))
  }

  lemma TrimShape(s: string)
    ensures TrimmedAt(s, TrimEnd(TrimStart(s)), |s| - |TrimStart(s)|)
  {
    var t := TrimStart(s);
    TrimmedFrom(s, |s| - |t|, t, TrimEnd(t));
  }

  /** Cutting a blank prefix and then a blank suffix leaves the trimmed infix. */
  lemma TrimmedFrom(s: string, i: nat, t: string, r: string)
    requires i <= |s| && t == s[i..] && Blank(s[..i]) && (|t| > 0 ==> !IsJsSpace(t[0]))
    requires |r| <= |t| && r == t[..|r|] && Blank(t[|r|..]) && (|r| > 0 ==> !IsJsSpace(r[|r| - 1]))
    ensures TrimmedAt(s, r, i)
  {
    var n := |r|;
    assert r == s[i..i + n];
    var u := s[i + n..];
    var v := t[n..];
    forall k | 0 <= k < |u|
      ensures IsJsSpace(u[k])
    {
      assert u[k] == v[k];
    }
    if n > 0 {
      assert r[0] == t[0];
    }
  }

  lemma {:induction false} TrimStartEmptyIffBlank(s: string)
    ensures TrimStart(s) == "" <==> Blank(s)
    decreases |s|
  {
    if |s| > 0 && IsJsSpace(s[0]) {
      TrimStartEmptyIffBlank(s[1..]);
      assert Blank(s) <==> Blank(s[1..]);
    }
  }

  lemma {:induction false} TrimEndEmptyIffBlank(s: string)
    ensures TrimEnd(s) == "" <==> Blank(s)
    decreases |s|
  {
    if |s| > 0 && IsJsSpace(s[|s| - 1]) {
      TrimEndEmptyIffBlank(s[..|s| - 1]);
      assert Blank(s) <==> Blank(s[..|s| - 1]);
    }
  }

  /** Trimming yields the empty string exactly when the input is all white space. */
  lemma TrimEmptyIffBlank(s: string)
    ensures Trim(s) == "" <==> Blank(s)
  {
    var t := TrimStart(s);
    TrimStartEmptyIffBlank(s);
    TrimEndEmptyIffBlank(t);
    assert Blank(t) <==> t == "";
  }

  /** Trimming twice is trimming once. */
  lemma TrimIdempotent(s: string)
    ensures Trim(Trim(s)) == Trim(s)
  {
    var r := Trim(s);
    if |r| > 0 {
      assert TrimStart(r) == r;
      assert TrimEnd(r) == r;
    }
  }

  /** What the schema demands of a stored document: required string and buffer
      fields present and non-empty, the description already trimmed, and the
      timestamps in order. */
  predicate WellFormed(c: Complaint)
  {
    && c.studentId != ""
    && c.description != ""
    && c.description == Trim(c.description)
    && |c.image.data| > 0
    && c.image.contentType != ""
    && c.createdAt <= c.updatedAt
  }

  /** A new document built from the submitted fields and saved: every field not
      given takes its default, and saving fails (None) when a schema check does. */
  function Create(studentId: Id, category: string, description: string, image: Image, now: nat): (r: Option<Complaint>)
    ensures r.Some? <==>
      studentId != "" && ParseCategory(category).Some? && !Blank(description)
      && |image.data| > 0 && image.contentType != ""
    ensures r.Some? ==> WellFormed(r.value)
    ensures r.Some? ==>
      && r.value.studentId == studentId
      && CategoryName(r.value.category) == category
      && r.value.description == Trim(description)
      && r.value.image == image
    ensures r.Some? ==>
      && r.value.status == Submitted
      && r.value.assignedStaffId == None
      && r.value.remarks == ""
      && r.value.createdAt == now && r.value.updatedAt == now
  {
    TrimEmptyIffBlank(description);
    TrimIdempotent(description);
    var d := Trim(description);
    if studentId == "" || d == "" || |image.data| == 0 || image.contentType == "" then None
    else
      match ParseCategory(category)
      case None => None
      case Some(c) => Some(Complaint(studentId, c, d, image, Submitted, None, "", now, now))
  }
}
