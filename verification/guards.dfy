/** The request guards: token check (src/middleware/auth.middleware.js), admin
    check (src/middleware/admin.middleware.js) and staff check (`isStaff` in
    src/routes/staff.routes.js). */
module Guards {
  import opened Wrappers
  import opened Http

  /** The token library's expiry rule: expired once the clock, in whole
      seconds, reaches `exp`; a token without `exp` never expires. */
  predicate Expired(c: Claims, now: nat)
    ensures Expired(c, now) <==> c.exp.Some? && now >= c.exp.value * 1000
  {
    c.exp.Some? && now / 1000 >= c.exp.value
  }

  /** The token guard: the token is read from the `x-auth-token` header alone;
      on success the payload's `user` (possibly absent) becomes `req.user`. */
  function Authenticate(h: Headers, env: Env): (r: Result<Option<User>, Failure>)
    ensures (AuthHeader !in h || h[AuthHeader] == "") ==> r == Err(NoToken)
    ensures r.Err? ==> r.error == NoToken || r.error == BadToken
    ensures AuthHeader in h && h[AuthHeader] != "" && r.Err? ==> r.error == BadToken
    ensures r.Ok? <==>
      AuthHeader in h && h[AuthHeader] != "" && env.verify(h[AuthHeader]).Some?
      && !Expired(env.verify(h[AuthHeader]).value, env.now)
    ensures r.Ok? ==> r.value == env.verify(h[AuthHeader]).value.user
  {
    if AuthHeader !in h || h[AuthHeader] == "" then Err(NoToken)
    else
      match env.verify(h[AuthHeader])
      case None => Err(BadToken)
      case Some(c) => if Expired(c, env.now) then Err(BadToken) else Ok(c.user)
  }

  /** Only the token header matters to the token guard. */
  lemma AuthenticateReadsOnlyTokenHeader(h1: Headers, h2: Headers, env: Env)
    requires (AuthHeader in h1 <==> AuthHeader in h2)
    requires AuthHeader in h1 ==> h1[AuthHeader] == h2[AuthHeader]
    ensures Authenticate(h1, env) == Authenticate(h2, env)
  {
  }

  /** The admin guard: passes the caller through unchanged exactly when it is an admin. */
  function RequireAdmin(user: Option<User>): (r: Result<User, Failure>)
    ensures r.Ok? <==> user.Some? && user.value.role == AdminRole
    ensures r.Ok? ==> r.value == user.value
    ensures r.Err? ==> r.error == AdminOnly
  {
    if user.Some? && user.value.role == AdminRole then Ok(user.value) else Err(AdminOnly)
  }

  /** The staff guard: passes the caller through unchanged exactly when it is staff. */
  function RequireStaff(user: Option<User>): (r: Result<User, Failure>)
    ensures r.Ok? <==> user.Some? && user.value.role == StaffRole
    ensures r.Ok? ==> r.value == user.value
    ensures r.Err? ==> r.error == StaffOnly
  {
    if user.Some? && user.value.role == StaffRole then Ok(user.value) else Err(StaffOnly)
  }

  /** `[auth, admin]`: the token guard, then the admin guard. */
  function AdminGate(h: Headers, env: Env): (r: Result<User, Failure>)
    ensures Authenticate(h, env).Err? ==> r == Err(Authenticate(h, env).error)
    ensures Authenticate(h, env).Ok? ==> r == RequireAdmin(Authenticate(h, env).value)
  {
    match Authenticate(h, env)
    case Err(f) => Err(f)
    case Ok(u) => RequireAdmin(u)
  }

  /** `[auth, isStaff]`: the token guard, then the staff guard. */
  function StaffGate(h: Headers, env: Env): (r: Result<User, Failure>)
    ensures Authenticate(h, env).Err? ==> r == Err(Authenticate(h, env).error)
    ensures Authenticate(h, env).Ok? ==> r == RequireStaff(Authenticate(h, env).value)
  {
    match Authenticate(h, env)
    case Err(f) => Err(f)
    case Ok(u) => RequireStaff(u)
  }

  /** A caller admitted by one role gate is refused by the other, with 403. */
  lemma GatesExclusive(h: Headers, env: Env)
    ensures AdminGate(h, env).Ok? ==> StaffGate(h, env) == Err(StaffOnly)
    ensures StaffGate(h, env).Ok? ==> AdminGate(h, env) == Err(AdminOnly)
  {
  }
}
