/**
 * Authentication and the role gates. Signing, signature checking and the
 * expiry check of the token library are not modelled: a token reaches the
 * model already decoded, as the claims it carries, or as `None` when the
 * library rejects it. Times are seconds on the caller's clock.
 */
module Auth {

  import opened Wrappers
  import opened Documents
  import opened Models
  import opened Errors
  import opened Database

  /** Lifetime of an access token when the caller gives none. */
  const AccessTokenExpireMinutes := 1440

  /**
   * The claims to sign: a copy of the caller's claims with "exp" set to now
   * plus the given lifetime, or plus the default one when the lifetime is
   * missing or zero (a zero duration is false in Python).
   */
  function CreateAccessToken(data: Fields, now: int, expiresDelta: Option<int>): (claims: Fields)
    ensures "exp" in claims
    ensures expiresDelta.Some? && expiresDelta.value != 0 ==> claims["exp"] == Time(now + expiresDelta.value)
    ensures expiresDelta.None? || expiresDelta.value == 0 ==> claims["exp"] == Time(now + AccessTokenExpireMinutes * 60)
    ensures claims.Keys == data.Keys + {"exp"}
    ensures forall k :: k in data && k != "exp" ==> claims[k] == data[k]
  {
    var lifetime := if expiresDelta.Some? && expiresDelta.value != 0 then expiresDelta.value
                    else AccessTokenExpireMinutes * 60;
    data["exp" := Time(now + lifetime)]
  }

  /** `payload.get("sub") is None`: the claim is missing or null. */
  predicate NoSubject(claims: Fields) {
    "sub" !in claims || claims["sub"] == Null
  }

  /** The claims of a decoded token that names a subject; nothing for a rejected token or one without a subject. */
  function VerifyToken(decoded: Option<Fields>): (r: Option<Fields>)
    ensures r.Some? <==> decoded.Some? && !NoSubject(decoded.value)
    ensures r.Some? ==> r == decoded
  {
    match decoded
    case None => None
    case Some(claims) => if NoSubject(claims) then None else Some(claims)
  }

  /**
   * The user a request's token names. A rejected token, or one without a
   * subject, is an invalid token; a subject no stored username equals (a
   * claim that is not text never does) is an unknown user.
   */
  function CurrentUser(decoded: Option<Fields>, users: seq<UserDoc>, now: int): (r: Result<User, ApiError>)
    ensures VerifyToken(decoded).None? ==> r == Err(AuthenticationError(InvalidToken))
    ensures r.Err? && VerifyToken(decoded).Some? ==> r == Err(AuthenticationError(UserNotFound))
    ensures r.Ok? <==> (VerifyToken(decoded).Some? && decoded.value["sub"].Text?
                        && FirstUser(users, ByUsername, decoded.value["sub"].s).Some?)
    ensures r.Ok? ==> r.value == NormalizeUser(users[FirstUser(users, ByUsername, decoded.value["sub"].s).value], now)
  {
    var payload := VerifyToken(decoded);
    if payload.None? then Err(AuthenticationError(InvalidToken))
    else
      var subject := payload.value["sub"];
      if !subject.Text? then Err(AuthenticationError(UserNotFound))
      else
        var found := FirstUser(users, ByUsername, subject.s);
        if found.None? then Err(AuthenticationError(UserNotFound))
        else Ok(NormalizeUser(users[found.value], now))
  }

  /** The teacher gate: teachers and admins pass unchanged, anyone else is refused naming their role. */
  function RequireTeacher(user: User): (r: Result<User, ApiError>)
    ensures r.Ok? <==> user.role == RoleName(Teacher) || user.role == RoleName(Admin)
    ensures r.Ok? ==> r.value == user
    ensures r.Err? ==> r.error == AuthorizationError("Teacher or Admin", Some(user.role))
  {
    if user.role != RoleName(Teacher) && user.role != RoleName(Admin) then
      Err(AuthorizationError("Teacher or Admin", Some(user.role)))
    else Ok(user)
  }

  /** The admin gate: only admins pass, unchanged. */
  function RequireAdmin(user: User): (r: Result<User, ApiError>)
    ensures r.Ok? <==> user.role == RoleName(Admin)
    ensures r.Ok? ==> r.value == user
    ensures r.Err? ==> r.error == AuthorizationError("Admin", Some(user.role))
  {
    if user.role != RoleName(Admin) then Err(AuthorizationError("Admin", Some(user.role)))
    else Ok(user)
  }

  /** Whoever passes the admin gate passes the teacher gate; a teacher passes only the latter. */
  lemma AdminGateIsStricter(user: User)
    ensures RequireAdmin(user).Ok? ==> RequireTeacher(user) == RequireAdmin(user)
    ensures user.role == RoleName(Teacher) ==> RequireTeacher(user).Ok? && RequireAdmin(user).Err?
  {
  }

  /** Both gates refuse with 403, naming the role the user has when it is non-empty. */
  lemma GateRefusalsAre403(user: User)
    ensures RequireTeacher(user).Err? ==> RequireTeacher(user).error.statusCode == 403
    ensures RequireAdmin(user).Err? ==> RequireAdmin(user).error.statusCode == 403
    ensures RequireAdmin(user).Err? && user.role != "" ==>
      RequireAdmin(user).error.detail == "Access denied. Required role: Admin, Current role: " + user.role
  {
  }

  /** A token issued for claims with a subject verifies, and still carries that subject. */
  lemma IssuedTokenVerifies(data: Fields, now: int, expiresDelta: Option<int>)
    requires !NoSubject(data)
    ensures VerifyToken(Some(CreateAccessToken(data, now, expiresDelta))) == Some(CreateAccessToken(data, now, expiresDelta))
    ensures CreateAccessToken(data, now, expiresDelta)["sub"] == data["sub"]
  {
  }

  /** A token issued for claims without a subject never verifies. */
  lemma SubjectlessTokenRejected(data: Fields, now: int, expiresDelta: Option<int>)
    requires NoSubject(data)
    ensures VerifyToken(Some(CreateAccessToken(data, now, expiresDelta))).None?
  {
  }

  /** A token issued for a stored username authenticates the first user stored under it. */
  lemma IssuedTokenAuthenticates(users: seq<UserDoc>, username: string, issued: int, expiresDelta: Option<int>, now: int)
    requires FirstUser(users, ByUsername, username).Some?
    ensures CurrentUser(Some(CreateAccessToken(map["sub" := Text(username)], issued, expiresDelta)), users, now)
            == Ok(NormalizeUser(users[FirstUser(users, ByUsername, username).value], now))
    ensures CurrentUser(Some(CreateAccessToken(map["sub" := Text(username)], issued, expiresDelta)), users, now).value.username
            == username
  {
    var claims := CreateAccessToken(map["sub" := Text(username)], issued, expiresDelta);
    assert claims["sub"] == Text(username);
  }
}
