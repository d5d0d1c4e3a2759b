/**
 * The Express middleware `authenticate` and `authorize`
 * (decms_node/middleware/authMiddleware.js) and the middleware chains the
 * route files put in front of each handler.  Token verification is a
 * parameter: the model only sees whether a token verifies and to which
 * payload.
 */
module AuthMiddleware {
  import opened Wrappers

  /** The verified token payload that `authenticate` attaches as `req.user`. */
  datatype Principal = Principal(user_id: nat, role: string)

  const Admin: string := "Admin"
  const Investigator: string := "Investigator"
  const LabStaff: string := "Lab Staff"

  /** The authentication scheme prefix, matched case-sensitively. */
  const BearerPrefix: string := "Bearer "

  datatype Authn = Authenticated(user: Principal) | Unauthenticated(msg: string)

  /**
   * `authenticate`: a missing header or one that does not start with
   * `Bearer ` is refused with 401 "Missing token"; otherwise the token is the
   * header without its first seven characters, and a token that does not
   * verify is refused with 401 "Invalid token".
   */
  function Authenticate(header: Option<string>, verify: string -> Option<Principal>): (r: Authn)
    ensures r.Authenticated? ==>
      && header.Some?
      && BearerPrefix <= header.value
      && header.value == BearerPrefix + header.value[|BearerPrefix|..]
      && verify(header.value[|BearerPrefix|..]) == Some(r.user)
  {
    if header.None? || !(BearerPrefix <= header.value) then Unauthenticated("Missing token")
    else
      match verify(header.value[|BearerPrefix|..])
      case None => Unauthenticated("Invalid token")
      case Some(p) => Authenticated(p)
  }

  /** A `Bearer` header admits exactly the payload its token verifies to. */
  lemma BearerToken(token: string, verify: string -> Option<Principal>)
    ensures Authenticate(Some(BearerPrefix + token), verify) ==
      match verify(token)
      case Some(p) => Authenticated(p)
      case None => Unauthenticated("Invalid token")
  {
    assert (BearerPrefix + token)[|BearerPrefix|..] == token;
  }

  /** Any other header is refused as missing, whatever the token would say. */
  lemma OtherSchemeRefused(header: string, verify: string -> Option<Principal>)
    requires |header| < |BearerPrefix| || header[..|BearerPrefix|] != BearerPrefix
    ensures Authenticate(Some(header), verify) == Unauthenticated("Missing token")
  {
  }

  /** The user `authenticate` would attach, if any. */
  function Caller(header: Option<string>, verify: string -> Option<Principal>): Option<Principal> {
    match Authenticate(header, verify)
    case Authenticated(p) => Some(p)
    case Unauthenticated(_) => None
  }

  /** `authorize(roles)` accepts one role name or a list of them. */
  datatype RoleSpec = OneRole(role: string) | RoleList(roles: seq<string>)

  function Roles(spec: RoleSpec): seq<string> {
    match spec
    case OneRole(r) => [r]
    case RoleList(rs) => rs
  }

  datatype Verdict = Pass | Deny(status: nat, msg: string)

  /**
   * `authorize(roles)`: 401 without an authenticated user; 403 when the list
   * is non-empty and lacks the user's role; an empty list admits any
   * authenticated user.
   */
  function Authorize(spec: RoleSpec, user: Option<Principal>): (v: Verdict)
    ensures v.Pass? <==> user.Some? && (Roles(spec) == [] || user.value.role in Roles(spec))
    ensures v.Deny? ==> v.status == (if user.None? then 401 else 403)
  {
    var roles := Roles(spec);
    if user.None? then Deny(401, "Not authenticated")
    else if |roles| > 0 && user.value.role !in roles then Deny(403, "Forbidden")
    else Pass
  }

  /** A single role string behaves as the one-element list. */
  lemma SingleRoleIsList(role: string, user: Option<Principal>)
    ensures Authorize(OneRole(role), user) == Authorize(RoleList([role]), user)
    ensures Authorize(OneRole(role), user).Pass? <==> user.Some? && user.value.role == role
  {
  }

  /** One middleware in front of a handler. */
  datatype Stage = Authn | Authz(spec: RoleSpec) | Upload(field: string)

  /**
   * Where a request ends up after a chain of middleware: passed to the
   * handler or refused, with the `req.user` set so far and the upload
   * fields whose files were already written.
   */
  datatype Admission = Admission(verdict: Verdict, user: Option<Principal>, uploads: seq<string>)

  function Run(chain: seq<Stage>, header: Option<string>, verify: string -> Option<Principal>,
               user: Option<Principal>, uploads: seq<string>): Admission
    decreases |chain|
  {
    if chain == [] then Admission(Pass, user, uploads)
    else match chain[0]
      case Authn =>
        (match Authenticate(header, verify)
         case Unauthenticated(m) => Admission(Deny(401, m), user, uploads)
         case Authenticated(p) => Run(chain[1..], header, verify, Some(p), uploads))
      case Authz(spec) =>
        (match Authorize(spec, user)
         case Deny(s, m) => Admission(Deny(s, m), user, uploads)
         case Pass => Run(chain[1..], header, verify, user, uploads))
      case Upload(f) => Run(chain[1..], header, verify, user, uploads + [f])
  }

  /** A fresh request (no `req.user`, nothing uploaded) sent through `chain`. */
  function Admit(chain: seq<Stage>, header: Option<string>, verify: string -> Option<Principal>): Admission {
    Run(chain, header, verify, None, [])
  }

  predicate UploadsOnly(tail: seq<Stage>) {
    forall k :: 0 <= k < |tail| ==> tail[k].Upload?
  }

  function Fields(tail: seq<Stage>): seq<string>
    requires UploadsOnly(tail)
  {
    if tail == [] then [] else [tail[0].field] + Fields(tail[1..])
  }

  lemma {:induction false} RunUploads(tail: seq<Stage>, header: Option<string>, verify: string -> Option<Principal>,
                                      user: Option<Principal>, uploads: seq<string>)
    requires UploadsOnly(tail)
    ensures Run(tail, header, verify, user, uploads) == Admission(Pass, user, uploads + Fields(tail))
  {
    if tail != [] {
      RunUploads(tail[1..], header, verify, user, uploads + [tail[0].field]);
      assert uploads + [tail[0].field] + Fields(tail[1..]) == uploads + Fields(tail);
    }
  }

  /** A public route: every request reaches the handler, without a user. */
  lemma OpenChain(tail: seq<Stage>, header: Option<string>, verify: string -> Option<Principal>)
    requires UploadsOnly(tail)
    ensures Admit(tail, header, verify) == Admission(Pass, None, Fields(tail))
  {
    RunUploads(tail, header, verify, None, []);
  }

  /** `authenticate` alone: any authenticated user passes, others get 401. */
  lemma AuthenticatedChain(tail: seq<Stage>, header: Option<string>, verify: string -> Option<Principal>)
    requires UploadsOnly(tail)
    ensures var a := Admit([Authn] + tail, header, verify);
      && (a.verdict.Pass? <==> Caller(header, verify).Some?)
      && (a.verdict.Pass? ==> a.user == Caller(header, verify) && a.uploads == Fields(tail))
      && (a.verdict.Deny? ==> a.verdict.status == 401 && a.uploads == [])
  {
    assert ([Authn] + tail)[1..] == tail;
    if Caller(header, verify).Some? {
      RunUploads(tail, header, verify, Caller(header, verify), []);
    }
  }

  /**
   * `authenticate, authorize(spec)` followed by uploads: the request passes
   * exactly when the caller is authenticated and its role is allowed; a
   * refused request is refused before any file is written.
   */
  lemma GuardedChain(spec: RoleSpec, tail: seq<Stage>, header: Option<string>, verify: string -> Option<Principal>)
    requires UploadsOnly(tail)
    ensures var a := Admit([Authn, Authz(spec)] + tail, header, verify);
      var c := Caller(header, verify);
      && (a.verdict.Pass? <==> c.Some? && (Roles(spec) == [] || c.value.role in Roles(spec)))
      && (a.verdict.Pass? ==> a.user == c && a.uploads == Fields(tail))
      && (a.verdict.Deny? ==> a.uploads == [] && a.verdict.status == (if c.None? then 401 else 403))
  {
    var chain := [Authn, Authz(spec)] + tail;
    assert chain[1..] == [Authz(spec)] + tail;
    assert chain[1..][1..] == tail;
    var c := Caller(header, verify);
    if c.Some? {
      assert Admit(chain, header, verify) == Run(chain[1..], header, verify, c, []);
      if Authorize(spec, c).Pass? {
        assert Run(chain[1..], header, verify, c, []) == Run(tail, header, verify, c, []);
        RunUploads(tail, header, verify, c, []);
      }
    }
  }

  /** The role a route's policy sees: the caller's, or none for a public caller. */
  function CallerRole(header: Option<string>, verify: string -> Option<Principal>): Option<string> {
    match Caller(header, verify)
    case Some(p) => Some(p.role)
    case None => None
  }
}
