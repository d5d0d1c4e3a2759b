/** The guard chain in front of each handler of decms_node/routes/reports.js. */
module ReportRoutes {
  import opened Wrappers
  import opened AuthMiddleware

  datatype Route =
    | Create        // POST /            (multipart upload "report_file")
    | PublicList    // GET /public
    | PublicCreate  // POST /public      (multipart upload "report_file")
    | ListForEvidence  // GET /:evidenceId

  function Chain(r: Route): seq<Stage> {
    match r
    case Create => [Authn, Authz(RoleList([LabStaff, Admin])), Upload("report_file")]
    case PublicList => []
    case PublicCreate => [Upload("report_file")]
    case ListForEvidence => [Authn]
  }

  /**
   * Authenticated report creation is for Lab Staff and Admins (so not for
   * Investigators); the per-item listing needs any signed-in user; the public
   * listing and public creation are open.
   */
  function Permitted(r: Route, role: Option<string>): bool {
    match r
    case Create => role == Some(LabStaff) || role == Some(Admin)
    case PublicList | PublicCreate => true
    case ListForEvidence => role.Some?
  }

  /** The middleware chains enforce exactly the policy above. */
  lemma {:induction false} ChainEnforcesPolicy(r: Route, header: Option<string>, verify: string -> Option<Principal>)
    ensures Admit(Chain(r), header, verify).verdict.Pass? <==> Permitted(r, CallerRole(header, verify))
  {
    match r
    case Create =>
      GuardedChain(RoleList([LabStaff, Admin]), [Upload("report_file")], header, verify);
      assert Chain(r) == [Authn, Authz(RoleList([LabStaff, Admin]))] + [Upload("report_file")];
    case PublicList =>
      OpenChain([], header, verify);
    case PublicCreate =>
      OpenChain([Upload("report_file")], header, verify);
    case ListForEvidence =>
      AuthenticatedChain([], header, verify);
      assert Chain(r) == [Authn] + [];
  }

  /**
   * Authentication and role check run before the upload: a refused report
   * request has written no file, and the refusal is 401 without a valid
   * token and 403 for an authenticated Investigator.
   */
  lemma {:induction false} UploadOnlyAfterChecks(header: Option<string>, verify: string -> Option<Principal>)
    ensures var a := Admit(Chain(Create), header, verify);
      && a.uploads == (if a.verdict.Pass? then ["report_file"] else [])
      && (a.verdict.Deny? ==> a.verdict.status == (if CallerRole(header, verify).None? then 401 else 403))
      && (CallerRole(header, verify) == Some(Investigator) ==> a.verdict == Deny(403, "Forbidden"))
  {
    GuardedChain(RoleList([LabStaff, Admin]), [Upload("report_file")], header, verify);
  }
}
