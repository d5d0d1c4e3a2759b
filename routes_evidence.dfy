/** The guard chain in front of each handler of decms_node/routes/evidence.js. */
module EvidenceRoutes {
  import opened Wrappers
  import opened AuthMiddleware

  datatype Route =
    | Create        // POST /            (multipart upload "file")
    | PublicList    // GET /public
    | PublicCreate  // POST /public      (multipart upload "file")
    | Get           // GET /:id
    | ListByCase    // GET /case/:caseId
    | Update        // PUT /:id
    | Delete        // DELETE /:id

  function Chain(r: Route): seq<Stage> {
    match r
    case Create => [Authn, Authz(RoleList([Investigator, Admin])), Upload("file")]
    case PublicList => []
    case PublicCreate => [Upload("file")]
    case Get => [Authn]
    case ListByCase => [Authn]
    case Update => [Authn, Authz(RoleList([Investigator, Admin, LabStaff]))]
    case Delete => [Authn, Authz(RoleList([Admin]))]
  }

  /**
   * Intake is for Investigators and Admins, status updates also for Lab
   * Staff, deletion for Admins only; reads need any signed-in user; the
   * public listing and public intake are open.
   */
  function Permitted(r: Route, role: Option<string>): bool {
    match r
    case Create => role == Some(Investigator) || role == Some(Admin)
    case PublicList | PublicCreate => true
    case Get | ListByCase => role.Some?
    case Update => role == Some(Investigator) || role == Some(Admin) || role == Some(LabStaff)
    case Delete => role == Some(Admin)
  }

  /** The middleware chains enforce exactly the policy above. */
  lemma {:induction false} ChainEnforcesPolicy(r: Route, header: Option<string>, verify: string -> Option<Principal>)
    ensures Admit(Chain(r), header, verify).verdict.Pass? <==> Permitted(r, CallerRole(header, verify))
  {
    match r
    case Create =>
      GuardedChain(RoleList([Investigator, Admin]), [Upload("file")], header, verify);
      assert Chain(r) == [Authn, Authz(RoleList([Investigator, Admin]))] + [Upload("file")];
    case PublicList =>
      OpenChain([], header, verify);
    case PublicCreate =>
      OpenChain([Upload("file")], header, verify);
    case Get | ListByCase =>
      AuthenticatedChain([], header, verify);
      assert Chain(r) == [Authn] + [];
    case Update =>
      GuardedChain(RoleList([Investigator, Admin, LabStaff]), [], header, verify);
      assert Chain(r) == [Authn, Authz(RoleList([Investigator, Admin, LabStaff]))] + [];
    case Delete =>
      GuardedChain(RoleList([Admin]), [], header, verify);
      assert Chain(r) == [Authn, Authz(RoleList([Admin]))] + [];
  }

  /**
   * Authenticated intake stores the uploaded file only after the caller
   * passed both checks; public intake stores it for anyone.
   */
  lemma {:induction false} UploadOnlyAfterChecks(header: Option<string>, verify: string -> Option<Principal>)
    ensures var a := Admit(Chain(Create), header, verify);
      a.uploads == (if a.verdict.Pass? then ["file"] else [])
    ensures Admit(Chain(PublicCreate), header, verify) == Admission(Pass, None, ["file"])
  {
    GuardedChain(RoleList([Investigator, Admin]), [Upload("file")], header, verify);
    OpenChain([Upload("file")], header, verify);
  }
}
