/** The guard chain in front of each handler of decms_node/routes/cases.js. */
module CaseRoutes {
  import opened Wrappers
  import opened AuthMiddleware

  datatype Route =
    | PublicList    // GET /public
    | PublicCreate  // POST /public
    | List          // GET /
    | Create        // POST /
    | Get           // GET /:id
    | Update        // PUT /:id

  function Chain(r: Route): seq<Stage> {
    match r
    case PublicList => []
    case PublicCreate => []
    case List => [Authn, Authz(RoleList([Admin]))]
    case Create => [Authn, Authz(RoleList([Admin, Investigator]))]
    case Get => [Authn, Authz(RoleList([Admin, Investigator, LabStaff]))]
    case Update => [Authn, Authz(RoleList([Admin, Investigator]))]
  }

  /**
   * Listing all cases is for Admins; creating and updating for Admins and
   * Investigators; viewing one case also for Lab Staff; the public listing
   * and public creation are open.
   */
  function Permitted(r: Route, role: Option<string>): bool {
    match r
    case PublicList | PublicCreate => true
    case List => role == Some(Admin)
    case Create | Update => role == Some(Admin) || role == Some(Investigator)
    case Get => role == Some(Admin) || role == Some(Investigator) || role == Some(LabStaff)
  }

  /** The middleware chains enforce exactly the policy above. */
  lemma {:induction false} ChainEnforcesPolicy(r: Route, header: Option<string>, verify: string -> Option<Principal>)
    ensures Admit(Chain(r), header, verify).verdict.Pass? <==> Permitted(r, CallerRole(header, verify))
  {
    match r
    case PublicList | PublicCreate =>
      OpenChain([], header, verify);
    case List =>
      GuardedChain(RoleList([Admin]), [], header, verify);
      assert Chain(r) == [Authn, Authz(RoleList([Admin]))] + [];
    case Create | Update =>
      GuardedChain(RoleList([Admin, Investigator]), [], header, verify);
      assert Chain(r) == [Authn, Authz(RoleList([Admin, Investigator]))] + [];
    case Get =>
      GuardedChain(RoleList([Admin, Investigator, LabStaff]), [], header, verify);
      assert Chain(r) == [Authn, Authz(RoleList([Admin, Investigator, LabStaff]))] + [];
  }
}
