/** The guard chain in front of each handler of decms_node/routes/transfers.js. */
module TransferRoutes {
  import opened Wrappers
  import opened AuthMiddleware

  datatype Route =
    | CreateImmediate   // POST /
    | CreatePublic      // POST /public
    | ListAll           // GET /
    | ListForEvidence   // GET /:evidenceId
    | Approve           // POST /:id/approve
    | Reject            // POST /:id/reject

  function Chain(r: Route): seq<Stage> {
    match r
    case CreateImmediate => [Authn, Authz(RoleList([Admin]))]
    case CreatePublic => []
    case ListAll => []
    case ListForEvidence => [Authn]
    case Approve => [Authn, Authz(RoleList([Admin]))]
    case Reject => [Authn, Authz(RoleList([Admin]))]
  }

  /**
   * Who may use each route (`None` is an unauthenticated caller): immediate
   * transfers and decisions are for Admins only, the public request and the
   * full listing are open, the per-item listing needs any signed-in user.
   */
  function Permitted(r: Route, role: Option<string>): bool {
    match r
    case CreateImmediate | Approve | Reject => role == Some(Admin)
    case CreatePublic | ListAll => true
    case ListForEvidence => role.Some?
  }

  /** The middleware chains enforce exactly the policy above. */
  lemma {:induction false} ChainEnforcesPolicy(r: Route, header: Option<string>, verify: string -> Option<Principal>)
    ensures Admit(Chain(r), header, verify).verdict.Pass? <==> Permitted(r, CallerRole(header, verify))
  {
    match r
    case CreateImmediate | Approve | Reject =>
      GuardedChain(RoleList([Admin]), [], header, verify);
      assert Chain(r) == [Authn, Authz(RoleList([Admin]))] + [];
    case CreatePublic | ListAll =>
      OpenChain([], header, verify);
    case ListForEvidence =>
      AuthenticatedChain([], header, verify);
      assert Chain(r) == [Authn] + [];
  }
}
