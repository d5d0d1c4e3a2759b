/**
 * The analysis-report handlers of the Node API: filing a report
 * (authenticated and public) and listing an item's reports.
 */
module Reports {
  import opened Wrappers
  import opened Identity
  import opened Store
  import opened Listing
  import opened Transfers

  /** `POST /reports`: a report filed by the caller. */
  method CreateReport(db: Database, caller: nat, evidence_id: Option<nat>, findings: Option<string>,
                      report_file: Option<string>, now: nat, insertFails: bool)
    returns (r: Reply)
    requires db.Valid()
    modifies db
    ensures db.Valid()
    ensures !Present(evidence_id) || !Given(findings) ==> r == Reply(400, Msg("Missing fields")) && db.t == old(db.t)
    ensures Present(evidence_id) && Given(findings) && insertFails ==> r == Reply(500, ServerError) && db.t == old(db.t)
    ensures Present(evidence_id) && Given(findings) && !insertFails ==>
              && r == Reply(201, Inserted(old(db.nextReport)))
              && db.t == old(db.t).(reports := old(db.t.reports)[old(db.nextReport) :=
                   ReportRow(evidence_id.value, Some(caller), findings.value, report_file, now)])
  {
    if !Present(evidence_id) || !Given(findings) {
      return Reply(400, Msg("Missing fields"));
    }
    if insertFails {
      return Reply(500, ServerError);
    }
    var id := db.InsertReport(ReportRow(evidence_id.value, Some(caller), findings.value, report_file, now));
    r := Reply(201, Inserted(id));
  }

  /** Newest first: the sort key is the creation time, negated. */
  function NewestFirst(m: map<nat, ReportRow>): nat -> int {
    k => if k in m then -(m[k].created_at as int) else 0
  }

  /** `GET /reports/:evidenceId`: every report on the item, each once, newest first. */
  method ReportsForEvidence(db: Database, e: nat) returns (r: Reply)
    requires db.Valid()
    ensures r.status == 200 && r.body.Listing?
    ensures forall id :: id in r.body.ids <==> id in db.t.reports && db.t.reports[id].evidence_id == e
    ensures Distinct(r.body.ids)
    ensures forall i, j :: 0 <= i < j < |r.body.ids| ==>
              db.t.reports[r.body.ids[i]].created_at >= db.t.reports[r.body.ids[j]].created_at
  {
    var ids := SelectOrdered(db.t.reports, db.nextReport, (row: ReportRow) => row.evidence_id == e,
                             NewestFirst(db.t.reports));
    r := Reply(200, Listing(ids));
  }

  // ---------------------------------------------------------------------------
  // The analyst of a public report
  // ---------------------------------------------------------------------------

  function AsId(u: Option<UserId>): Option<nat> {
    if u.Some? then Some(u.value as nat) else None
  }

  function FirstSome(a: Option<nat>, b: Option<nat>): Option<nat> {
    if a.Some? then a else b
  }

  /** `ev[0].current_custodian_id || ev[0].collected_by || null` for the item, when it exists. */
  function EvidenceFallback(items: map<nat, EvidenceRow>, e: nat): (r: Option<nat>)
    ensures r.None? <==> e !in items || (!Present(items[e].current_custodian_id) && !Present(items[e].collected_by))
    ensures e in items && Present(items[e].current_custodian_id) ==> r == items[e].current_custodian_id
    ensures r.Some? ==> r.value != 0 && (r == items[e].current_custodian_id || r == items[e].collected_by)
  {
    if e !in items then None
    else if Present(items[e].current_custodian_id) then items[e].current_custodian_id
    else if Present(items[e].collected_by) then items[e].collected_by
    else None
  }

  /** The last resort: by role preference when `users` has a role column, else the lowest id. */
  function DefaultAnalyst(users: seq<User>, schema: UsersSchema): Option<nat> {
    if schema.hasRole then AsId(FirstMatch(users, RolePreference)) else AsId(LowestId(users))
  }

  /** The analyst of a public report, stage by stage: the request's fields, the item, the default. */
  function AnalystChain(users: seq<User>, schema: UsersSchema, email: Option<string>, name: Option<string>,
                        items: map<nat, EvidenceRow>, e: nat): (r: Option<nat>)
    ensures EvidenceFallback(items, e).Some? ==> r.Some?
    ensures r.Some? && FirstMatch(users, AnalystCriteria(schema, email, name)).None? && EvidenceFallback(items, e).None?
            ==> r == DefaultAnalyst(users, schema)
  {
    FirstSome(AsId(FirstMatch(users, AnalystCriteria(schema, email, name))),
              FirstSome(EvidenceFallback(items, e), DefaultAnalyst(users, schema)))
  }

  lemma {:induction false} AnalystCriteriaStages(users: seq<User>, schema: UsersSchema, email: Option<string>,
                                                 name: Option<string>)
    ensures var byEmail := if Given(email) then FirstWhere(users, ByEmail(email.value)) else None;
            var byName := if !Given(name) then None
                          else if schema.hasName then FirstWhere(users, ByName(name.value))
                          else if schema.hasFirstLast then
                            FirstWhere(users, ByFullName(SpaceSplit(name.value).0, SpaceSplit(name.value).1))
                          else None;
            FirstMatch(users, AnalystCriteria(schema, email, name)) == if byEmail.Some? then byEmail else byName
  {
    var n := name.GetOr("");
    var a := When(Given(email), [ByEmail(email.GetOr(""))]);
    var b := if schema.hasName then [ByName(n)]
             else When(schema.hasFirstLast, [ByFullName(SpaceSplit(n).0, SpaceSplit(n).1)]);
    FirstMatchAppend(users, a, When(Given(name), b));
    FirstMatchWhen(users, Given(email), ByEmail(email.GetOr("")));
    if Given(name) {
      if schema.hasName {
        FirstMatchOne(users, ByName(n));
      } else {
        FirstMatchWhen(users, schema.hasFirstLast, ByFullName(SpaceSplit(n).0, SpaceSplit(n).1));
      }
    }
  }

  /**
   * The analyst as `createReportPublic` reassigns `analyst_id`: email, then
   * the name (name column, or the first/last split on the first space),
   * then the item's custodian or collector, then the default.
   */
  method ResolveAnalyst(users: seq<User>, schema: UsersSchema, email: Option<string>, name: Option<string>,
                        items: map<nat, EvidenceRow>, e: nat)
    returns (analyst: Option<nat>)
    ensures analyst == AnalystChain(users, schema, email, name, items, e)
  {
    analyst := None;
    if Given(email) {
      analyst := AsId(FirstWhere(users, ByEmail(email.value)));
    }
    if analyst.None? && Given(name) {
      if schema.hasName {
        analyst := AsId(FirstWhere(users, ByName(name.value)));
      } else if schema.hasFirstLast {
        var (first, last) := SpaceSplit(name.value);
        analyst := AsId(FirstWhere(users, ByFullName(first, last)));
      }
    }
    AnalystCriteriaStages(users, schema, email, name);
    if analyst.None? && e in items {
      analyst := if Present(items[e].current_custodian_id) then items[e].current_custodian_id
                 else if Present(items[e].collected_by) then items[e].collected_by
                 else None;
    }
    if analyst.None? {
      if schema.hasRole {
        analyst := AsId(FirstMatch(users, RolePreference));
      } else {
        analyst := AsId(LowestId(users));
      }
    }
  }

  /** Without a role column and with at least one user, every public report gets an analyst. */
  lemma AnalystWithoutRoleColumn(users: seq<User>, schema: UsersSchema, email: Option<string>,
                                 name: Option<string>, items: map<nat, EvidenceRow>, e: nat)
    requires !schema.hasRole && users != []
    ensures AnalystChain(users, schema, email, name, items, e).Some?
  {
  }

  /** A user matches one of the preferred roles exactly when it holds one of the three. */
  lemma PreferredRole(u: User)
    ensures u.role in {Some("Lab Staff"), Some("Admin"), Some("Investigator")} <==>
            exists k :: 0 <= k < |RolePreference| && Matches(u, RolePreference[k])
  {
    assert Matches(u, RolePreference[0]) <==> u.role == Some("Lab Staff");
    assert Matches(u, RolePreference[1]) <==> u.role == Some("Admin");
    assert Matches(u, RolePreference[2]) <==> u.role == Some("Investigator");
  }

  /**
   * With a role column, a report stays without an analyst exactly when no
   * stage finds one: nothing matches the request, the item names nobody,
   * and no user holds one of the three roles.
   */
  lemma {:induction false} AnalystMissing(users: seq<User>, schema: UsersSchema, email: Option<string>,
                                          name: Option<string>, items: map<nat, EvidenceRow>, e: nat)
    requires schema.hasRole
    ensures AnalystChain(users, schema, email, name, items, e).None? <==>
              && (forall k, i :: 0 <= k < |AnalystCriteria(schema, email, name)| && 0 <= i < |users| ==>
                    !Matches(users[i], AnalystCriteria(schema, email, name)[k]))
              && EvidenceFallback(items, e).None?
              && forall i :: 0 <= i < |users| ==> users[i].role !in {Some("Lab Staff"), Some("Admin"), Some("Investigator")}
  {
    FirstMatchSpec(users, AnalystCriteria(schema, email, name));
    FirstMatchSpec(users, RolePreference);
    forall i | 0 <= i < |users|
      ensures users[i].role in {Some("Lab Staff"), Some("Admin"), Some("Investigator")} <==>
              exists k :: 0 <= k < |RolePreference| && Matches(users[i], RolePreference[k])
    {
      PreferredRole(users[i]);
    }
  }

  /** The item's custodian, when set, wins over its collector and over every default. */
  lemma CustodianBeforeDefault(users: seq<User>, schema: UsersSchema, email: Option<string>, name: Option<string>,
                               items: map<nat, EvidenceRow>, e: nat)
    requires FirstMatch(users, AnalystCriteria(schema, email, name)).None?
    requires e in items && Present(items[e].current_custodian_id)
    ensures AnalystChain(users, schema, email, name, items, e) == items[e].current_custodian_id
  {
  }

  /**
   * `POST /reports/public`: a report whose analyst is named by email or
   * name, or else found from the item and the users table.
   */
  method CreateReportPublic(db: Database, schema: UsersSchema, evidence_id: Option<nat>, findings: Option<string>,
                            analyst_email: Option<string>, analyst_name: Option<string>,
                            report_file: Option<string>, now: nat, insertFails: bool)
    returns (r: Reply)
    requires db.Valid()
    modifies db
    ensures db.Valid()
    ensures !Present(evidence_id) || !Given(findings) ==> r == Reply(400, Msg("Missing fields")) && db.t == old(db.t)
    ensures Present(evidence_id) && Given(findings) && insertFails ==> r == Reply(500, ServerError) && db.t == old(db.t)
    ensures Present(evidence_id) && Given(findings) && !insertFails ==>
              var analyst := AnalystChain(db.users, schema, analyst_email, analyst_name, old(db.t.evidence),
                                          evidence_id.value);
              && r == Reply(201, Inserted(old(db.nextReport)))
              && db.t == old(db.t).(reports := old(db.t.reports)[old(db.nextReport) :=
                   ReportRow(evidence_id.value, analyst, findings.value, report_file, now)])
  {
    if !Present(evidence_id) || !Given(findings) {
      return Reply(400, Msg("Missing fields"));
    }
    var analyst := ResolveAnalyst(db.users, schema, analyst_email, analyst_name, db.t.evidence, evidence_id.value);
    if insertFails {
      return Reply(500, ServerError);
    }
    var id := db.InsertReport(ReportRow(evidence_id.value, analyst, findings.value, report_file, now));
    r := Reply(201, Inserted(id));
  }
}
