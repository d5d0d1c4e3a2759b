/**
 * The case handlers of the Node API: creating a case (authenticated and
 * public), reading one with its evidence, and changing its status.
 */
module Cases {
  import opened Wrappers
  import opened Decimal
  import opened Text
  import opened Identity
  import opened Store
  import opened Listing

  /** `POST /cases`: a new open case. */
  method CreateCase(db: Database, case_title: Option<string>, description: Option<string>,
                    assigned_to: Option<nat>, now: nat, fault: Fault)
    returns (r: Reply)
    requires db.Valid()
    modifies db
    ensures db.Valid()
    ensures !Given(case_title) ==> r == Reply(400, Msg("case_title required")) && db.t == old(db.t)
    ensures Given(case_title) && Fails(fault, 1) ==> r == Reply(500, ServerError) && db.t == old(db.t)
    ensures Given(case_title) && !Fails(fault, 1) ==>
              && r == Reply(201, Inserted(old(db.nextCase)))
              && db.t == old(db.t).(cases := old(db.t.cases)[old(db.nextCase) :=
                   CaseRow(case_title.value, description, assigned_to, None, None, Some("Open"), now)])
  {
    if !Given(case_title) {
      return Reply(400, Msg("case_title required"));
    }
    if Fails(fault, 1) {
      return Reply(500, ServerError);
    }
    var id := db.InsertCase(CaseRow(case_title.value, description, assigned_to, None, None, Some("Open"), now));
    r := Reply(201, Inserted(id));
  }

  /** `GET /cases/:id`: the case and every evidence item filed under it. */
  method GetCase(db: Database, id: nat) returns (r: Reply)
    requires db.Valid()
    ensures id !in db.t.cases ==> r == Reply(404, Msg("Case not found"))
    ensures id in db.t.cases ==>
              && r.status == 200 && r.body.CaseView? && r.body.caseRow == db.t.cases[id]
              && Distinct(r.body.evidence)
              && forall e :: e in r.body.evidence <==> e in db.t.evidence && db.t.evidence[e].case_id == id
  {
    if id !in db.t.cases {
      return Reply(404, Msg("Case not found"));
    }
    var items := SelectIds(db.t.evidence, db.nextEvidence, (row: EvidenceRow) => row.case_id == id);
    r := Reply(200, CaseView(db.t.cases[id], items));
  }

  /** `PUT /cases/:id`: sets any status; an unknown id changes nothing but still answers `Updated`. */
  method UpdateCase(db: Database, id: nat, status: Option<string>, fault: Fault) returns (r: Reply)
    requires db.Valid()
    modifies db`t
    ensures db.Valid()
    ensures Fails(fault, 1) ==> r == Reply(500, ServerError) && db.t == old(db.t)
    ensures !Fails(fault, 1) ==>
              && r == Reply(200, Msg("Updated"))
              && db.t.cases.Keys == old(db.t.cases.Keys)
              && (id in old(db.t.cases) ==> db.t.cases[id] == old(db.t.cases[id]).(status := status))
              && db.t == old(db.t).(cases := db.t.cases)
              && forall k :: k in old(db.t.cases) && k != id ==> db.t.cases[k] == old(db.t.cases[k])
  {
    if Fails(fault, 1) {
      return Reply(500, ServerError);
    }
    if id in db.t.cases {
      db.t := db.t.(cases := db.t.cases[id := db.t.cases[id].(status := status)]);
    }
    r := Reply(200, Msg("Updated"));
  }

  // ---------------------------------------------------------------------------
  // Case numbers
  // ---------------------------------------------------------------------------

  /** `CS-` and the id, zero-padded to at least four digits. */
  function CaseNumber(id: nat): (n: string)
    ensures |n| >= 7 && n[..3] == "CS-"
  {
    "CS-" + PadStart(NatToString(id), 4, '0')
  }

  /** Reads a case number back into the id. */
  function ParseCaseNumber(s: string): Option<nat> {
    if |s| >= 3 && s[..3] == "CS-" then ParseNat(s[3..]) else None
  }

  lemma PaddingIsZeros(s: string)
    ensures PadStart(s, 4, '0') == Zeros(|PadStart(s, 4, '0')| - |s|) + s
  {
    var p := PadStart(s, 4, '0');
    var z := Zeros(|p| - |s|);
    assert p == p[..|p| - |s|] + p[|p| - |s|..];
    assert p[..|p| - |s|] == z;
  }

  /** The case number names its case: reading it gives the id back. */
  lemma {:induction false} CaseNumberRoundTrip(id: nat)
    ensures ParseCaseNumber(CaseNumber(id)) == Some(id)
  {
    var digits := NatToString(id);
    var p := PadStart(digits, 4, '0');
    PaddingIsZeros(digits);
    var k := |p| - |digits|;
    assert CaseNumber(id)[..3] == "CS-";
    assert CaseNumber(id)[3..] == p;
    assert AllDigits(p);
    LeadingZerosIgnored(k, digits);
    ParseRendered(id);
  }

  /** Distinct cases never share a number. */
  lemma CaseNumberInjective(a: nat, b: nat)
    requires CaseNumber(a) == CaseNumber(b)
    ensures a == b
  {
    CaseNumberRoundTrip(a);
    CaseNumberRoundTrip(b);
  }

  /** Ids below 10000 give seven characters; larger ids are written in full, never cut. */
  lemma CaseNumberLength(id: nat)
    ensures |CaseNumber(id)| == 3 + (if |NatToString(id)| >= 4 then |NatToString(id)| else 4)
    ensures CaseNumber(id)[|CaseNumber(id)| - |NatToString(id)|..] == NatToString(id)
  {
    var p := PadStart(NatToString(id), 4, '0');
    assert CaseNumber(id)[3..] == p;
    assert CaseNumber(id)[|CaseNumber(id)| - |NatToString(id)|..] == p[|p| - |NatToString(id)|..];
  }

  // ---------------------------------------------------------------------------
  // The public case insert
  // ---------------------------------------------------------------------------

  /** Which optional columns the `cases` table has. */
  datatype CasesSchema = CasesSchema(hasAssignedTo: bool, hasCreatedBy: bool, hasCaseNumber: bool)

  /** A column the public insert may name: `case_title`, `description`, …, `created_at`. */
  datatype Column = CaseTitle | Description | AssignedTo | CreatedBy | CaseNumberColumn | Status | CreatedAt

  /** The `VALUES` entry of each column: its named parameter, or the literal the insert writes. */
  function ValueFor(c: Column): string {
    match c
    case CaseTitle => ":case_title"
    case Description => ":description"
    case AssignedTo => ":assigned_to"
    case CreatedBy => ":created_by"
    case CaseNumberColumn => ":case_number"
    case Status => "'Open'"
    case CreatedAt => "NOW()"
  }

  /** Each value belongs to the column at the same position. */
  predicate Paired(columns: seq<Column>, values: seq<string>) {
    |columns| == |values| && forall i :: 0 <= i < |columns| ==> values[i] == ValueFor(columns[i])
  }

  /** Pushing a column with its own value keeps the two lists paired. */
  lemma PairedPush(columns: seq<Column>, values: seq<string>, c: Column, v: string)
    requires Paired(columns, values) && v == ValueFor(c)
    ensures Paired(columns + [c], values + [v])
  {
  }

  /** Where the handler pushes each column. */
  function Rank(c: Column): nat {
    match c
    case CaseTitle => 0
    case Description => 1
    case AssignedTo => 2
    case CreatedBy => 3
    case CaseNumberColumn => 4
    case Status => 5
    case CreatedAt => 6
  }

  /** In the order the handler pushes them, hence each at most once. */
  predicate InPushOrder(columns: seq<Column>) {
    forall i, j :: 0 <= i < j < |columns| ==> Rank(columns[i]) < Rank(columns[j])
  }

  /** The columns the insert names for a schema: the optional ones between the title pair and the status pair. */
  function CaseColumns(schema: CasesSchema): seq<Column> {
    [CaseTitle, Description]
    + (if schema.hasAssignedTo then [AssignedTo] else [])
    + (if schema.hasCreatedBy then [CreatedBy] else [])
    + (if schema.hasCaseNumber then [CaseNumberColumn] else [])
    + [Status, CreatedAt]
  }


  /** The optional columns, in push order. */
  function OptionalColumns(schema: CasesSchema): seq<Column> {
    (if schema.hasAssignedTo then [AssignedTo] else [])
    + (if schema.hasCreatedBy then [CreatedBy] else [])
    + (if schema.hasCaseNumber then [CaseNumberColumn] else [])
  }

  /** The insert starts with the title and description and ends with status and creation time. */
  lemma CaseColumnsEnds(schema: CasesSchema)
    ensures var columns := CaseColumns(schema);
            && |columns| >= 4 && columns[..2] == [CaseTitle, Description]
            && columns[|columns| - 2..] == [Status, CreatedAt]
  {
    assert CaseColumns(schema) == [CaseTitle, Description] + OptionalColumns(schema) + [Status, CreatedAt];
  }

  /** The insert names an optional column exactly when the table has it. */
  lemma CaseColumnsMembers(schema: CasesSchema)
    ensures var columns := CaseColumns(schema);
            && (AssignedTo in columns <==> schema.hasAssignedTo)
            && (CreatedBy in columns <==> schema.hasCreatedBy)
            && (CaseNumberColumn in columns <==> schema.hasCaseNumber)
  {
    var mid := OptionalColumns(schema);
    assert CaseColumns(schema) == [CaseTitle, Description] + mid + [Status, CreatedAt];
    assert AssignedTo in mid <==> schema.hasAssignedTo;
    assert CreatedBy in mid <==> schema.hasCreatedBy;
    assert CaseNumberColumn in mid <==> schema.hasCaseNumber;
  }

  /** Columns come in push order, so none is named twice. */
  lemma CaseColumnsOrdered(schema: CasesSchema)
    ensures InPushOrder(CaseColumns(schema))
  {
  }

  /** The columns and values of `INSERT INTO cases (…) VALUES (…)`, pushed as the handler pushes them. */
  method BuildInsert(schema: CasesSchema) returns (columns: seq<Column>, values: seq<string>)
    ensures Paired(columns, values) && columns == CaseColumns(schema)
  {
    columns := [CaseTitle, Description];
    values := [":case_title", ":description"];
    if schema.hasAssignedTo {
      PairedPush(columns, values, AssignedTo, ":assigned_to");
      columns := columns + [AssignedTo];
      values := values + [":assigned_to"];
    }
    if schema.hasCreatedBy {
      PairedPush(columns, values, CreatedBy, ":created_by");
      columns := columns + [CreatedBy];
      values := values + [":created_by"];
    }
    if schema.hasCaseNumber {
      PairedPush(columns, values, CaseNumberColumn, ":case_number");
      columns := columns + [CaseNumberColumn];
      values := values + [":case_number"];
    }
    PairedPush(columns, values, Status, "'Open'");
    PairedPush(columns + [Status], values + ["'Open'"], CreatedAt, "NOW()");
    columns := columns + [Status] + [CreatedAt];
    values := values + ["'Open'"] + ["NOW()"];
  }

  /** The row the built insert writes: the assignee fills both person columns, the number is a placeholder. */
  function InsertedCase(columns: seq<Column>, case_title: string, description: Option<string>,
                        assignee: Option<nat>, now: nat): CaseRow {
    CaseRow(case_title, description,
            if AssignedTo in columns then assignee else None,
            if CreatedBy in columns then assignee else None,
            if CaseNumberColumn in columns then Some("PENDING") else None,
            Some("Open"), now)
  }

  /** The same row, by which columns the table has. */
  function PublicCase(schema: CasesSchema, case_title: string, description: Option<string>,
                      assignee: Option<nat>, now: nat): CaseRow {
    CaseRow(case_title, description,
            if schema.hasAssignedTo then assignee else None,
            if schema.hasCreatedBy then assignee else None,
            if schema.hasCaseNumber then Some("PENDING") else None,
            Some("Open"), now)
  }

  /** The built insert writes what the table's columns allow, and the creator is the assignee. */
  lemma InsertedCaseBySchema(schema: CasesSchema, case_title: string, description: Option<string>,
                             assignee: Option<nat>, now: nat)
    ensures InsertedCase(CaseColumns(schema), case_title, description, assignee, now)
            == PublicCase(schema, case_title, description, assignee, now)
  {
    CaseColumnsMembers(schema);
  }

  /** `UPDATE cases SET case_number = ? WHERE case_id = ?` with the generated number. */
  function Numbered(cases: map<nat, CaseRow>, id: nat): map<nat, CaseRow>
    requires id in cases
  {
    cases[id := cases[id].(case_number := Some(CaseNumber(id)))]
  }

  /**
   * What the writes of `POST /cases/public` leave, once the row is built:
   * the insert, then, with a `case_number` column, the number made from the
   * new id. The two are separate statements, so a failure of the second
   * keeps the unnumbered case.
   */
  function PublicOutcome(t: Tables, id: nat, numbered: bool, row: CaseRow, fault: Fault): (Reply, Tables) {
    if Fails(fault, 1) then
      (Reply(500, ServerError), t)
    else if !numbered then
      (Reply(201, Inserted(id)), t.(cases := t.cases[id := row]))
    else if Fails(fault, 2) then
      (Reply(500, ServerError), t.(cases := t.cases[id := row]))
    else
      (Reply(201, CaseInserted(id, CaseNumber(id))), t.(cases := Numbered(t.cases[id := row], id)))
  }

  /** The writes of `POST /cases/public` once the row is built. */
  method SavePublicCase(db: Database, numbered: bool, row: CaseRow, fault: Fault) returns (r: Reply)
    requires db.Valid()
    modifies db
    ensures db.Valid()
    ensures (r, db.t) == PublicOutcome(old(db.t), old(db.nextCase), numbered, row, fault)
  {
    if Fails(fault, 1) {
      return Reply(500, ServerError);
    }
    var id := db.InsertCase(row);
    if !numbered {
      return Reply(201, Inserted(id));
    }
    if Fails(fault, 2) {
      return Reply(500, ServerError);
    }
    db.t := db.t.(cases := Numbered(db.t.cases, id));
    r := Reply(201, CaseInserted(id, CaseNumber(id)));
  }

  /**
   * `POST /cases/public`: a new open case whose assignee is named by email
   * or name; with a `case_number` column the case is then numbered from
   * its id.
   */
  method CreateCasePublic(db: Database, users: UsersSchema, cases: CasesSchema, case_title: Option<string>,
                          description: Option<string>, assigned_to_email: Option<string>,
                          assigned_to_name: Option<string>, now: nat, fault: Fault)
    returns (r: Reply)
    requires db.Valid()
    modifies db
    ensures db.Valid()
    ensures !Given(case_title) ==> r == Reply(400, Msg("case_title required")) && db.t == old(db.t)
    ensures Given(case_title) ==>
              (r, db.t) == PublicOutcome(old(db.t), old(db.nextCase), cases.hasCaseNumber,
                                         PublicCase(cases, case_title.value, description,
                                                    PersonColumn(db.users, users, assigned_to_email, assigned_to_name),
                                                    now),
                                         fault)
  {
    if !Given(case_title) {
      return Reply(400, Msg("case_title required"));
    }
    var assignee := ResolvePerson(db.users, users, assigned_to_email, assigned_to_name);
    var columns, values := BuildInsert(cases);
    InsertedCaseBySchema(cases, case_title.value, description, assignee, now);
    r := SavePublicCase(db, cases.hasCaseNumber, InsertedCase(columns, case_title.value, description, assignee, now),
                        fault);
  }

  /** A numbered public case reads back with a number that names its own id. */
  lemma NumberedCaseReadsBack(cases: map<nat, CaseRow>, id: nat)
    requires id in cases
    ensures var after := Numbered(cases, id);
            && after.Keys == cases.Keys
            && after[id].case_number.Some?
            && ParseCaseNumber(after[id].case_number.value) == Some(id)
  {
    CaseNumberRoundTrip(id);
  }
}
