/**
 * The custody-transfer handlers of the Node API: an immediate transfer by
 * an authenticated user, a public transfer request, and the approval or
 * rejection of a request. Each runs in one MySQL transaction; a failing
 * statement rolls the transaction back and answers through the error
 * handler.
 */
module Transfers {
  import opened Wrappers
  import opened Decimal
  import opened Text
  import opened Identity
  import opened Store
  import opened Listing

  /** JavaScript truthiness of an id in a request body: present and not 0. */
  predicate Present(x: Option<nat>) {
    x.Some? && x.value != 0
  }

  /** `remarks || null`. */
  function Remark(s: Option<string>): Option<string> {
    if Given(s) then s else None
  }

  /** Some statement among the first `n` of the transaction fails. */
  predicate Aborts(f: Fault, n: nat) {
    f.FailAt? && 1 <= f.step <= n
  }

  const TransferApproved := "TRANSFER_APPROVED"
  const TransferRequest := "TRANSFER_REQUEST"
  const TransferRejected := "TRANSFER_REJECTED"

  /** The `action` of an access-log entry: `KIND:from->to`. */
  function Tag(kind: string, from: nat, to: nat): string {
    kind + ":" + NatToString(from) + "->" + NatToString(to)
  }

  /** Reads an action written by `Tag` back into its parts. */
  function ParseTag(s: string): Option<(string, nat, nat)> {
    match Cut(s, ':')
    case None => None
    case Some((kind, rest)) =>
      match Cut(rest, '-')
      case None => None
      case Some((from, arrowTo)) =>
        if arrowTo == [] || arrowTo[0] != '>' then None
        else match (ParseNat(from), ParseNat(arrowTo[1..]))
          case (Some(f), Some(t)) => Some((kind, f, t))
          case _ => None
  }

  lemma TagShape(kind: string, f: string, t: string)
    ensures kind + ":" + f + "->" + t == kind + [':'] + (f + ['-'] + (['>'] + t))
  {
  }

  /** Every access-log action a transfer handler writes names its two parties unambiguously. */
  lemma TagRoundTrip(kind: string, from: nat, to: nat)
    requires ':' !in kind
    ensures ParseTag(Tag(kind, from, to)) == Some((kind, from, to))
  {
    var f, t := NatToString(from), NatToString(to);
    TagShape(kind, f, t);
    CutAt(kind, f + ['-'] + (['>'] + t), ':');
    assert '-' !in f by {
      forall i | 0 <= i < |f| ensures f[i] != '-' { assert IsDigit(f[i]); }
    }
    CutAt(f, ['>'] + t, '-');
    assert (['>'] + t)[1..] == t;
    ParseRendered(from);
    ParseRendered(to);
  }

  /** The row `createTransfer` inserts: approved at once by the caller. */
  function Handover(t: Tables, id: nat, e: nat, from: nat, to: nat, remarks: Option<string>,
                    caller: nat, now: nat): (r: Tables)
    ensures r.transfers.Keys == t.transfers.Keys + {id} && r.transfers[id].status == Some("Approved")
    ensures var row := r.transfers[id];
            row.evidence_id == e && row.from_user == from && row.to_user == to && row.transfer_date == now
            && row.approved_by == Some(caller) && row.decision_date == Some(now)
    ensures forall k :: k in t.transfers && k != id ==> r.transfers[k] == t.transfers[k]
    ensures r.evidence.Keys == t.evidence.Keys
    ensures e in t.evidence ==> r.evidence[e].current_custodian_id == Some(to)
                                && r.evidence[e].current_status == Some("Checked In")
    ensures forall k :: k in t.evidence && k != e ==> r.evidence[k] == t.evidence[k]
    ensures r.logs == t.logs + [LogRow(Some(caller), e, Tag(TransferApproved, from, to), now)]
    ensures ParseTag(r.logs[|t.logs|].action) == Some((TransferApproved, from, to))
    ensures r.storage == t.storage && r.cases == t.cases && r.reports == t.reports
  {
    TagRoundTrip(TransferApproved, from, to);
    t.(transfers := t.transfers[id := TransferRow(e, from, to, Remark(remarks), now, Some("Approved"),
                                                  Some(caller), None, Some(now))],
       evidence := SetCustody(t.evidence, e, to, "Checked In"),
       logs := t.logs + [LogRow(Some(caller), e, Tag(TransferApproved, from, to), now)])
  }

  /** The row `createTransferPublic` inserts: a request, with custody unchanged. */
  function Request(t: Tables, id: nat, e: nat, from: nat, to: nat, remarks: Option<string>, now: nat): (r: Tables)
    ensures r.evidence == t.evidence
    ensures r.transfers.Keys == t.transfers.Keys + {id} && r.transfers[id].status == Some("Requested")
    ensures r.transfers[id].approved_by.None? && r.transfers[id].decision_date.None?
    ensures forall k :: k in t.transfers && k != id ==> r.transfers[k] == t.transfers[k]
    ensures r.logs == t.logs + [LogRow(Some(from), e, Tag(TransferRequest, from, to), now)]
    ensures ParseTag(r.logs[|t.logs|].action) == Some((TransferRequest, from, to))
  {
    TagRoundTrip(TransferRequest, from, to);
    t.(transfers := t.transfers[id := TransferRow(e, from, to, Remark(remarks), now, Some("Requested"),
                                                  None, None, None)],
       logs := t.logs + [LogRow(Some(from), e, Tag(TransferRequest, from, to), now)])
  }

  /**
   * `POST /transfers`: an authenticated transfer, approved at once; custody
   * of the item moves to `to_user`.
   */
  method CreateTransfer(db: Database, caller: nat, evidence_id: Option<nat>, from_user: Option<nat>,
                        to_user: Option<nat>, remarks: Option<string>, now: nat, fault: Fault)
    returns (r: Reply)
    requires db.Valid()
    modifies db
    ensures db.Valid()
    ensures !(Present(evidence_id) && Present(from_user) && Present(to_user)) ==>
              r == Reply(400, Msg("Missing fields")) && db.t == old(db.t)
    ensures Present(evidence_id) && Present(from_user) && Present(to_user) && Aborts(fault, 4) ==>
              r == Reply(500, ServerError) && db.t == old(db.t)
    ensures Present(evidence_id) && Present(from_user) && Present(to_user) && !Aborts(fault, 4) ==>
              r == Reply(201, Inserted(old(db.nextTransfer)))
              && db.t == Handover(old(db.t), old(db.nextTransfer), evidence_id.value, from_user.value,
                                  to_user.value, remarks, caller, now)
  {
    if !(Present(evidence_id) && Present(from_user) && Present(to_user)) {
      return Reply(400, Msg("Missing fields"));
    }
    var saved := db.t;
    var e, from, to := evidence_id.value, from_user.value, to_user.value;
    var id := db.InsertTransfer(TransferRow(e, from, to, Remark(remarks), now, Some("Approved"),
                                            Some(caller), None, Some(now)));
    if Fails(fault, 1) {
      db.Restore(saved);
      return Reply(500, ServerError);
    }
    db.t := db.t.(evidence := SetCustody(db.t.evidence, e, to, "Checked In"));
    if Fails(fault, 2) {
      db.Restore(saved);
      return Reply(500, ServerError);
    }
    db.AppendLog(LogRow(Some(caller), e, Tag(TransferApproved, from, to), now));
    if Fails(fault, 3) || Fails(fault, 4) {
      db.Restore(saved);
      return Reply(500, ServerError);
    }
    r := Reply(201, Inserted(id));
  }

  /**
   * `POST /transfers/public`: a transfer request naming both parties by
   * email, badge number or name; nothing changes hands until it is approved.
   */
  method CreateTransferPublic(db: Database, schema: UsersSchema, evidence_id: Option<nat>,
                              from_email: Option<string>, to_email: Option<string>,
                              from_badge: Option<string>, to_badge: Option<string>,
                              from_name: Option<string>, to_name: Option<string>,
                              remarks: Option<string>, now: nat, fault: Fault)
    returns (r: Reply)
    requires db.Valid()
    modifies db
    ensures db.Valid()
    ensures db.t.evidence == old(db.t.evidence)
    ensures var fromId := ResolveUser(db.users, schema, from_email, from_badge, from_name);
            var toId := ResolveUser(db.users, schema, to_email, to_badge, to_name);
            if !Present(evidence_id) || !(Given(from_email) || Given(from_badge) || Given(from_name))
               || !(Given(to_email) || Given(to_badge) || Given(to_name)) then
              r == Reply(400, Msg("Missing fields (evidence_id and from/to identifiers required)"))
              && db.t == old(db.t)
            else if fromId.None? || toId.None? then
              r == Reply(400, Msg("Could not resolve from/to user ids")) && db.t == old(db.t)
            else if Aborts(fault, 3) then
              r == Reply(500, ServerError) && db.t == old(db.t)
            else
              r == Reply(201, Inserted(old(db.nextTransfer)))
              && db.t == Request(old(db.t), old(db.nextTransfer), evidence_id.value, fromId.value, toId.value,
                                 remarks, now)
  {
    if !Present(evidence_id) || !(Given(from_email) || Given(from_badge) || Given(from_name))
       || !(Given(to_email) || Given(to_badge) || Given(to_name)) {
      return Reply(400, Msg("Missing fields (evidence_id and from/to identifiers required)"));
    }
    var fromId := ResolveUser(db.users, schema, from_email, from_badge, from_name);
    var toId := ResolveUser(db.users, schema, to_email, to_badge, to_name);
    if fromId.None? || toId.None? {
      return Reply(400, Msg("Could not resolve from/to user ids"));
    }
    r := SaveRequest(db, evidence_id.value, fromId.value, toId.value, remarks, now, fault);
  }

  /**
   * The transaction of `POST /transfers/public` once both parties are
   * known: the request row and its log entry, or neither.
   */
  method SaveRequest(db: Database, e: nat, from: nat, to: nat, remarks: Option<string>, now: nat, fault: Fault)
    returns (r: Reply)
    requires db.Valid()
    modifies db
    ensures db.Valid()
    ensures Aborts(fault, 3) ==> r == Reply(500, ServerError) && db.t == old(db.t)
    ensures !Aborts(fault, 3) ==>
              r == Reply(201, Inserted(old(db.nextTransfer)))
              && db.t == Request(old(db.t), old(db.nextTransfer), e, from, to, remarks, now)
  {
    var saved := db.t;
    var id := db.InsertTransfer(TransferRow(e, from, to, Remark(remarks), now, Some("Requested"), None, None, None));
    if Fails(fault, 1) {
      db.Restore(saved);
      return Reply(500, ServerError);
    }
    db.AppendLog(LogRow(Some(from), e, Tag(TransferRequest, from, to), now));
    if Fails(fault, 2) || Fails(fault, 3) {
      db.Restore(saved);
      return Reply(500, ServerError);
    }
    r := Reply(201, Inserted(id));
  }

  /** A transfer may be decided while its status is unset, empty or `Requested`. */
  predicate Pending(status: Option<string>) {
    status.None? || status.value == "" || status.value == "Requested"
  }

  /** What the `SELECT … FOR UPDATE` and the status test of a decision find. */
  datatype Lookup = NotFound | Decided(status: string) | Open(row: TransferRow)

  function DecisionCheck(transfers: map<nat, TransferRow>, id: nat): (c: Lookup)
    ensures c.NotFound? <==> id !in transfers
    ensures c.Decided? <==> id in transfers && !Pending(transfers[id].status)
    ensures c.Decided? ==> transfers[id].status == Some(c.status)
    ensures c.Open? ==> id in transfers && c.row == transfers[id]
  {
    if id !in transfers then NotFound
    else if Pending(transfers[id].status) then Open(transfers[id])
    else Decided(transfers[id].status.value)
  }

  /**
   * The decision columns: the verdict, who decided and when; new remarks
   * replace the old ones only when given (`COALESCE(?, decision_remarks)`).
   */
  function Decide(row: TransferRow, verdict: string, caller: nat, remarks: Option<string>, now: nat): (r: TransferRow)
    ensures r.status == Some(verdict) && r.approved_by == Some(caller) && r.decision_date == Some(now)
    ensures Given(remarks) ==> r.decision_remarks == remarks
    ensures !Given(remarks) ==> r.decision_remarks == row.decision_remarks
    ensures r.evidence_id == row.evidence_id && r.from_user == row.from_user && r.to_user == row.to_user
            && r.remarks == row.remarks && r.transfer_date == row.transfer_date
  {
    row.(status := Some(verdict), approved_by := Some(caller),
         decision_remarks := if Given(remarks) then remarks else row.decision_remarks,
         decision_date := Some(now))
  }

  /** The tables after an approval: the row is decided and custody moves to its `to_user`. */
  function Approval(t: Tables, id: nat, caller: nat, remarks: Option<string>, now: nat): (r: Tables)
    requires id in t.transfers
    ensures r.transfers.Keys == t.transfers.Keys && r.transfers[id].status == Some("Approved")
    ensures r.transfers[id].approved_by == Some(caller) && r.transfers[id].decision_date == Some(now)
    ensures r.transfers[id].decision_remarks == if Given(remarks) then remarks else t.transfers[id].decision_remarks
    ensures forall k :: k in t.transfers && k != id ==> r.transfers[k] == t.transfers[k]
    ensures r.evidence.Keys == t.evidence.Keys
    ensures var row := t.transfers[id];
            row.evidence_id in t.evidence ==> r.evidence[row.evidence_id].current_custodian_id == Some(row.to_user)
                                              && r.evidence[row.evidence_id].current_status == Some("Checked In")
    ensures forall k :: k in t.evidence && k != t.transfers[id].evidence_id ==> r.evidence[k] == t.evidence[k]
    ensures var row := t.transfers[id];
            r.logs == t.logs + [LogRow(Some(caller), row.evidence_id, Tag(TransferApproved, row.from_user, row.to_user), now)]
    ensures var row := t.transfers[id];
            ParseTag(r.logs[|t.logs|].action) == Some((TransferApproved, row.from_user, row.to_user))
    ensures r.storage == t.storage && r.cases == t.cases && r.reports == t.reports
  {
    var row := t.transfers[id];
    TagRoundTrip(TransferApproved, row.from_user, row.to_user);
    t.(transfers := t.transfers[id := Decide(row, "Approved", caller, remarks, now)],
       evidence := SetCustody(t.evidence, row.evidence_id, row.to_user, "Checked In"),
       logs := t.logs + [LogRow(Some(caller), row.evidence_id, Tag(TransferApproved, row.from_user, row.to_user), now)])
  }

  /** The tables after a rejection: the row is decided; custody stays where it was. */
  function Rejection(t: Tables, id: nat, caller: nat, remarks: Option<string>, now: nat): (r: Tables)
    requires id in t.transfers
    ensures r.evidence == t.evidence
    ensures r.transfers.Keys == t.transfers.Keys && r.transfers[id].status == Some("Rejected")
    ensures r.transfers[id].approved_by == Some(caller) && r.transfers[id].decision_date == Some(now)
    ensures r.transfers[id].decision_remarks == if Given(remarks) then remarks else t.transfers[id].decision_remarks
    ensures forall k :: k in t.transfers && k != id ==> r.transfers[k] == t.transfers[k]
    ensures var row := t.transfers[id];
            r.logs == t.logs + [LogRow(Some(caller), row.evidence_id, Tag(TransferRejected, row.from_user, row.to_user), now)]
    ensures var row := t.transfers[id];
            ParseTag(r.logs[|t.logs|].action) == Some((TransferRejected, row.from_user, row.to_user))
    ensures r.storage == t.storage && r.cases == t.cases && r.reports == t.reports
  {
    var row := t.transfers[id];
    TagRoundTrip(TransferRejected, row.from_user, row.to_user);
    t.(transfers := t.transfers[id := Decide(row, "Rejected", caller, remarks, now)],
       logs := t.logs + [LogRow(Some(caller), row.evidence_id, Tag(TransferRejected, row.from_user, row.to_user), now)])
  }

  /** `POST /transfers/:id/approve`. */
  method ApproveTransfer(db: Database, caller: nat, id: nat, remarks: Option<string>, now: nat, fault: Fault)
    returns (r: Reply)
    requires db.Valid()
    modifies db
    ensures db.Valid()
    ensures match DecisionCheck(old(db.t.transfers), id)
            case NotFound => r == Reply(404, Msg("Transfer not found")) && db.t == old(db.t)
            case Decided(s) => r == Reply(400, Msg("Cannot approve transfer with status " + s)) && db.t == old(db.t)
            case Open(_) =>
              if Aborts(fault, 4) then r == Reply(500, ServerError) && db.t == old(db.t)
              else r == Reply(200, Msg("Approved")) && db.t == Approval(old(db.t), id, caller, remarks, now)
  {
    var saved := db.t;
    match DecisionCheck(db.t.transfers, id)
    case NotFound =>
      return Reply(404, Msg("Transfer not found"));
    case Decided(s) =>
      return Reply(400, Msg("Cannot approve transfer with status " + s));
    case Open(row) =>
      db.t := db.t.(evidence := SetCustody(db.t.evidence, row.evidence_id, row.to_user, "Checked In"));
      if Fails(fault, 1) {
        db.Restore(saved);
        return Reply(500, ServerError);
      }
      db.t := db.t.(transfers := db.t.transfers[id := Decide(row, "Approved", caller, remarks, now)]);
      if Fails(fault, 2) {
        db.Restore(saved);
        return Reply(500, ServerError);
      }
      db.AppendLog(LogRow(Some(caller), row.evidence_id, Tag(TransferApproved, row.from_user, row.to_user), now));
      if Fails(fault, 3) || Fails(fault, 4) {
        db.Restore(saved);
        return Reply(500, ServerError);
      }
      r := Reply(200, Msg("Approved"));
  }

  /** `POST /transfers/:id/reject`. */
  method RejectTransfer(db: Database, caller: nat, id: nat, remarks: Option<string>, now: nat, fault: Fault)
    returns (r: Reply)
    requires db.Valid()
    modifies db
    ensures db.Valid()
    ensures db.t.evidence == old(db.t.evidence)
    ensures match DecisionCheck(old(db.t.transfers), id)
            case NotFound => r == Reply(404, Msg("Transfer not found")) && db.t == old(db.t)
            case Decided(s) => r == Reply(400, Msg("Cannot reject transfer with status " + s)) && db.t == old(db.t)
            case Open(_) =>
              if Aborts(fault, 3) then r == Reply(500, ServerError) && db.t == old(db.t)
              else r == Reply(200, Msg("Rejected")) && db.t == Rejection(old(db.t), id, caller, remarks, now)
  {
    var saved := db.t;
    match DecisionCheck(db.t.transfers, id)
    case NotFound =>
      return Reply(404, Msg("Transfer not found"));
    case Decided(s) =>
      return Reply(400, Msg("Cannot reject transfer with status " + s));
    case Open(row) =>
      db.t := db.t.(transfers := db.t.transfers[id := Decide(row, "Rejected", caller, remarks, now)]);
      if Fails(fault, 1) {
        db.Restore(saved);
        return Reply(500, ServerError);
      }
      db.AppendLog(LogRow(Some(caller), row.evidence_id, Tag(TransferRejected, row.from_user, row.to_user), now));
      if Fails(fault, 2) || Fails(fault, 3) {
        db.Restore(saved);
        return Reply(500, ServerError);
      }
      r := Reply(200, Msg("Rejected"));
  }

  /** A request can be decided once: afterwards both decisions are refused with its verdict. */
  lemma DecisionIsFinal(t: Tables, id: nat, caller: nat, remarks: Option<string>, now: nat)
    requires DecisionCheck(t.transfers, id).Open?
    ensures DecisionCheck(Approval(t, id, caller, remarks, now).transfers, id) == Decided("Approved")
    ensures DecisionCheck(Rejection(t, id, caller, remarks, now).transfers, id) == Decided("Rejected")
  {
  }

  /**
   * The public workflow: a request leaves custody alone and is open; its
   * approval hands the item to the requested recipient, and the log's last
   * two actions name the same parties as the row.
   */
  lemma RequestThenApprove(t: Tables, id: nat, e: nat, from: nat, to: nat, remarks: Option<string>,
                           now: nat, caller: nat, later: nat)
    requires id !in t.transfers && e in t.evidence
    ensures var t1 := Request(t, id, e, from, to, remarks, now);
            && t1.evidence == t.evidence
            && DecisionCheck(t1.transfers, id).Open?
            && var t2 := Approval(t1, id, caller, remarks, later);
               && t2.evidence[e].current_custodian_id == Some(to)
               && t2.evidence[e].current_status == Some("Checked In")
               && |t2.logs| == |t.logs| + 2
               && ParseTag(t2.logs[|t.logs|].action) == Some((TransferRequest, from, to))
               && ParseTag(t2.logs[|t.logs| + 1].action) == Some((TransferApproved, from, to))
  {
    assert ':' !in TransferRequest && ':' !in TransferApproved;
    TagRoundTrip(TransferRequest, from, to);
    TagRoundTrip(TransferApproved, from, to);
  }

  /** The date a transfer row was recorded, as the sort key of a listing. */
  function TransferDate(m: map<nat, TransferRow>): nat -> int {
    k => if k in m then m[k].transfer_date else 0
  }

  /**
   * `GET /transfers/:evidenceId`: every transfer of the item, each
   * once, oldest first.
   */
  method TransfersForEvidence(db: Database, e: nat) returns (r: Reply)
    requires db.Valid()
    ensures r.status == 200 && r.body.Listing?
    ensures forall id :: id in r.body.ids <==> id in db.t.transfers && db.t.transfers[id].evidence_id == e
    ensures Distinct(r.body.ids)
    ensures forall i, j :: 0 <= i < j < |r.body.ids| ==>
              db.t.transfers[r.body.ids[i]].transfer_date <= db.t.transfers[r.body.ids[j]].transfer_date
  {
    var ids := SelectOrdered(db.t.transfers, db.nextTransfer, (row: TransferRow) => row.evidence_id == e,
                             TransferDate(db.t.transfers));
    r := Reply(200, Listing(ids));
  }
}
