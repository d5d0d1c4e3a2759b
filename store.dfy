/**
 * The MySQL database the Node controllers work on: one map per table,
 * keyed by primary key, the AUTO_INCREMENT counters, and the `users` rows
 * (which no modelled handler changes).
 */
module Store {
  import opened Wrappers
  import opened Identity

  datatype TransferRow = TransferRow(evidence_id: nat, from_user: nat, to_user: nat, remarks: Option<string>,
                                     transfer_date: nat, status: Option<string>, approved_by: Option<nat>,
                                     decision_remarks: Option<string>, decision_date: Option<nat>)

  datatype EvidenceRow = EvidenceRow(case_id: nat, collected_by: Option<nat>, evidence_type: string,
                                     description: Option<string>, storage_id: Option<int>,
                                     current_status: Option<string>, collected_on: nat, file_path: Option<string>,
                                     current_custodian_id: Option<nat>)

  datatype LogRow = LogRow(user_id: Option<nat>, evidence_id: nat, action: string, timestamp: nat)

  datatype StorageRow = StorageRow(name: string, location_details: Option<string>, capacity: nat, status: string)

  datatype CaseRow = CaseRow(case_title: string, description: Option<string>, assigned_to: Option<nat>,
                             created_by: Option<nat>, case_number: Option<string>, status: Option<string>,
                             created_at: nat)

  datatype ReportRow = ReportRow(evidence_id: nat, analyst_id: Option<nat>, findings: string,
                                 report_file: Option<string>, created_at: nat)

  /** Every table a handler may write; a transaction's rollback restores a saved copy of it. */
  datatype Tables = Tables(transfers: map<nat, TransferRow>, evidence: map<nat, EvidenceRow>, logs: seq<LogRow>,
                           storage: map<nat, StorageRow>, cases: map<nat, CaseRow>, reports: map<nat, ReportRow>)

  /** The JSON body of a reply. */
  datatype Body =
    | Msg(msg: string)
    | Inserted(id: nat)
    | CaseInserted(case_id: nat, case_number: string)
    | Item(item: EvidenceRow)
    | CaseView(caseRow: CaseRow, evidence: seq<nat>)
    | Listing(ids: seq<nat>)
    | ServerError          // `next(err)`: the error handler's 500 answer

  datatype Reply = Reply(status: nat, body: Body)

  /** How a transaction's statements fare: all succeed, or the `step`-th one fails. */
  datatype Fault = NoFault | FailAt(step: nat)

  predicate Fails(f: Fault, k: nat) {
    f == FailAt(k)
  }

  /** Keys below the counter: the next insert gets a key no row has. */
  predicate KeysBelow<T>(m: map<nat, T>, next: nat) {
    forall k :: k in m ==> 1 <= k < next
  }

  class Database {
    const users: seq<User>
    var t: Tables
    var nextTransfer: nat
    var nextEvidence: nat
    var nextStorage: nat
    var nextCase: nat
    var nextReport: nat

    ghost predicate Valid()
      reads this
    {
      && KeysBelow(t.transfers, nextTransfer) && KeysBelow(t.evidence, nextEvidence)
      && KeysBelow(t.storage, nextStorage) && KeysBelow(t.cases, nextCase) && KeysBelow(t.reports, nextReport)
      && nextTransfer >= 1 && nextEvidence >= 1 && nextStorage >= 1 && nextCase >= 1 && nextReport >= 1
    }

    constructor (users: seq<User>)
      ensures Valid()
      ensures this.users == users && t == Tables(map[], map[], [], map[], map[], map[])
    {
      this.users := users;
      t := Tables(map[], map[], [], map[], map[], map[]);
      nextTransfer, nextEvidence, nextStorage, nextCase, nextReport := 1, 1, 1, 1, 1;
    }

    method InsertTransfer(row: TransferRow) returns (id: nat)
      requires Valid()
      modifies this
      ensures Valid()
      ensures id == old(nextTransfer) && id >= 1 && id !in old(t.transfers)
      ensures t == old(t).(transfers := old(t.transfers)[id := row])
      ensures nextTransfer == id + 1
      ensures unchanged(this`nextEvidence, this`nextStorage, this`nextCase, this`nextReport)
    {
      id := nextTransfer;
      t := t.(transfers := t.transfers[id := row]);
      nextTransfer := nextTransfer + 1;
    }

    method InsertEvidence(row: EvidenceRow) returns (id: nat)
      requires Valid()
      modifies this
      ensures Valid()
      ensures id == old(nextEvidence) && id >= 1 && id !in old(t.evidence)
      ensures t == old(t).(evidence := old(t.evidence)[id := row])
      ensures nextEvidence == id + 1
      ensures unchanged(this`nextTransfer, this`nextStorage, this`nextCase, this`nextReport)
    {
      id := nextEvidence;
      t := t.(evidence := t.evidence[id := row]);
      nextEvidence := nextEvidence + 1;
    }

    method InsertStorage(row: StorageRow) returns (id: nat)
      requires Valid()
      modifies this
      ensures Valid()
      ensures id == old(nextStorage) && id >= 1 && id !in old(t.storage)
      ensures t == old(t).(storage := old(t.storage)[id := row])
      ensures nextStorage == id + 1
      ensures unchanged(this`nextTransfer, this`nextEvidence, this`nextCase, this`nextReport)
    {
      id := nextStorage;
      t := t.(storage := t.storage[id := row]);
      nextStorage := nextStorage + 1;
    }

    method InsertCase(row: CaseRow) returns (id: nat)
      requires Valid()
      modifies this
      ensures Valid()
      ensures id == old(nextCase) && id >= 1 && id !in old(t.cases)
      ensures t == old(t).(cases := old(t.cases)[id := row])
      ensures nextCase == id + 1
      ensures unchanged(this`nextTransfer, this`nextEvidence, this`nextStorage, this`nextReport)
    {
      id := nextCase;
      t := t.(cases := t.cases[id := row]);
      nextCase := nextCase + 1;
    }

    method InsertReport(row: ReportRow) returns (id: nat)
      requires Valid()
      modifies this
      ensures Valid()
      ensures id == old(nextReport) && id >= 1 && id !in old(t.reports)
      ensures t == old(t).(reports := old(t.reports)[id := row])
      ensures nextReport == id + 1
      ensures unchanged(this`nextTransfer, this`nextEvidence, this`nextStorage, this`nextCase)
    {
      id := nextReport;
      t := t.(reports := t.reports[id := row]);
      nextReport := nextReport + 1;
    }

    /** `INSERT INTO access_logs …`. */
    method AppendLog(row: LogRow)
      requires Valid()
      modifies this`t
      ensures Valid()
      ensures t == old(t).(logs := old(t.logs) + [row])
    {
      t := t.(logs := t.logs + [row]);
    }

    /**
     * Replaces the tables with a copy saved when the transaction began;
     * AUTO_INCREMENT counters are not rolled back.
     */
    method Restore(saved: Tables)
      requires Valid()
      requires KeysBelow(saved.transfers, nextTransfer) && KeysBelow(saved.evidence, nextEvidence)
      requires KeysBelow(saved.storage, nextStorage) && KeysBelow(saved.cases, nextCase)
      requires KeysBelow(saved.reports, nextReport)
      modifies this`t
      ensures Valid() && t == saved
    {
      t := saved;
    }
  }

  /**
   * `UPDATE evidence_items SET current_custodian_id = ?, current_status = ?
   * WHERE evidence_id = ?`: no row changes when the id is unknown.
   */
  function SetCustody(items: map<nat, EvidenceRow>, e: nat, to: nat, status: string): (r: map<nat, EvidenceRow>)
    ensures r.Keys == items.Keys
    ensures e in items ==> r[e] == items[e].(current_custodian_id := Some(to), current_status := Some(status))
    ensures forall k :: k in items && k != e ==> r[k] == items[k]
  {
    if e in items then items[e := items[e].(current_custodian_id := Some(to), current_status := Some(status))]
    else items
  }
}
