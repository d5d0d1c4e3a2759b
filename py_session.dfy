/**
 * The database session of the Flask backend (DECMS_BACKEND): the rows an
 * open transaction sees (`work`) and the rows committed so far (`durable`).
 * `add`, `flush` and attribute assignment change `work`; `commit` makes it
 * durable; `rollback` throws it away.  Only the three tables the custody
 * services touch are kept; field names follow DECMS_BACKEND/app/models.py.
 */
module PySession {
  import opened Wrappers

  datatype Item = Item(case_id: nat, item_name: string, description: string, evidence_type: string,
                       initial_hash: string, status: string, current_custodian_id: nat)

  datatype Transfer = Transfer(evidence_id: nat, from_user_id: nat, to_user_id: nat,
                               transfer_timestamp: nat, notes: string, transfer_hash: string)

  datatype AuditRow = AuditRow(user_id: Option<nat>, action: string, details: string, ip_address: string)

  datatype Tables = Tables(items: map<nat, Item>, transfers: seq<Transfer>, audit: seq<AuditRow>)

  /**
   * Item ids lie below the auto-increment counter; transfer timestamps lie
   * below the clock and increase strictly in insertion order.
   */
  ghost predicate WellFormed(t: Tables, nextId: nat, clock: nat) {
    && (forall e :: e in t.items ==> e < nextId)
    && (forall i :: 0 <= i < |t.transfers| ==> t.transfers[i].transfer_timestamp < clock)
    && (forall i, j :: 0 <= i < j < |t.transfers| ==>
          t.transfers[i].transfer_timestamp < t.transfers[j].transfer_timestamp)
  }

  class Session {
    var work: Tables
    var durable: Tables
    var nextId: nat
    var clock: nat

    ghost predicate Valid()
      reads this
    {
      WellFormed(work, nextId, clock) && WellFormed(durable, nextId, clock)
    }

    constructor ()
      ensures Valid()
      ensures work == durable == Tables(map[], [], [])
      ensures nextId == 1 && clock == 0
    {
      work := Tables(map[], [], []);
      durable := Tables(map[], [], []);
      nextId := 1;
      clock := 0;
    }

    /** `datetime.utcnow()`: a reading later than every earlier one. */
    method Now() returns (ts: nat)
      requires Valid()
      modifies this`clock
      ensures Valid()
      ensures ts == old(clock) && clock == ts + 1
    {
      ts := clock;
      clock := clock + 1;
    }

    /** `session.add(item)` followed by `flush()`: the row gets the next id. */
    method AddItem(item: Item) returns (id: nat)
      requires Valid()
      modifies this`work, this`nextId
      ensures Valid()
      ensures id == old(nextId) && nextId == id + 1 && id !in old(work.items)
      ensures work == old(work).(items := old(work.items)[id := item])
    {
      id := nextId;
      nextId := nextId + 1;
      work := work.(items := work.items[id := item]);
    }

    /** Assigning attributes of a loaded item in place. */
    method SetItem(e: nat, item: Item)
      requires Valid() && e in work.items
      modifies this`work
      ensures Valid()
      ensures work == old(work).(items := old(work.items)[e := item])
    {
      work := work.(items := work.items[e := item]);
    }

    /** `session.add(transfer)`, stamped no earlier than the clock's last reading. */
    method AddTransfer(t: Transfer)
      requires Valid()
      requires t.transfer_timestamp < clock
      requires forall i :: 0 <= i < |work.transfers| ==> work.transfers[i].transfer_timestamp < t.transfer_timestamp
      modifies this`work
      ensures Valid()
      ensures work == old(work).(transfers := old(work.transfers) + [t])
    {
      work := work.(transfers := work.transfers + [t]);
    }

    method AddAudit(row: AuditRow)
      requires Valid()
      modifies this`work
      ensures Valid()
      ensures work == old(work).(audit := old(work.audit) + [row])
    {
      work := work.(audit := work.audit + [row]);
    }

    /** `session.commit()`; when `fault` holds the database refuses and nothing changes. */
    method Commit(fault: bool) returns (ok: bool)
      requires Valid()
      modifies this`durable
      ensures Valid()
      ensures ok == !fault
      ensures durable == if ok then work else old(durable)
    {
      ok := !fault;
      if ok {
        durable := work;
      }
    }

    /** `session.rollback()`: everything not committed is discarded. */
    method Rollback()
      requires Valid()
      modifies this`work
      ensures Valid()
      ensures work == durable
    {
      work := durable;
    }
  }
}
