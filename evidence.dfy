/**
 * The evidence-item handlers of the Node API: intake (authenticated and
 * public), reading one item, changing its status and deleting it. These
 * handlers run their statements one by one, outside any transaction.
 */
module Evidence {
  import opened Wrappers
  import opened Decimal
  import opened Text
  import opened Identity
  import opened Store
  import opened Transfers

  /** A JSON value of a request body. */
  datatype JsValue = Undefined | Null | Num(n: int) | Str(s: string) | Bool(b: bool) | Obj  // Obj: any plain object

  /** What `storage_location` stands for. */
  datatype StorageRef = NoStorage | StorageId(id: int) | StorageName(name: string)

  /**
   * The branches of `resolveStorageId` before any query: nothing, a number
   * (or a string of digits) used as the id, or a trimmed non-blank name.
   */
  function ClassifyStorage(v: JsValue): (r: StorageRef)
    ensures r.StorageId? ==> v.Num? || (v.Str? && AllDigits(v.s))
    ensures r.StorageName? ==> r.name != []
  {
    match v
    case Undefined => NoStorage
    case Null => NoStorage
    case Num(n) => StorageId(n)
    case Str(s) =>
      if s == "" then NoStorage
      else if AllDigits(s) then StorageId(DigitsValue(s))
      else if Trim(s) == "" then NoStorage
      else StorageName(Trim(s))
    case Bool(b) => StorageName(if b then "true" else "false")
    case Obj => StorageName("[object Object]")
  }

  /** A storage name is never blank and has no white space around it. */
  lemma StorageNameTrimmed(v: JsValue)
    requires ClassifyStorage(v).StorageName?
    ensures var name := ClassifyStorage(v).name; name != "" && Trim(name) == name
  {
    match v
    case Str(s) =>
      TrimIdempotent(s);
    case Bool(b) =>
      var name := if b then "true" else "false";
      assert !IsSpace(name[0]) && !IsSpace(name[|name| - 1]);
      TrimUnspaced(name);
    case Obj =>
      var name := "[object Object]";
      assert !IsSpace(name[0]) && !IsSpace(name[|name| - 1]);
      TrimUnspaced(name);
    case _ =>
  }

  /** An id sent as its decimal string is used as that id. */
  lemma DigitStringIsId(n: nat)
    ensures ClassifyStorage(Str(NatToString(n))) == StorageId(n)
  {
    ParseRendered(n);
  }

  /** Padding around digits makes them a name, not an id. */
  lemma PaddedDigitsAreAName()
    ensures ClassifyStorage(Str(" 12")) == StorageName("12")
  {
    assert !IsDigit(" 12"[0]);
    assert " 12"[1..] == "12";
    assert TrimStart("12") == "12";
    assert TrimStart(" 12") == "12";
    assert TrimEnd("12") == "12";
  }

  /** `SELECT storage_id FROM storage_locations WHERE name = ? LIMIT 1`, in key order below `bound`. */
  function FindStorage(storage: map<nat, StorageRow>, name: string, bound: nat): (r: Option<nat>)
    ensures r.Some? ==> r.value < bound && r.value in storage && storage[r.value].name == name
    ensures r.Some? ==> forall k :: k in storage && k < r.value ==> storage[k].name != name
    ensures r.None? ==> forall k :: k in storage && k < bound ==> storage[k].name != name
  {
    if bound == 0 then None
    else match FindStorage(storage, name, bound - 1)
      case Some(k) => Some(k)
      case None => if bound - 1 in storage && storage[bound - 1].name == name then Some(bound - 1) else None
  }

  /**
   * `resolveStorageId`: the id to store and the storage table afterwards;
   * an unknown name is inserted as a new active location of capacity 0.
   */
  function Resolution(storage: map<nat, StorageRow>, next: nat, v: JsValue): (r: (Option<int>, map<nat, StorageRow>))
    ensures r.0.None? <==> ClassifyStorage(v).NoStorage?
    ensures storage.Keys <= r.1.Keys
  {
    match ClassifyStorage(v)
    case NoStorage => (None, storage)
    case StorageId(n) => (Some(n), storage)
    case StorageName(name) =>
      match FindStorage(storage, name, next)
      case Some(k) => (Some(k), storage)
      case None => (Some(next), storage[next := StorageRow(name, None, 0, "Active")])
  }

  /**
   * A name resolves to a location of that name and only ever adds one;
   * anything else leaves the locations alone.
   */
  lemma ResolutionNamesRow(storage: map<nat, StorageRow>, next: nat, v: JsValue)
    requires KeysBelow(storage, next)
    ensures var (id, after) := Resolution(storage, next, v);
            && (ClassifyStorage(v).StorageName? ==>
                  id.Some? && id.value >= 0 && id.value as nat in after
                  && after[id.value as nat].name == ClassifyStorage(v).name)
            && (!ClassifyStorage(v).StorageName? ==> after == storage)
            && storage.Keys <= after.Keys && |after.Keys - storage.Keys| <= 1
            && forall k :: k in storage ==> after[k] == storage[k]
  {
    match ClassifyStorage(v)
    case NoStorage =>
    case StorageId(_) =>
    case StorageName(name) =>
      match FindStorage(storage, name, next)
      case Some(_) =>
      case None =>
        assert next !in storage;
        AddedRow(storage, next, StorageRow(name, None, 0, "Active"));
  }

  /** Inserting under an unused key adds exactly that key and keeps every other row. */
  lemma AddedRow(m: map<nat, StorageRow>, n: nat, row: StorageRow)
    requires n !in m
    ensures m.Keys <= m[n := row].Keys && |m[n := row].Keys - m.Keys| == 1
    ensures forall k :: k in m ==> m[n := row][k] == m[k]
  {
    assert m[n := row].Keys - m.Keys == {n};
  }

  /** Resolving the same value again finds what the first resolution found or created. */
  lemma ResolutionIdempotent(storage: map<nat, StorageRow>, next: nat, v: JsValue)
    requires KeysBelow(storage, next)
    ensures var (id, after) := Resolution(storage, next, v);
            Resolution(after, next + 1, v) == (id, after)
  {
    match ClassifyStorage(v)
    case NoStorage =>
    case StorageId(_) =>
    case StorageName(name) =>
      var after := Resolution(storage, next, v).1;
      match FindStorage(storage, name, next)
      case Some(k) =>
        assert next !in storage;
        assert FindStorage(storage, name, next + 1) == Some(k);
      case None =>
        var found := FindStorage(after, name, next + 1);
        assert after[next].name == name;
        assert found.Some?;
        assert found.value == next;
  }

  method ResolveStorageId(db: Database, v: JsValue) returns (id: Option<int>)
    requires db.Valid()
    modifies db
    ensures db.Valid()
    ensures (id, db.t.storage) == Resolution(old(db.t.storage), old(db.nextStorage), v)
    ensures db.t == old(db.t).(storage := db.t.storage)
    ensures db.nextStorage == old(db.nextStorage) + (if db.t.storage == old(db.t.storage) then 0 else 1)
    ensures unchanged(db`nextTransfer, db`nextEvidence, db`nextCase, db`nextReport)
  {
    match ClassifyStorage(v)
    case NoStorage => id := None;
    case StorageId(n) => id := Some(n);
    case StorageName(name) =>
      var found := FindStorage(db.t.storage, name, db.nextStorage);
      if found.Some? {
        id := Some(found.value);
      } else {
        assert db.nextStorage !in db.t.storage;
        var k := db.InsertStorage(StorageRow(name, None, 0, "Active"));
        id := Some(k);
      }
  }

  /**
   * What an intake leaves once its fields are checked: the storage location
   * is resolved first, and the row it creates stays even when the item's
   * insert fails, since no transaction spans the two.
   */
  function Intake(t: Tables, nextStorage: nat, id: nat, case_id: nat, collector: Option<nat>,
                  custodian: Option<nat>, evidence_type: string, description: Option<string>,
                  storage_location: JsValue, file_path: Option<string>, now: nat, insertFails: bool)
    : (Reply, Tables)
  {
    var (storage, locations) := Resolution(t.storage, nextStorage, storage_location);
    if insertFails then
      (Reply(500, ServerError), t.(storage := locations))
    else
      (Reply(201, Inserted(id)),
       t.(storage := locations,
          evidence := t.evidence[id := EvidenceRow(case_id, collector, evidence_type, description, storage,
                                                   Some("Collected"), now, file_path, custodian)]))
  }

  /** The writes of an intake once its fields are checked. */
  method RecordItem(db: Database, case_id: nat, collector: Option<nat>, custodian: Option<nat>,
                    evidence_type: string, description: Option<string>, storage_location: JsValue,
                    file_path: Option<string>, now: nat, insertFails: bool)
    returns (r: Reply)
    requires db.Valid()
    modifies db
    ensures db.Valid()
    ensures (r, db.t) == Intake(old(db.t), old(db.nextStorage), old(db.nextEvidence), case_id, collector, custodian,
                                evidence_type, description, storage_location, file_path, now, insertFails)
  {
    var storage := ResolveStorageId(db, storage_location);
    if insertFails {
      return Reply(500, ServerError);
    }
    var id := db.InsertEvidence(EvidenceRow(case_id, collector, evidence_type, description, storage,
                                            Some("Collected"), now, file_path, custodian));
    r := Reply(201, Inserted(id));
  }

  /** `POST /evidence`: an item collected by the caller, with no custodian yet. */
  method CreateEvidence(db: Database, caller: nat, case_id: Option<nat>, evidence_type: Option<string>,
                        description: Option<string>, storage_location: JsValue, file_path: Option<string>,
                        now: nat, insertFails: bool)
    returns (r: Reply)
    requires db.Valid()
    modifies db
    ensures db.Valid()
    ensures !Present(case_id) || !Given(evidence_type) ==>
              r == Reply(400, Msg("Missing fields")) && db.t == old(db.t)
    ensures Present(case_id) && Given(evidence_type) ==>
              (r, db.t) == Intake(old(db.t), old(db.nextStorage), old(db.nextEvidence), case_id.value, Some(caller),
                                  None, evidence_type.value, description, storage_location, file_path, now,
                                  insertFails)
  {
    if !Present(case_id) || !Given(evidence_type) {
      return Reply(400, Msg("Missing fields"));
    }
    r := RecordItem(db, case_id.value, Some(caller), None, evidence_type.value, description, storage_location,
                    file_path, now, insertFails);
  }

  /**
   * `POST /evidence/public`: intake naming the collector by email or name;
   * the collector, when found, is also the first custodian.
   */
  method CreateEvidencePublic(db: Database, schema: UsersSchema, case_id: Option<nat>,
                              evidence_type: Option<string>, description: Option<string>,
                              storage_location: JsValue, collected_by_email: Option<string>,
                              collected_by_name: Option<string>, file_path: Option<string>,
                              now: nat, insertFails: bool)
    returns (r: Reply)
    requires db.Valid()
    modifies db
    ensures db.Valid()
    ensures !Present(case_id) || !Given(evidence_type) ==>
              r == Reply(400, Msg("Missing fields")) && db.t == old(db.t)
    ensures Present(case_id) && Given(evidence_type) ==>
              var who := PersonColumn(db.users, schema, collected_by_email, collected_by_name);
              (r, db.t) == Intake(old(db.t), old(db.nextStorage), old(db.nextEvidence), case_id.value, who, who,
                                  evidence_type.value, description, storage_location, file_path, now, insertFails)
  {
    if !Present(case_id) || !Given(evidence_type) {
      return Reply(400, Msg("Missing fields"));
    }
    var who := ResolvePerson(db.users, schema, collected_by_email, collected_by_name);
    r := RecordItem(db, case_id.value, who, who, evidence_type.value, description, storage_location,
                    file_path, now, insertFails);
  }

  /** `GET /evidence/:id`. */
  function GetEvidence(items: map<nat, EvidenceRow>, id: nat): (r: Reply)
    ensures r.status == 200 <==> id in items
    ensures r.status == 200 ==> r.body == Item(items[id])
    ensures r.status != 200 ==> r == Reply(404, Msg("Not found"))
  {
    if id in items then Reply(200, Item(items[id])) else Reply(404, Msg("Not found"))
  }

  /** The `access_logs` action of a status change; a null status prints as `null`. */
  function StatusAction(status: Option<string>): (a: string)
    ensures |a| >= 7 && a[..7] == "STATUS:"
    ensures a[7..] == if status.Some? then status.value else "null"
  {
    "STATUS:" + status.GetOr("null")
  }

  /** The item's status after `UPDATE evidence_items SET current_status = ?`; no row changes for an unknown id. */
  function SetStatus(items: map<nat, EvidenceRow>, id: nat, status: Option<string>): (r: map<nat, EvidenceRow>)
    ensures r.Keys == items.Keys
    ensures id in items ==> r[id] == items[id].(current_status := status)
    ensures forall k :: k in items && k != id ==> r[k] == items[k]
  {
    if id in items then items[id := items[id].(current_status := status)] else items
  }

  /**
   * `PUT /evidence/:id`. The update and the log entry are separate
   * statements: when the second fails the new status stays without its
   * log entry.
   */
  method UpdateEvidence(db: Database, caller: nat, id: nat, current_status: Option<string>, now: nat, fault: Fault)
    returns (r: Reply)
    requires db.Valid()
    modifies db`t
    ensures db.Valid()
    ensures Fails(fault, 1) ==> r == Reply(500, ServerError) && db.t == old(db.t)
    ensures Fails(fault, 2) ==>
              r == Reply(500, ServerError)
              && db.t == old(db.t).(evidence := SetStatus(old(db.t.evidence), id, current_status))
    ensures !Fails(fault, 1) && !Fails(fault, 2) ==>
              && r == Reply(200, Msg("Updated"))
              && db.t == old(db.t).(evidence := SetStatus(old(db.t.evidence), id, current_status),
                                    logs := old(db.t.logs) + [LogRow(Some(caller), id, StatusAction(current_status), now)])
  {
    if Fails(fault, 1) {
      return Reply(500, ServerError);
    }
    db.t := db.t.(evidence := SetStatus(db.t.evidence, id, current_status));
    if Fails(fault, 2) {
      return Reply(500, ServerError);
    }
    db.AppendLog(LogRow(Some(caller), id, StatusAction(current_status), now));
    r := Reply(200, Msg("Updated"));
  }

  /** What `deleteEvidence` finds before it deletes. */
  datatype Removal = Missing | UnderAnalysis | Removable

  function DeleteCheck(items: map<nat, EvidenceRow>, id: nat): (c: Removal)
    ensures c.Missing? <==> id !in items
    ensures c.UnderAnalysis? <==> id in items && items[id].current_status == Some("Under Analysis")
  {
    if id !in items then Missing
    else if items[id].current_status == Some("Under Analysis") then UnderAnalysis
    else Removable
  }

  /** `DELETE /evidence/:id`: items under analysis are kept. */
  method DeleteEvidence(db: Database, id: nat, fault: Fault) returns (r: Reply)
    requires db.Valid()
    modifies db`t
    ensures db.Valid()
    ensures match DeleteCheck(old(db.t.evidence), id)
            case Missing => r == Reply(404, Msg("Not found")) && db.t == old(db.t)
            case UnderAnalysis => r == Reply(400, Msg("Cannot delete while Under Analysis")) && db.t == old(db.t)
            case Removable =>
              if Fails(fault, 1) then r == Reply(500, ServerError) && db.t == old(db.t)
              else r == Reply(200, Msg("Deleted")) && db.t == old(db.t).(evidence := old(db.t.evidence) - {id})
  {
    match DeleteCheck(db.t.evidence, id)
    case Missing =>
      return Reply(404, Msg("Not found"));
    case UnderAnalysis =>
      return Reply(400, Msg("Cannot delete while Under Analysis"));
    case Removable =>
      if Fails(fault, 1) {
        return Reply(500, ServerError);
      }
      db.t := db.t.(evidence := db.t.evidence - {id});
      r := Reply(200, Msg("Deleted"));
  }

  /**
   * Status and deletion together: an item set to `Under Analysis` cannot
   * be deleted, and one set to any other status can; an unknown id stays
   * unknown.
   */
  lemma AnalysisBlocksDeletion(items: map<nat, EvidenceRow>, id: nat, status: Option<string>)
    ensures id !in items ==> DeleteCheck(SetStatus(items, id, status), id) == Missing
    ensures id in items ==>
              (DeleteCheck(SetStatus(items, id, status), id) == UnderAnalysis <==> status == Some("Under Analysis"))
    ensures id in items && status != Some("Under Analysis") ==>
              DeleteCheck(SetStatus(items, id, status), id) == Removable
  {
  }

  /**
   * A successful intake reads back as a collected item with the collector
   * and custodian it was given, may still be deleted, and points at a
   * location of the name it was sent with.
   */
  lemma {:induction false} IntakeReadsBack(t: Tables, nextStorage: nat, id: nat, case_id: nat, collector: Option<nat>,
                                           custodian: Option<nat>, evidence_type: string,
                                           description: Option<string>, v: JsValue, file_path: Option<string>,
                                           now: nat)
    requires KeysBelow(t.storage, nextStorage)
    ensures var (r, after) := Intake(t, nextStorage, id, case_id, collector, custodian, evidence_type, description,
                                     v, file_path, now, false);
            && r == Reply(201, Inserted(id))
            && GetEvidence(after.evidence, id).status == 200
            && DeleteCheck(after.evidence, id) == Removable
            && var item := after.evidence[id];
               && item.collected_by == collector && item.current_custodian_id == custodian
               && item.current_status == Some("Collected") && item.case_id == case_id
               && (ClassifyStorage(v).StorageName? ==>
                     && item.storage_id.Some? && item.storage_id.value >= 0
                     && item.storage_id.value as nat in after.storage
                     && after.storage[item.storage_id.value as nat].name == ClassifyStorage(v).name)
  {
    ResolutionNamesRow(t.storage, nextStorage, v);
  }
}
