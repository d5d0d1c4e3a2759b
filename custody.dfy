/**
 * The chain-of-custody services of the Flask backend
 * (DECMS_BACKEND/app/services.py).  Every evidence item starts with a
 * genesis transfer whose hash covers the item's initial hash; every later
 * transfer hashes the previous link's hash together with its own fields.
 * SHA-256 is the parameter `H`: nothing here depends on what it computes.
 */
module Custody {
  import opened Wrappers
  import opened Decimal
  import opened Text
  import opened PySession
  import opened PyMiddleware

  /** `f"{a},{rest}"`: one comma-separated field in front of the rest. */
  function Field(a: string, rest: string): string {
    a + [','] + rest
  }

  /** Hash input of the genesis link: `initial_hash,evidence_id,creator_id,custodian_id`. */
  function GenesisData(initialHash: string, e: nat, creator: nat, custodian: nat): string {
    Field(initialHash, Field(NatToString(e), Field(NatToString(creator), NatToString(custodian))))
  }

  /**
   * Hash input of a later link: `previous_hash,evidence_id,from,to,timestamp,notes`.
   * The timestamp is the session clock's reading, rendered in decimal.
   */
  function LinkData(prev: string, e: nat, from: nat, to: nat, ts: nat, notes: string): string {
    Field(prev, Field(NatToString(e), Field(NatToString(from), Field(NatToString(to), Field(NatToString(ts), notes)))))
  }

  lemma DigitsHaveNoComma(n: nat)
    ensures ',' !in NatToString(n)
  {
  }

  /** A field without commas is recovered from the front of a joined string. */
  lemma FieldSplit(a: string, b: string, c: string, d: string)
    requires ',' !in a && ',' !in c && Field(a, b) == Field(c, d)
    ensures a == c && b == d
  {
    CutAt(a, b, ',');
    CutAt(c, d, ',');
  }

  /** Of two splits of one joined string, the later comma lies inside the shorter split's tail. */
  lemma LaterComma(a: string, b: string, c: string, d: string)
    requires Field(a, b) == Field(c, d) && |c| < |a|
    ensures ',' in d
  {
    assert Field(c, d)[|a|] == Field(a, b)[|a|];
  }

  /** A field without commas is recovered from the end of a joined string. */
  lemma FieldSplitLast(a: string, b: string, c: string, d: string)
    requires ',' !in b && ',' !in d && Field(a, b) == Field(c, d)
    ensures a == c && b == d
  {
    var s := Field(a, b);
    if |c| < |a| { LaterComma(a, b, c, d); }
    if |a| < |c| { LaterComma(c, d, a, b); }
    assert a == s[..|a|] && c == s[..|c|];
    assert b == s[|a| + 1..] && d == s[|c| + 1..];
  }

  /**
   * The hash input of a link fixes the previous hash (a hex digest, so
   * without commas) and every field of the transfer except where notes end.
   */
  lemma {:induction false} LinkDataInjective(p1: string, e1: nat, f1: nat, t1: nat, ts1: nat, n1: string,
                                             p2: string, e2: nat, f2: nat, t2: nat, ts2: nat, n2: string)
    requires ',' !in p1 && ',' !in p2
    requires LinkData(p1, e1, f1, t1, ts1, n1) == LinkData(p2, e2, f2, t2, ts2, n2)
    ensures p1 == p2 && e1 == e2 && f1 == f2 && t1 == t2 && ts1 == ts2 && n1 == n2
  {
    DigitsHaveNoComma(e1); DigitsHaveNoComma(e2);
    DigitsHaveNoComma(f1); DigitsHaveNoComma(f2);
    DigitsHaveNoComma(t1); DigitsHaveNoComma(t2);
    DigitsHaveNoComma(ts1); DigitsHaveNoComma(ts2);
    var r1 := Field(NatToString(e1), Field(NatToString(f1), Field(NatToString(t1), Field(NatToString(ts1), n1))));
    var r2 := Field(NatToString(e2), Field(NatToString(f2), Field(NatToString(t2), Field(NatToString(ts2), n2))));
    FieldSplit(p1, r1, p2, r2);
    FieldSplit(NatToString(e1), Field(NatToString(f1), Field(NatToString(t1), Field(NatToString(ts1), n1))),
               NatToString(e2), Field(NatToString(f2), Field(NatToString(t2), Field(NatToString(ts2), n2))));
    FieldSplit(NatToString(f1), Field(NatToString(t1), Field(NatToString(ts1), n1)),
               NatToString(f2), Field(NatToString(t2), Field(NatToString(ts2), n2)));
    FieldSplit(NatToString(t1), Field(NatToString(ts1), n1), NatToString(t2), Field(NatToString(ts2), n2));
    FieldSplit(NatToString(ts1), n1, NatToString(ts2), n2);
    RenderInjective(e1, e2);
    RenderInjective(f1, f2);
    RenderInjective(t1, t2);
    RenderInjective(ts1, ts2);
  }

  /**
   * The genesis hash input fixes the item's initial hash, its id, its
   * creator and its custodian, whatever the caller sent as initial hash.
   */
  lemma {:induction false} GenesisDataInjective(h1: string, e1: nat, c1: nat, k1: nat,
                                                h2: string, e2: nat, c2: nat, k2: nat)
    requires GenesisData(h1, e1, c1, k1) == GenesisData(h2, e2, c2, k2)
    ensures h1 == h2 && e1 == e2 && c1 == c2 && k1 == k2
  {
    var (se1, sc1, sk1) := (NatToString(e1), NatToString(c1), NatToString(k1));
    var (se2, sc2, sk2) := (NatToString(e2), NatToString(c2), NatToString(k2));
    DigitsHaveNoComma(e1); DigitsHaveNoComma(e2);
    DigitsHaveNoComma(c1); DigitsHaveNoComma(c2);
    DigitsHaveNoComma(k1); DigitsHaveNoComma(k2);
    // The three rendered numbers hold no comma, so the fields split off from the right.
    assert GenesisData(h1, e1, c1, k1) == Field(Field(Field(h1, se1), sc1), sk1);
    assert GenesisData(h2, e2, c2, k2) == Field(Field(Field(h2, se2), sc2), sk2);
    FieldSplitLast(Field(Field(h1, se1), sc1), sk1, Field(Field(h2, se2), sc2), sk2);
    FieldSplitLast(Field(h1, se1), sc1, Field(h2, se2), sc2);
    FieldSplitLast(h1, se1, h2, se2);
    RenderInjective(e1, e2);
    RenderInjective(c1, c2);
    RenderInjective(k1, k2);
  }

  /** Index of the most recently inserted transfer of item `e`. */
  function Latest(ts: seq<Transfer>, e: nat): (r: Option<nat>)
    ensures r.Some? ==> r.value < |ts| && ts[r.value].evidence_id == e
    ensures r.Some? ==> forall k :: r.value < k < |ts| ==> ts[k].evidence_id != e
    ensures r.None? <==> forall k :: 0 <= k < |ts| ==> ts[k].evidence_id != e
  {
    if ts == [] then None
    else if ts[|ts| - 1].evidence_id == e then Some(|ts| - 1)
    else Latest(ts[..|ts| - 1], e)
  }

  /**
   * The query `order_by(transfer_timestamp.desc()).first()` finds the
   * latest inserted transfer: it carries the greatest timestamp of its item.
   */
  lemma LatestIsNewest(t: Tables, nextId: nat, clock: nat, e: nat)
    requires WellFormed(t, nextId, clock) && Latest(t.transfers, e).Some?
    ensures forall k :: 0 <= k < |t.transfers| && t.transfers[k].evidence_id == e ==>
              t.transfers[k].transfer_timestamp <= t.transfers[Latest(t.transfers, e).value].transfer_timestamp
  {
  }

  lemma LatestAppend(ts: seq<Transfer>, x: Transfer, e: nat)
    ensures Latest(ts + [x], e) == if x.evidence_id == e then Some(|ts|) else Latest(ts, e)
  {
    assert (ts + [x])[..|ts|] == ts;
  }

  /** The hash a transfer must carry: it links to its item's previous transfer, or to the item itself. */
  function ExpectedHash(items: map<nat, Item>, ts: seq<Transfer>, i: nat, H: string -> string): string
    requires i < |ts| && ts[i].evidence_id in items
  {
    var x := ts[i];
    match Latest(ts[..i], x.evidence_id)
    case None => H(GenesisData(items[x.evidence_id].initial_hash, x.evidence_id, x.from_user_id, x.to_user_id))
    case Some(j) => H(LinkData(ts[j].transfer_hash, x.evidence_id, x.from_user_id, x.to_user_id,
                               x.transfer_timestamp, x.notes))
  }

  /**
   * The custody invariant: every transfer belongs to a stored item and
   * carries the hash linking it to its predecessor, and every item has a
   * transfer whose latest recipient is its current custodian.
   */
  ghost predicate Linked(t: Tables, H: string -> string) {
    HashesLinked(t, H) && CustodyRecorded(t)
  }

  /**
   * Every transfer belongs to a stored item and carries the hash linking it
   * to its predecessor. The hash is recomputed from the stored fields, so
   * the stored timestamp is taken to be exactly the one that was hashed.
   */
  ghost predicate HashesLinked(t: Tables, H: string -> string) {
    forall i :: 0 <= i < |t.transfers| ==>
      t.transfers[i].evidence_id in t.items
      && t.transfers[i].transfer_hash == ExpectedHash(t.items, t.transfers, i, H)
  }

  /** Every item has a transfer, and the latest one's recipient is the item's current custodian. */
  ghost predicate CustodyRecorded(t: Tables) {
    forall e :: e in t.items ==>
      Latest(t.transfers, e).Some?
      && t.transfers[Latest(t.transfers, e).value].to_user_id == t.items[e].current_custodian_id
  }

  datatype PyError = ValueError | PermissionError | LookupError

  datatype Check = Refused(error: PyError) | Cleared(prev: nat)

  /** The three guards of `create_evidence_transfer`, in the order it raises. */
  function TransferCheck(t: Tables, e: nat, from: nat): (c: Check)
    ensures c == Refused(ValueError) <==> e !in t.items
    ensures c == Refused(PermissionError) <==> e in t.items && t.items[e].current_custodian_id != from
    ensures c == Refused(LookupError) <==>
              e in t.items && t.items[e].current_custodian_id == from && Latest(t.transfers, e).None?
    ensures c.Cleared? ==> Latest(t.transfers, e) == Some(c.prev)
  {
    if e !in t.items then Refused(ValueError)
    else if t.items[e].current_custodian_id != from then Refused(PermissionError)
    else match Latest(t.transfers, e)
      case None => Refused(LookupError)
      case Some(j) => Cleared(j)
  }

  /** A stored chain never lacks a genesis link, so the `LookupError` branch is dead. */
  lemma LinkedNeverLookupError(t: Tables, e: nat, from: nat, H: string -> string)
    requires Linked(t, H)
    ensures TransferCheck(t, e, from) != Refused(LookupError)
  {
  }

  function GenesisTransfer(id: nat, item: Item, creator: nat, ts: nat, H: string -> string): (x: Transfer)
    ensures x.evidence_id == id && x.from_user_id == creator && x.to_user_id == item.current_custodian_id
    ensures |x.notes| >= |item.initial_hash| && x.notes[|x.notes| - |item.initial_hash|..] == item.initial_hash
    ensures x.transfer_hash == H(GenesisData(item.initial_hash, id, creator, item.current_custodian_id))
  {
    Transfer(id, creator, item.current_custodian_id, ts, "Initial check-in. Original hash: " + item.initial_hash,
             H(GenesisData(item.initial_hash, id, creator, item.current_custodian_id)))
  }

  /** The item and its genesis transfer added to the tables. */
  function Created(t: Tables, id: nat, item: Item, creator: nat, ts: nat, H: string -> string): Tables {
    t.(items := t.items[id := item], transfers := t.transfers + [GenesisTransfer(id, item, creator, ts, H)])
  }

  function NewLink(t: Tables, e: nat, from: nat, to: nat, notes: string, ts: nat, H: string -> string): (x: Transfer)
    requires TransferCheck(t, e, from).Cleared?
    ensures x.evidence_id == e && x.from_user_id == from && x.to_user_id == to && x.transfer_timestamp == ts
    ensures Latest(t.transfers, e).Some?
    ensures x.transfer_hash == H(LinkData(t.transfers[Latest(t.transfers, e).value].transfer_hash, e, from, to, ts, notes))
  {
    var prev := t.transfers[TransferCheck(t, e, from).prev];
    Transfer(e, from, to, ts, notes, H(LinkData(prev.transfer_hash, e, from, to, ts, notes)))
  }

  /** The new link appended and the item handed to its new custodian. */
  function Transferred(t: Tables, e: nat, from: nat, to: nat, notes: string, ts: nat, H: string -> string): (r: Tables)
    requires TransferCheck(t, e, from).Cleared?
    ensures r.items.Keys == t.items.Keys
    ensures r.items[e].current_custodian_id == to && r.items[e].status == "Transferred"
    ensures |r.transfers| == |t.transfers| + 1 && r.transfers[..|t.transfers|] == t.transfers
    ensures r.audit == t.audit
  {
    t.(transfers := t.transfers + [NewLink(t, e, from, to, notes, ts, H)],
       items := t.items[e := t.items[e].(current_custodian_id := to, status := "Transferred")])
  }

  function WithAudit(t: Tables, row: AuditRow): Tables {
    t.(audit := t.audit + [row])
  }

  /** Earlier links keep their expected hash when a row is appended and items keep their initial hash. */
  lemma ExpectedHashStable(items: map<nat, Item>, ts: seq<Transfer>, items': map<nat, Item>, x: Transfer,
                           i: nat, H: string -> string)
    requires i < |ts| && ts[i].evidence_id in items && ts[i].evidence_id in items'
    requires items'[ts[i].evidence_id].initial_hash == items[ts[i].evidence_id].initial_hash
    ensures ExpectedHash(items', ts + [x], i, H) == ExpectedHash(items, ts, i, H)
  {
    assert (ts + [x])[..i] == ts[..i];
  }

  /** The tables with link `x` appended and its item stored as `v`. */
  function Appended(t: Tables, x: Transfer, v: Item): Tables {
    t.(items := t.items[x.evidence_id := v], transfers := t.transfers + [x])
  }

  /** Appending a link whose hash is the expected one keeps every link's hash, given the item keeps its own. */
  lemma {:induction false} AppendKeepsHashes(t: Tables, x: Transfer, v: Item, H: string -> string)
    requires HashesLinked(t, H)
    requires x.evidence_id in t.items ==> v.initial_hash == t.items[x.evidence_id].initial_hash
    requires x.transfer_hash == ExpectedHash(Appended(t, x, v).items, Appended(t, x, v).transfers, |t.transfers|, H)
    ensures HashesLinked(Appended(t, x, v), H)
  {
    var t' := Appended(t, x, v);
    forall i | 0 <= i < |t'.transfers|
      ensures t'.transfers[i].evidence_id in t'.items
      ensures t'.transfers[i].transfer_hash == ExpectedHash(t'.items, t'.transfers, i, H)
    {
      if i < |t.transfers| {
        ExpectedHashStable(t.items, t.transfers, t'.items, x, i, H);
      }
    }
  }

  /** Appending a link to the item's new custodian keeps every item's latest recipient its custodian. */
  lemma {:induction false} AppendKeepsCustody(t: Tables, x: Transfer, v: Item)
    requires CustodyRecorded(t) && v.current_custodian_id == x.to_user_id
    ensures CustodyRecorded(Appended(t, x, v))
  {
    var t' := Appended(t, x, v);
    forall e' | e' in t'.items
      ensures Latest(t'.transfers, e').Some?
      ensures t'.transfers[Latest(t'.transfers, e').value].to_user_id == t'.items[e'].current_custodian_id
    {
      LatestAppend(t.transfers, x, e');
    }
  }

  /** What a cleared transfer appends and changes. */
  lemma TransferredParts(t: Tables, e: nat, from: nat, to: nat, notes: string, ts: nat, H: string -> string)
    requires TransferCheck(t, e, from).Cleared?
    ensures var x := NewLink(t, e, from, to, notes, ts, H);
            var v := t.items[e].(current_custodian_id := to, status := "Transferred");
            && Transferred(t, e, from, to, notes, ts, H) == Appended(t, x, v)
            && x.transfer_hash == ExpectedHash(Appended(t, x, v).items, Appended(t, x, v).transfers, |t.transfers|, H)
  {
    var x := NewLink(t, e, from, to, notes, ts, H);
    assert (t.transfers + [x])[..|t.transfers|] == t.transfers;
  }

  /** A transfer that passes the guards keeps the chain linked and hands the item to `to`. */
  lemma {:induction false} TransferKeepsChain(t: Tables, e: nat, from: nat, to: nat, notes: string, ts: nat,
                                              H: string -> string)
    requires Linked(t, H) && TransferCheck(t, e, from).Cleared?
    ensures Linked(Transferred(t, e, from, to, notes, ts, H), H)
    ensures Transferred(t, e, from, to, notes, ts, H).items[e].current_custodian_id == to
  {
    var x := NewLink(t, e, from, to, notes, ts, H);
    var v := t.items[e].(current_custodian_id := to, status := "Transferred");
    TransferredParts(t, e, from, to, notes, ts, H);
    AppendKeepsHashes(t, x, v, H);
    AppendKeepsCustody(t, x, v);
  }

  /** What a creation appends, and the hash its genesis link carries, for an id no transfer names yet. */
  lemma GenesisParts(t: Tables, id: nat, item: Item, creator: nat, ts: nat, H: string -> string)
    requires Latest(t.transfers, id).None?
    ensures var x := GenesisTransfer(id, item, creator, ts, H);
            && Created(t, id, item, creator, ts, H) == Appended(t, x, item)
            && x.transfer_hash == ExpectedHash(Appended(t, x, item).items, Appended(t, x, item).transfers,
                                               |t.transfers|, H)
  {
    var x := GenesisTransfer(id, item, creator, ts, H);
    assert (t.transfers + [x])[..|t.transfers|] == t.transfers;
  }

  /** Creating an item with a fresh id and its genesis link keeps the chain linked. */
  lemma {:induction false} GenesisKeepsChain(t: Tables, id: nat, item: Item, creator: nat, ts: nat,
                                             H: string -> string)
    requires Linked(t, H) && id !in t.items
    ensures Linked(Created(t, id, item, creator, ts, H), H)
  {
    var x := GenesisTransfer(id, item, creator, ts, H);
    assert Latest(t.transfers, id).None? by {
      forall k | 0 <= k < |t.transfers|
        ensures t.transfers[k].evidence_id != id
      {
        assert t.transfers[k].evidence_id in t.items;
      }
    }
    GenesisParts(t, id, item, creator, ts, H);
    AppendKeepsHashes(t, x, item, H);
    AppendKeepsCustody(t, x, item);
  }

  /** Once an item has moved on, its former custodian can no longer transfer it. */
  lemma FormerCustodianRefused(t: Tables, e: nat, from: nat, to: nat, notes: string, ts: nat, H: string -> string)
    requires TransferCheck(t, e, from).Cleared? && from != to
    ensures TransferCheck(Transferred(t, e, from, to, notes, ts, H), e, from) == Refused(PermissionError)
  {
  }

  /** The next link of an item hashes the link just added, so the chain cannot be spliced. */
  lemma {:induction false} NextLinkCoversPrevious(t: Tables, e: nat, from: nat, to: nat, notes: string, ts: nat,
                                                  to2: nat, notes2: string, ts2: nat, H: string -> string)
    requires TransferCheck(t, e, from).Cleared?
    ensures var t' := Transferred(t, e, from, to, notes, ts, H);
            TransferCheck(t', e, to).Cleared?
            && NewLink(t', e, to, to2, notes2, ts2, H).transfer_hash
               == H(LinkData(NewLink(t, e, from, to, notes, ts, H).transfer_hash, e, to, to2, ts2, notes2))
  {
    var t' := Transferred(t, e, from, to, notes, ts, H);
    LatestAppend(t.transfers, NewLink(t, e, from, to, notes, ts, H), e);
  }

  // ---------------------------------------------------------------------------
  // The two services, against the session.
  // ---------------------------------------------------------------------------

  function CreateDetails(itemName: string, id: nat, caseNumber: string): string {
    "New evidence '" + itemName + "' (ID: " + NatToString(id) + ") created for Case '" + caseNumber + "'."
  }

  function TransferDetails(e: nat, from: nat, to: nat): string {
    "Evidence ID " + NatToString(e) + " transferred from user " + NatToString(from) + " to user "
      + NatToString(to) + "."
  }

  /** Steps 1 and 2 of `create_initial_evidence_entry`: the item (flushed for its id) and its genesis link. */
  method StageInitialEntry(s: Session, H: string -> string, item: Item, creatorId: nat) returns (id: nat)
    requires s.Valid()
    modifies s`work, s`nextId, s`clock
    ensures s.Valid() && s.durable == old(s.durable)
    ensures id == old(s.nextId) && id !in old(s.work.items)
    ensures s.work == Created(old(s.work), id, item, creatorId, old(s.clock), H)
  {
    id := s.AddItem(item);
    var ts := s.Now();
    s.AddTransfer(GenesisTransfer(id, item, creatorId, ts, H));
  }

  /**
   * `create_initial_evidence_entry`.  Returns the new item's id, or None
   * when storing fails (`storeFault`: the flush or the commit raises; both
   * end in the same rollback).  When the audit row fails, `log_audit`'s
   * rollback discards the staged item, the commit stores nothing, and the
   * id is returned all the same.
   */
  method CreateInitialEvidenceEntry(s: Session, H: string -> string, current: Option<UserRow>, remoteAddr: string,
                                    caseId: nat, caseNumber: string, itemName: string, description: string,
                                    evidenceType: string, initialHash: string, custodianId: nat, creatorId: nat,
                                    auditFault: bool, storeFault: bool) returns (r: Option<nat>)
    requires s.Valid()
    modifies s`work, s`durable, s`nextId, s`clock
    ensures s.Valid() && s.work == s.durable
    ensures r.None? <==> storeFault
    ensures r.Some? ==> r.value == old(s.nextId) && r.value !in old(s.work.items)
    ensures storeFault || auditFault ==> s.durable == old(s.durable)
    ensures !storeFault && !auditFault ==>
              s.durable == WithAudit(Created(old(s.work), old(s.nextId),
                                             Item(caseId, itemName, description, evidenceType, initialHash,
                                                  "Checked In", custodianId),
                                             creatorId, old(s.clock), H),
                                     AuditEntry(current, "CREATE_EVIDENCE",
                                                CreateDetails(itemName, old(s.nextId), caseNumber), remoteAddr))
  {
    var item := Item(caseId, itemName, description, evidenceType, initialHash, "Checked In", custodianId);
    var id := StageInitialEntry(s, H, item, creatorId);
    LogAudit(s, current, remoteAddr, "CREATE_EVIDENCE", CreateDetails(itemName, id, caseNumber), false, auditFault);
    var ok := s.Commit(storeFault);
    if !ok {
      s.Rollback();
      return None;
    }
    return Some(id);
  }

  /** `create_initial_evidence_entry` with the audit row isolated: an id is returned iff the item was committed. */
  method CreateInitialEvidenceEntryIsolated(s: Session, H: string -> string, current: Option<UserRow>,
                                            remoteAddr: string, caseId: nat, caseNumber: string, itemName: string,
                                            description: string, evidenceType: string, initialHash: string,
                                            custodianId: nat, creatorId: nat, auditFault: bool, storeFault: bool)
    returns (r: Option<nat>)
    requires s.Valid()
    modifies s`work, s`durable, s`nextId, s`clock
    ensures s.Valid() && s.work == s.durable
    ensures r.None? <==> storeFault
    ensures storeFault ==> s.durable == old(s.durable)
    ensures r.Some? ==> r.value == old(s.nextId) && r.value in s.durable.items
    ensures r.Some? ==>
              var created := Created(old(s.work), old(s.nextId),
                                     Item(caseId, itemName, description, evidenceType, initialHash,
                                          "Checked In", custodianId),
                                     creatorId, old(s.clock), H);
              s.durable == if auditFault then created
                           else WithAudit(created, AuditEntry(current, "CREATE_EVIDENCE",
                                                              CreateDetails(itemName, old(s.nextId), caseNumber),
                                                              remoteAddr))
  {
    var item := Item(caseId, itemName, description, evidenceType, initialHash, "Checked In", custodianId);
    var id := StageInitialEntry(s, H, item, creatorId);
    LogAuditIsolated(s, current, remoteAddr, "CREATE_EVIDENCE", CreateDetails(itemName, id, caseNumber), false,
                     auditFault);
    var ok := s.Commit(storeFault);
    if !ok {
      s.Rollback();
      return None;
    }
    return Some(id);
  }

  datatype Outcome = Raised(error: PyError) | ReturnedNone | Returned(transfer: Transfer)

  /** Steps 6 and 7 of `create_evidence_transfer`: the new link and the item's new custodian. */
  method StageTransfer(s: Session, H: string -> string, e: nat, from: nat, to: nat, notes: string, ts: nat)
    requires s.Valid() && TransferCheck(s.work, e, from).Cleared? && ts < s.clock
    requires forall i :: 0 <= i < |s.work.transfers| ==> s.work.transfers[i].transfer_timestamp < ts
    modifies s`work
    ensures s.Valid() && s.durable == old(s.durable)
    ensures s.work == Transferred(old(s.work), e, from, to, notes, ts, H)
  {
    var link := NewLink(s.work, e, from, to, notes, ts, H);
    s.AddTransfer(link);
    s.SetItem(e, s.work.items[e].(current_custodian_id := to, status := "Transferred"));
  }

  /**
   * `create_evidence_transfer`.  The guards raise before the transaction
   * starts; afterwards a failure to store (`storeFault`) is caught and
   * answered with None.  When
   * the audit row fails, `log_audit`'s rollback discards the staged link,
   * the commit stores nothing, and the link is returned all the same.
   */
  method CreateEvidenceTransfer(s: Session, H: string -> string, current: Option<UserRow>, remoteAddr: string,
                                e: nat, from: nat, to: nat, notes: string, auditFault: bool, storeFault: bool)
    returns (r: Outcome)
    requires s.Valid()
    modifies s`work, s`durable, s`clock
    ensures s.Valid()
    ensures r.Raised? <==> TransferCheck(old(s.work), e, from).Refused?
    ensures r.Raised? ==> r.error == TransferCheck(old(s.work), e, from).error
                          && s.work == old(s.work) && s.durable == old(s.durable)
    ensures !r.Raised? ==> s.work == s.durable
    ensures r.ReturnedNone? <==> TransferCheck(old(s.work), e, from).Cleared? && storeFault
    ensures r.Returned? ==> r.transfer == NewLink(old(s.work), e, from, to, notes, old(s.clock), H)
    ensures !r.Raised? && (storeFault || auditFault) ==> s.durable == old(s.durable)
    ensures r.Returned? && !auditFault ==>
              s.durable == WithAudit(Transferred(old(s.work), e, from, to, notes, old(s.clock), H),
                                     AuditEntry(current, "TRANSFER_EVIDENCE", TransferDetails(e, from, to), remoteAddr))
  {
    var check := TransferCheck(s.work, e, from);
    if check.Refused? {
      return Raised(check.error);
    }
    var ts := s.Now();
    var link := NewLink(s.work, e, from, to, notes, ts, H);
    StageTransfer(s, H, e, from, to, notes, ts);
    LogAudit(s, current, remoteAddr, "TRANSFER_EVIDENCE", TransferDetails(e, from, to), false, auditFault);
    var ok := s.Commit(storeFault);
    if !ok {
      s.Rollback();
      return ReturnedNone;
    }
    return Returned(link);
  }

  /** `create_evidence_transfer` with the audit row isolated: a link is returned iff it was committed. */
  method CreateEvidenceTransferIsolated(s: Session, H: string -> string, current: Option<UserRow>,
                                        remoteAddr: string, e: nat, from: nat, to: nat, notes: string,
                                        auditFault: bool, storeFault: bool)
    returns (r: Outcome)
    requires s.Valid()
    modifies s`work, s`durable, s`clock
    ensures s.Valid()
    ensures r.Raised? <==> TransferCheck(old(s.work), e, from).Refused?
    ensures r.Raised? ==> r.error == TransferCheck(old(s.work), e, from).error
                          && s.work == old(s.work) && s.durable == old(s.durable)
    ensures !r.Raised? ==> s.work == s.durable
    ensures r.ReturnedNone? <==> TransferCheck(old(s.work), e, from).Cleared? && storeFault
    ensures r.ReturnedNone? ==> s.durable == old(s.durable)
    ensures r.Returned? ==>
              var moved := Transferred(old(s.work), e, from, to, notes, old(s.clock), H);
              r.transfer == NewLink(old(s.work), e, from, to, notes, old(s.clock), H)
              && s.durable.transfers == old(s.work.transfers) + [r.transfer]
              && s.durable == if auditFault then moved
                              else WithAudit(moved, AuditEntry(current, "TRANSFER_EVIDENCE",
                                                               TransferDetails(e, from, to), remoteAddr))
  {
    var check := TransferCheck(s.work, e, from);
    if check.Refused? {
      return Raised(check.error);
    }
    var ts := s.Now();
    var link := NewLink(s.work, e, from, to, notes, ts, H);
    StageTransfer(s, H, e, from, to, notes, ts);
    LogAuditIsolated(s, current, remoteAddr, "TRANSFER_EVIDENCE", TransferDetails(e, from, to), false, auditFault);
    var ok := s.Commit(storeFault);
    if !ok {
      s.Rollback();
      return ReturnedNone;
    }
    return Returned(link);
  }

  /**
   * A concrete run of the service as written: an item is created, then its
   * custodian hands it on while the audit row fails.  The service returns
   * the new link although the committed transfers do not contain it.
   */
  method AuditFailureLosesTransfer() returns (r: Outcome, committed: seq<Transfer>)
    ensures r.Returned? && r.transfer !in committed
  {
    var s := new Session();
    var H := (x: string) => x;
    var created := CreateInitialEvidenceEntry(s, H, None, "10.0.0.1", 1, "CS-0001", "laptop", "", "Digital",
                                              "abc", 7, 7, false, false);
    assert created == Some(1);
    assert TransferCheck(s.work, 1, 7) == Cleared(0);
    r := CreateEvidenceTransfer(s, H, None, "10.0.0.1", 1, 7, 8, "to lab", true, false);
    committed := s.durable.transfers;
    assert |committed| == 1 && committed[0].to_user_id == 7;
  }

  /**
   * The custody invariant survives both services as written, whatever
   * fails: what they commit is either nothing new or a linked extension.
   */
  lemma {:induction false} ServicesKeepChain(t: Tables, H: string -> string, id: nat, item: Item, creator: nat,
                                             e: nat, from: nat, to: nat, notes: string, ts: nat, row: AuditRow)
    requires Linked(t, H)
    ensures id !in t.items ==> Linked(WithAudit(Created(t, id, item, creator, ts, H), row), H)
    ensures TransferCheck(t, e, from).Cleared? ==> Linked(WithAudit(Transferred(t, e, from, to, notes, ts, H), row), H)
  {
    if id !in t.items {
      GenesisKeepsChain(t, id, item, creator, ts, H);
    }
    if TransferCheck(t, e, from).Cleared? {
      TransferKeepsChain(t, e, from, to, notes, ts, H);
    }
  }
}
