/**
 The append-only ledger: recording, signing keys, batch sealing, shredding and deferred marking
 (app/services/events.py, org_signing.py, batching.py, replay.py and their repositories).

 Rows are kept in insertion order and a row's id is its position. An operation that raises leaves
 the database as it was, as the routes roll back.
 */
module Ledger {
  import opened Prelude
  import opened Crypto
  import opened Verification
  import Merkle

  datatype OrgKey = OrgKey(org: string, publicKey: PublicKey, privateKey: Option<PrivateKey>, active: bool)

  datatype Deferral = Deferral(occurredAt: Option<int>, deviceId: string, clientSignature: Signature)

  datatype EventRow = EventRow(core: EventCore, batchId: Option<nat>, deferral: Option<Deferral>)

  datatype Batch = Batch(root: Digest, signature: Signature, eventIds: seq<nat>, anchor: Option<string>)

  type PayloadId = (string, Digest)

  datatype Db = Db(
    traces: map<string, string>,
    keys: seq<OrgKey>,
    events: seq<EventRow>,
    payloadErased: map<PayloadId, bool>,
    payloadKeys: set<PayloadId>,
    batches: seq<Batch>)

  const EMPTY := Db(map[], [], [], map[], {}, [])

  datatype RecordArgs = RecordArgs(
    org: string, traceId: string, seqNo: int, kind: string, payload: string,
    policyVersion: Option<string>, now: int)

  datatype RecordError = InvalidEventType | AccessDenied | OutOfOrder(expected: int)

  // ---------------------------------------------------------------------------------------
  // Queries
  // ---------------------------------------------------------------------------------------

  function Cores(events: seq<EventRow>): (cs: seq<EventCore>)
    ensures |cs| == |events|
    ensures forall i :: 0 <= i < |cs| ==> cs[i] == events[i].core
  {
    seq(|events|, i requires 0 <= i < |events| => events[i].core)
  }

  predicate InTrace(e: EventCore, org: string, traceId: string) {
    e.org == org && e.traceId == traceId
  }

  /** Ids of one trace's events, in insertion order; `ListingIsSeqOrder` shows this is seq order. */
  function TraceIds(cores: seq<EventCore>, org: string, traceId: string): (ids: seq<nat>)
    ensures forall k :: 0 <= k < |ids| ==> ids[k] < |cores| && InTrace(cores[ids[k]], org, traceId)
    ensures forall j, k :: 0 <= j < k < |ids| ==> ids[j] < ids[k]
    ensures forall i :: 0 <= i < |cores| && InTrace(cores[i], org, traceId) ==> i in ids
  {
    if cores == [] then []
    else
      var n := |cores| - 1;
      var rest := TraceIds(cores[..n], org, traceId);
      if InTrace(cores[n], org, traceId) then rest + [n] else rest
  }

  function Pick(cores: seq<EventCore>, ids: seq<nat>): (r: seq<EventCore>)
    requires forall k :: 0 <= k < |ids| ==> ids[k] < |cores|
    ensures |r| == |ids| && forall k :: 0 <= k < |ids| ==> r[k] == cores[ids[k]]
  {
    seq(|ids|, k requires 0 <= k < |ids| => cores[ids[k]])
  }

  /** Events of a trace. */
  function TraceEvents(cores: seq<EventCore>, org: string, traceId: string): (r: seq<EventCore>)
    ensures |r| == |TraceIds(cores, org, traceId)|
  {
    Pick(cores, TraceIds(cores, org, traceId))
  }

  /** The row of a trace with the highest seq. */
  function TipRow(cores: seq<EventCore>, org: string, traceId: string): (r: Option<nat>)
    ensures r.Some? ==> r.value < |cores| && InTrace(cores[r.value], org, traceId)
    ensures r.Some? ==> forall i :: 0 <= i < |cores| && InTrace(cores[i], org, traceId) ==>
      cores[i].seqNo <= cores[r.value].seqNo
    ensures r.None? ==> forall i :: 0 <= i < |cores| ==> !InTrace(cores[i], org, traceId)
  {
    if cores == [] then None
    else
      var n := |cores| - 1;
      var rest := TipRow(cores[..n], org, traceId);
      var higher := rest.None? || cores[n].seqNo > cores[rest.value].seqNo;
      if InTrace(cores[n], org, traceId) && higher then Some(n) else rest
  }

  function NextSeq(cores: seq<EventCore>, org: string, traceId: string): int {
    var tip := TipRow(cores, org, traceId);
    if tip.Some? then cores[tip.value].seqNo + 1 else 1
  }

  function TipHash(cores: seq<EventCore>, ids: seq<nat>): Option<Digest>
    requires forall k :: 0 <= k < |ids| ==> ids[k] < |cores|
  {
    if ids == [] then None else Some(cores[ids[|ids| - 1]].hash)
  }

  /** The newest active key of an org. */
  function ActiveKey(keys: seq<OrgKey>, org: string): (r: Option<nat>)
    ensures r.Some? ==> r.value < |keys| && keys[r.value].org == org && keys[r.value].active
    ensures r.Some? ==> forall j :: r.value < j < |keys| ==> !(keys[j].org == org && keys[j].active)
    ensures r.None? ==> forall j :: 0 <= j < |keys| ==> !(keys[j].org == org && keys[j].active)
  {
    if keys == [] then None
    else
      var n := |keys| - 1;
      if keys[n].org == org && keys[n].active then Some(n) else ActiveKey(keys[..n], org)
  }

  /** The org's active key if it has one Attest can sign with, else the service key (id None). */
  function SignFor(c: Suite, service: PrivateKey, keys: seq<OrgKey>, org: string, message: Digest)
    : (Signature, Option<nat>)
  {
    var k := ActiveKey(keys, org);
    if k.Some? && keys[k.value].privateKey.Some? && keys[k.value].privateKey.value != ""
    then (c.sign(keys[k.value].privateKey.value, message), k)
    else (c.sign(service, message), None)
  }

  // ---------------------------------------------------------------------------------------
  // What each operation does to the database
  // ---------------------------------------------------------------------------------------

  function NewCore(c: Suite, service: PrivateKey, db: Db, a: RecordArgs): EventCore {
    var cores := Cores(db.events);
    var tip := TipRow(cores, a.org, a.traceId);
    var prev := if tip.Some? then Some(cores[tip.value].hash) else None;
    var payloadHash := c.hashPayload(c.redact(a.payload));
    var envelope := Envelope(Some(DEFAULT_ALGORITHM), a.traceId, a.seqNo, a.kind, payloadHash, prev,
                             a.policyVersion, a.now);
    var hash := c.hashEnvelope(envelope);
    var (signature, keyId) := SignFor(c, service, db.keys, a.org, hash);
    EventCore(a.org, a.traceId, a.seqNo, a.kind, payloadHash, envelope, prev, hash, signature,
              a.policyVersion, DEFAULT_ALGORITHM, keyId, a.now)
  }

  /** Store the payload unless this org already holds one under the hash, erased or not. */
  function PayloadStored(db: Db, id: PayloadId): Db {
    if id in db.payloadErased then db
    else db.(payloadErased := db.payloadErased[id := false], payloadKeys := db.payloadKeys + {id})
  }

  function Recorded(c: Suite, service: PrivateKey, db: Db, a: RecordArgs): Result<Db, RecordError> {
    if IsBlank(a.kind) then Err(InvalidEventType)
    else if a.traceId in db.traces && db.traces[a.traceId] != a.org then Err(AccessDenied)
    else
      var expected := NextSeq(Cores(db.events), a.org, a.traceId);
      if a.seqNo != expected then Err(OutOfOrder(expected))
      else
        var core := NewCore(c, service, db, a);
        Ok(PayloadStored(db, (a.org, core.payloadHash))
           .(traces := db.traces[a.traceId := a.org],
             events := db.events + [EventRow(core, None, None)]))
  }

  function Retired(k: OrgKey, org: string): OrgKey {
    if k.org == org && k.active then k.(active := false) else k
  }

  /** Rotation: retire every active key of the org, then add the new one. */
  function Rotated(c: Suite, db: Db, org: string, private: PrivateKey): Db {
    db.(keys := seq(|db.keys|, i requires 0 <= i < |db.keys| => Retired(db.keys[i], org))
                + [OrgKey(org, c.publicOf(private), Some(private), true)])
  }

  ghost predicate Distinct(ids: seq<nat>) {
    forall j, k :: 0 <= j < k < |ids| ==> ids[j] != ids[k]
  }

  /** What the query for unbatched events may return: each one once, oldest first, ties in any order. */
  ghost predicate UnbatchedListing(db: Db, order: seq<nat>) {
    && Distinct(order)
    && (forall k :: 0 <= k < |order| ==> order[k] < |db.events| && db.events[order[k]].batchId.None?)
    && (forall i :: 0 <= i < |db.events| && db.events[i].batchId.None? ==> i in order)
    && (forall j, k :: 0 <= j < k < |order| ==>
          db.events[order[j]].core.createdAt <= db.events[order[k]].core.createdAt)
  }

  function Hashes(events: seq<EventRow>, ids: seq<nat>): (r: seq<Digest>)
    requires forall k :: 0 <= k < |ids| ==> ids[k] < |events|
    ensures |r| == |ids| && forall k :: 0 <= k < |ids| ==> r[k] == events[ids[k]].core.hash
  {
    seq(|ids|, k requires 0 <= k < |ids| => events[ids[k]].core.hash)
  }

  function Assigned(events: seq<EventRow>, ids: seq<nat>, batch: nat): (r: seq<EventRow>)
    ensures |r| == |events|
    ensures forall i :: 0 <= i < |r| ==> r[i] == if i in ids then events[i].(batchId := Some(batch)) else events[i]
  {
    seq(|events|, i requires 0 <= i < |events| =>
      if i in ids then events[i].(batchId := Some(batch)) else events[i])
  }

  /** Seal every unbatched event into one signed batch; nothing happens when there is none. */
  ghost function Sealed(c: Suite, service: PrivateKey, db: Db, order: seq<nat>): Db
    requires UnbatchedListing(db, order)
  {
    if order == [] then db
    else
      var root := Merkle.Root(c.hashPair, Hashes(db.events, order));
      db.(events := Assigned(db.events, order, |db.batches|),
          batches := db.batches + [Batch(root, c.sign(service, root), order, None)])
  }

  function Shredded(db: Db, id: PayloadId): Db {
    if id !in db.payloadKeys then db
    else db.(payloadKeys := db.payloadKeys - {id},
             payloadErased := if id in db.payloadErased then db.payloadErased[id := true] else db.payloadErased)
  }

  /** The event an offline claim was grafted as, if there is one. */
  function FindEvent(cores: seq<EventCore>, org: string, traceId: string, seqNo: int): (r: Option<nat>)
    ensures r.Some? ==> r.value < |cores| && InTrace(cores[r.value], org, traceId) && cores[r.value].seqNo == seqNo
    ensures r.None? ==> forall i :: 0 <= i < |cores| && InTrace(cores[i], org, traceId) ==> cores[i].seqNo != seqNo
  {
    if cores == [] then None
    else
      var n := |cores| - 1;
      if InTrace(cores[n], org, traceId) && cores[n].seqNo == seqNo then Some(n)
      else FindEvent(cores[..n], org, traceId, seqNo)
  }

  function MarkedDeferred(db: Db, org: string, traceId: string, seqNo: int, d: Deferral): Db {
    var i := FindEvent(Cores(db.events), org, traceId, seqNo);
    if i.None? then db
    else db.(events := db.events[i.value := db.events[i.value].(deferral := Some(d))])
  }

  function Anchored(db: Db, batch: nat, token: string): Db {
    if batch < |db.batches| && db.batches[batch].anchor.None?
    then db.(batches := db.batches[batch := db.batches[batch].(anchor := Some(token))])
    else db
  }

  // ---------------------------------------------------------------------------------------
  // Runs
  // ---------------------------------------------------------------------------------------

  datatype Op =
    | Record(args: RecordArgs)
    | Provision(org: string, private: PrivateKey)
    | Seal(order: seq<nat>)
    | ShredPayload(id: PayloadId)
    | Defer(org: string, traceId: string, seqNo: int, deferral: Deferral)
    | AnchorBatch(batch: nat, token: string)

  ghost function Step(c: Suite, service: PrivateKey, db: Db, op: Op): Db {
    match op
    case Record(a) =>
      var r := Recorded(c, service, db, a);
      if r.Ok? then r.value else db
    case Provision(org, private) => Rotated(c, db, org, private)
    case Seal(order) => if UnbatchedListing(db, order) then Sealed(c, service, db, order) else db
    case ShredPayload(id) => Shredded(db, id)
    case Defer(org, traceId, seqNo, d) => MarkedDeferred(db, org, traceId, seqNo, d)
    case AnchorBatch(batch, token) => Anchored(db, batch, token)
  }

  ghost function Run(c: Suite, service: PrivateKey, ops: seq<Op>): Db {
    if ops == [] then EMPTY else Step(c, service, Run(c, service, ops[..|ops| - 1]), ops[|ops| - 1])
  }

  // ---------------------------------------------------------------------------------------
  // The invariant
  // ---------------------------------------------------------------------------------------

  ghost predicate KeyOk(c: Suite, k: OrgKey) {
    k.privateKey.Some? ==> k.publicKey == c.publicOf(k.privateKey.value)
  }

  /** Who signed an event: the service, or the org key its row names, active or retired. */
  ghost predicate SignedBy(service: PrivateKey, keys: seq<OrgKey>, e: EventCore, signer: PrivateKey) {
    if e.signingKeyId.None? then signer == service
    else
      && e.signingKeyId.value < |keys|
      && keys[e.signingKeyId.value].privateKey == Some(signer)
  }

  ghost predicate CoreOk(c: Suite, service: PrivateKey, keys: seq<OrgKey>, e: EventCore) {
    && e.alg == DEFAULT_ALGORITHM
    && e.envelope == Envelope(Some(DEFAULT_ALGORITHM), e.traceId, e.seqNo, e.kind, e.payloadHash,
                              e.prevHash, e.policyVersion, e.createdAt)
    && e.hash == c.hashEnvelope(e.envelope)
    && exists signer :: SignedBy(service, keys, e, signer) && e.signature == c.sign(signer, e.hash)
  }

  /** Event i continues the trace as it stood when the event was recorded. */
  ghost predicate LinkedAt(cores: seq<EventCore>, i: nat)
    requires i < |cores|
  {
    var prior := TraceIds(cores[..i], cores[i].org, cores[i].traceId);
    cores[i].seqNo == |prior| + 1 && cores[i].prevHash == TipHash(cores[..i], prior)
  }

  ghost predicate Linked(cores: seq<EventCore>) {
    forall i :: 0 <= i < |cores| ==> LinkedAt(cores, i)
  }

  ghost predicate BatchOk(c: Suite, service: PrivateKey, events: seq<EventRow>, batches: seq<Batch>, b: nat)
    requires b < |batches|
  {
    var ids := batches[b].eventIds;
    && ids != [] && Distinct(ids)
    && (forall k :: 0 <= k < |ids| ==> ids[k] < |events| && events[ids[k]].batchId == Some(b))
    && batches[b].root == Merkle.Root(c.hashPair, Hashes(events, ids))
    && batches[b].signature == c.sign(service, batches[b].root)
  }

  /** Batches and the events assigned to them name each other. */
  ghost predicate BatchesOk(c: Suite, service: PrivateKey, events: seq<EventRow>, batches: seq<Batch>) {
    && (forall b :: 0 <= b < |batches| ==> BatchOk(c, service, events, batches, b))
    && (forall i :: 0 <= i < |events| && events[i].batchId.Some? ==>
          && events[i].batchId.value < |batches|
          && i in batches[events[i].batchId.value].eventIds)
  }

  ghost predicate Inv(c: Suite, service: PrivateKey, db: Db) {
    && (forall j :: 0 <= j < |db.keys| ==> KeyOk(c, db.keys[j]))
    && (forall i :: 0 <= i < |db.events| ==> CoreOk(c, service, db.keys, db.events[i].core))
    && Linked(Cores(db.events))
    && BatchesOk(c, service, db.events, db.batches)
    && (forall i :: 0 <= i < |db.events| ==>
          && db.events[i].core.traceId in db.traces
          && db.traces[db.events[i].core.traceId] == db.events[i].core.org)
  }

  lemma LinkedExtends(cores: seq<EventCore>, e: EventCore)
    requires Linked(cores)
    requires LinkedAt(cores + [e], |cores|)
    ensures Linked(cores + [e])
  {
    forall i | 0 <= i < |cores + [e]|
      ensures LinkedAt(cores + [e], i)
    {
      if i < |cores| {
        assert (cores + [e])[..i] == cores[..i];
        assert LinkedAt(cores, i);
      }
    }
  }

  lemma NewCoreOk(c: Suite, service: PrivateKey, db: Db, a: RecordArgs)
    ensures CoreOk(c, service, db.keys, NewCore(c, service, db, a))
  {
    var core := NewCore(c, service, db, a);
    var k := ActiveKey(db.keys, a.org);
    if k.Some? && db.keys[k.value].privateKey.Some? && db.keys[k.value].privateKey.value != "" {
      assert SignedBy(service, db.keys, core, db.keys[k.value].privateKey.value);
    } else {
      assert SignedBy(service, db.keys, core, service);
    }
  }

  /** Batches depend on the hashes and batch assignment of existing rows only. */
  lemma {:induction false} BatchFrame(c: Suite, service: PrivateKey, before: seq<EventRow>, after: seq<EventRow>,
                   batches: seq<Batch>, batches': seq<Batch>, b: nat)
    requires b < |batches| && b < |batches'| && |before| <= |after|
    requires batches'[b].(anchor := None) == batches[b].(anchor := None)
    requires BatchOk(c, service, before, batches, b)
    requires forall i :: 0 <= i < |before| ==> after[i].core == before[i].core
    requires forall i :: 0 <= i < |before| && before[i].batchId.Some? ==> after[i].batchId == before[i].batchId
    ensures BatchOk(c, service, after, batches', b)
  {
    var ids := batches[b].eventIds;
    assert Hashes(after, ids) == Hashes(before, ids);
  }

  /** New unbatched rows, deferral marks and anchors leave the batches as they were. */
  lemma BatchesFrame(c: Suite, service: PrivateKey, before: seq<EventRow>, after: seq<EventRow>,
                     batches: seq<Batch>, batches': seq<Batch>)
    requires |batches| == |batches'| && |before| <= |after|
    requires BatchesOk(c, service, before, batches)
    requires forall b :: 0 <= b < |batches| ==> batches'[b].(anchor := None) == batches[b].(anchor := None)
    requires forall i :: 0 <= i < |before| ==> after[i].core == before[i].core && after[i].batchId == before[i].batchId
    requires forall i :: |before| <= i < |after| ==> after[i].batchId.None?
    ensures BatchesOk(c, service, after, batches')
  {
    forall b | 0 <= b < |batches'|
      ensures BatchOk(c, service, after, batches', b)
    {
      BatchFrame(c, service, before, after, batches, batches', b);
    }
    forall i | 0 <= i < |after| && after[i].batchId.Some?
      ensures after[i].batchId.value < |batches'| && i in batches'[after[i].batchId.value].eventIds
    {
      assert batches'[before[i].batchId.value].eventIds == batches[before[i].batchId.value].(anchor := None).eventIds;
    }
  }

  lemma RecordedCores(c: Suite, service: PrivateKey, db: Db, a: RecordArgs)
    requires Inv(c, service, db) && Recorded(c, service, db, a).Ok?
    ensures var db' := Recorded(c, service, db, a).value;
            && (forall i :: 0 <= i < |db'.events| ==> CoreOk(c, service, db'.keys, db'.events[i].core))
            && (forall i :: 0 <= i < |db'.events| ==>
                  && db'.events[i].core.traceId in db'.traces
                  && db'.traces[db'.events[i].core.traceId] == db'.events[i].core.org)
  {
    NewCoreOk(c, service, db, a);
    var db' := Recorded(c, service, db, a).value;
    assert forall i :: 0 <= i < |db.events| ==> db'.events[i] == db.events[i];
  }

  lemma RecordedLinks(c: Suite, service: PrivateKey, db: Db, a: RecordArgs)
    requires Linked(Cores(db.events)) && Recorded(c, service, db, a).Ok?
    ensures Linked(Cores(Recorded(c, service, db, a).value.events))
  {
    var core := NewCore(c, service, db, a);
    var cores := Cores(db.events);
    assert Cores(Recorded(c, service, db, a).value.events) == cores + [core];
    assert (cores + [core])[..|cores|] == cores;
    TipRowIsLast(cores, a.org, a.traceId);
    LinkedExtends(cores, core);
  }

  /** In a linked ledger the highest seq is that of the last event recorded, and counts the trace. */
  lemma {:induction false} TipRowIsLast(cores: seq<EventCore>, org: string, traceId: string)
    requires Linked(cores)
    ensures var ids := TraceIds(cores, org, traceId);
            && TipRow(cores, org, traceId) == (if ids == [] then None else Some(ids[|ids| - 1]))
            && NextSeq(cores, org, traceId) == |ids| + 1
  {
    var ids := TraceIds(cores, org, traceId);
    var tip := TipRow(cores, org, traceId);
    if ids != [] {
      var last := |ids| - 1;
      assert InTrace(cores[ids[last]], org, traceId);
      assert tip.Some? && tip.value in ids;
      var k :| 0 <= k < |ids| && ids[k] == tip.value;
      SeqOfListed(cores, org, traceId, last);
      SeqOfListed(cores, org, traceId, k);
    }
  }

  lemma {:induction false} SeqOfListed(cores: seq<EventCore>, org: string, traceId: string, k: nat)
    requires Linked(cores) && k < |TraceIds(cores, org, traceId)|
    ensures cores[TraceIds(cores, org, traceId)[k]].seqNo == k + 1
  {
    ListingIsSeqOrder(cores, org, traceId, k);
  }

  lemma RecordKeepsInv(c: Suite, service: PrivateKey, db: Db, a: RecordArgs)
    requires Inv(c, service, db) && Recorded(c, service, db, a).Ok?
    ensures Inv(c, service, Recorded(c, service, db, a).value)
  {
    var db' := Recorded(c, service, db, a).value;
    RecordedCores(c, service, db, a);
    RecordedLinks(c, service, db, a);
    BatchesFrame(c, service, db.events, db'.events, db.batches, db'.batches);
  }

  lemma ProvisionKeepsInv(c: Suite, service: PrivateKey, db: Db, org: string, private: PrivateKey)
    requires Inv(c, service, db)
    ensures Inv(c, service, Rotated(c, db, org, private))
  {
    var db' := Rotated(c, db, org, private);
    forall j | 0 <= j < |db'.keys|
      ensures KeyOk(c, db'.keys[j])
    {
      if j < |db.keys| {
        assert KeyOk(c, db.keys[j]);
      }
    }
    forall i | 0 <= i < |db.events|
      ensures CoreOk(c, service, db'.keys, db'.events[i].core)
    {
      var e := db.events[i].core;
      assert CoreOk(c, service, db.keys, e);
      var signer :| SignedBy(service, db.keys, e, signer) && e.signature == c.sign(signer, e.hash);
      assert SignedBy(service, db'.keys, e, signer);
    }
  }

  /** Events and batches name each other again once `order` is sealed as a new batch. */
  lemma SealedNamed(events: seq<EventRow>, batches: seq<Batch>, order: seq<nat>, sealing: Batch, i: nat)
    requires i < |events| && sealing.eventIds == order
    requires events[i].batchId.Some? ==>
      events[i].batchId.value < |batches| && i in batches[events[i].batchId.value].eventIds
    ensures var e := Assigned(events, order, |batches|)[i];
            e.batchId.Some? ==>
              && e.batchId.value < |batches + [sealing]|
              && i in (batches + [sealing])[e.batchId.value].eventIds
  {
  }

  lemma {:induction false} NewBatchOk(c: Suite, service: PrivateKey, events: seq<EventRow>, batches: seq<Batch>,
                                      order: seq<nat>)
    requires Distinct(order) && order != [] && forall k :: 0 <= k < |order| ==> order[k] < |events|
    ensures var root := Merkle.Root(c.hashPair, Hashes(events, order));
            BatchOk(c, service, Assigned(events, order, |batches|),
                    batches + [Batch(root, c.sign(service, root), order, None)], |batches|)
  {
    assert Hashes(Assigned(events, order, |batches|), order) == Hashes(events, order);
  }

  lemma SealedBatchesOk(c: Suite, service: PrivateKey, events: seq<EventRow>, batches: seq<Batch>, order: seq<nat>)
    requires BatchesOk(c, service, events, batches) && Distinct(order) && order != []
    requires forall k :: 0 <= k < |order| ==> order[k] < |events| && events[order[k]].batchId.None?
    ensures var root := Merkle.Root(c.hashPair, Hashes(events, order));
            BatchesOk(c, service, Assigned(events, order, |batches|),
                      batches + [Batch(root, c.sign(service, root), order, None)])
  {
    var events' := Assigned(events, order, |batches|);
    var root := Merkle.Root(c.hashPair, Hashes(events, order));
    var batches' := batches + [Batch(root, c.sign(service, root), order, None)];
    forall b | 0 <= b < |batches'|
      ensures BatchOk(c, service, events', batches', b)
    {
      if b < |batches| {
        BatchFrame(c, service, events, events', batches, batches', b);
      } else {
        NewBatchOk(c, service, events, batches, order);
      }
    }
    forall i | 0 <= i < |events'| && events'[i].batchId.Some?
      ensures events'[i].batchId.value < |batches'| && i in batches'[events'[i].batchId.value].eventIds
    {
      SealedNamed(events, batches, order, batches'[|batches|], i);
    }
  }

  lemma {:induction false} SealKeepsInv(c: Suite, service: PrivateKey, db: Db, order: seq<nat>)
    requires Inv(c, service, db) && UnbatchedListing(db, order)
    ensures Inv(c, service, Sealed(c, service, db, order))
  {
    var db' := Sealed(c, service, db, order);
    if order != [] {
      assert Cores(db'.events) == Cores(db.events);
      SealedBatchesOk(c, service, db.events, db.batches, order);
    }
  }

  lemma {:induction false} MarkDeferredKeepsInv(c: Suite, service: PrivateKey, db: Db, org: string, traceId: string,
                                                seqNo: int,
                             d: Deferral)
    requires Inv(c, service, db)
    ensures Inv(c, service, MarkedDeferred(db, org, traceId, seqNo, d))
  {
    var db' := MarkedDeferred(db, org, traceId, seqNo, d);
    assert Cores(db'.events) == Cores(db.events);
    BatchesFrame(c, service, db.events, db'.events, db.batches, db'.batches);
  }

  lemma AnchorKeepsInv(c: Suite, service: PrivateKey, db: Db, batch: nat, token: string)
    requires Inv(c, service, db)
    ensures Inv(c, service, Anchored(db, batch, token))
  {
    var db' := Anchored(db, batch, token);
    BatchesFrame(c, service, db.events, db'.events, db.batches, db'.batches);
  }

  lemma StepKeepsInv(c: Suite, service: PrivateKey, db: Db, op: Op)
    requires Inv(c, service, db)
    ensures Inv(c, service, Step(c, service, db, op))
  {
    match op
    case Record(a) =>
      if Recorded(c, service, db, a).Ok? {
        RecordKeepsInv(c, service, db, a);
      }
    case Provision(org, private) => ProvisionKeepsInv(c, service, db, org, private);
    case Seal(order) =>
      if UnbatchedListing(db, order) {
        SealKeepsInv(c, service, db, order);
      }
    case ShredPayload(id) =>
    case Defer(org, traceId, seqNo, d) => MarkDeferredKeepsInv(c, service, db, org, traceId, seqNo, d);
    case AnchorBatch(batch, token) => AnchorKeepsInv(c, service, db, batch, token);
  }

  lemma {:induction false} ReachableInv(c: Suite, service: PrivateKey, ops: seq<Op>)
    ensures Inv(c, service, Run(c, service, ops))
    decreases |ops|
  {
    if ops != [] {
      ReachableInv(c, service, ops[..|ops| - 1]);
      StepKeepsInv(c, service, Run(c, service, ops[..|ops| - 1]), ops[|ops| - 1]);
    }
  }

  // ---------------------------------------------------------------------------------------
  // The chain invariant, read off a trace listing
  // ---------------------------------------------------------------------------------------

  /** What a trace held just before its k-th event was recorded is its first k events. */
  lemma {:induction false} PriorIsPrefix(cores: seq<EventCore>, org: string, traceId: string, k: nat)
    requires k < |TraceIds(cores, org, traceId)|
    ensures TraceIds(cores[..TraceIds(cores, org, traceId)[k]], org, traceId) == TraceIds(cores, org, traceId)[..k]
    decreases |cores|
  {
    var n := |cores| - 1;
    var ids := TraceIds(cores, org, traceId);
    var rest := TraceIds(cores[..n], org, traceId);
    if k < |rest| {
      PriorIsPrefix(cores[..n], org, traceId, k);
      assert cores[..n][..ids[k]] == cores[..ids[k]];
      assert ids[..k] == rest[..k];
    } else {
      assert ids[..k] == rest;
    }
  }

  ghost predicate ListedAt(events: seq<EventCore>, k: nat)
    requires k < |events|
  {
    events[k].seqNo == k + 1 && events[k].prevHash == PrevOf(events, k)
  }

  /** In a linked ledger a trace lists as seq 1..n, each event naming its predecessor's hash. */
  lemma ListingIsSeqOrder(cores: seq<EventCore>, org: string, traceId: string, k: nat)
    requires Linked(cores) && k < |TraceEvents(cores, org, traceId)|
    ensures ListedAt(TraceEvents(cores, org, traceId), k)
  {
    assert LinkedAt(cores, TraceIds(cores, org, traceId)[k]);
    PriorIsPrefix(cores, org, traceId, k);
  }

  /** Replay's resolver: the org key the row names, else the service key. */
  function Resolve(c: Suite, service: PrivateKey, keys: seq<OrgKey>): EventCore -> Option<PublicKey> {
    (e: EventCore) =>
      if e.signingKeyId.None? then Some(c.publicOf(service))
      else if e.signingKeyId.value < |keys| then Some(keys[e.signingKeyId.value].publicKey)
      else None
  }

  /** An event checks out under the key its row names, given its own predecessor hash. */
  lemma OwnKeyVerifies(c: Suite, service: PrivateKey, keys: seq<OrgKey>, e: EventCore)
    requires SignedVerifies(c) && CoreOk(c, service, keys, e)
    requires forall j :: 0 <= j < |keys| ==> KeyOk(c, keys[j])
    ensures Resolve(c, service, keys)(e).Some?
    ensures VerifySingleEvent(c, e, Resolve(c, service, keys)(e).value, e.prevHash).verified
  {
    var signer :| SignedBy(service, keys, e, signer) && e.signature == c.sign(signer, e.hash);
    if e.signingKeyId.Some? {
      assert KeyOk(c, keys[e.signingKeyId.value]);
    }
    assert Resolve(c, service, keys)(e) == Some(c.publicOf(signer));
    assert Rebuilt(e) == e.envelope;
  }

  lemma {:induction false} InvChainVerifies(c: Suite, service: PrivateKey, db: Db, org: string, traceId: string)
    requires SignedVerifies(c) && Inv(c, service, db)
    ensures ChainVerifies(c, TraceEvents(Cores(db.events), org, traceId), Resolve(c, service, db.keys))
  {
    var cores := Cores(db.events);
    var events := TraceEvents(cores, org, traceId);
    forall k | 0 <= k < |events|
      ensures VerifiesAt(c, events, Resolve(c, service, db.keys), k)
    {
      assert events[k] == db.events[TraceIds(cores, org, traceId)[k]].core;
      OwnKeyVerifies(c, service, db.keys, events[k]);
      ListingIsSeqOrder(cores, org, traceId, k);
    }
  }

  /**
   Whatever was appended, rotated, sealed, shredded, deferred or anchored, in any order, every trace
   holds seq 1..n and replays as fully verified, events signed by retired keys included.
   */
  lemma ChainInvariant(c: Suite, service: PrivateKey, ops: seq<Op>, org: string, traceId: string)
    requires SignedVerifies(c)
    ensures var db := Run(c, service, ops);
            var events := TraceEvents(Cores(db.events), org, traceId);
            && ChainVerifies(c, events, Resolve(c, service, db.keys))
            && forall k :: 0 <= k < |events| ==> events[k].seqNo == k + 1
  {
    var db := Run(c, service, ops);
    var events := TraceEvents(Cores(db.events), org, traceId);
    ReachableInv(c, service, ops);
    InvChainVerifies(c, service, db, org, traceId);
    forall k | 0 <= k < |events|
      ensures events[k].seqNo == k + 1
    {
      ListingIsSeqOrder(Cores(db.events), org, traceId, k);
    }
  }

  /** Recorded history is never rewritten: a longer run extends the signed columns of a shorter one. */
  lemma {:induction false} AppendOnly(c: Suite, service: PrivateKey, ops: seq<Op>, more: seq<Op>)
    ensures Cores(Run(c, service, ops).events) <= Cores(Run(c, service, ops + more).events)
    decreases |more|
  {
    if more == [] {
      assert ops + more == ops;
    } else {
      var n := |more| - 1;
      AppendOnly(c, service, ops, more[..n]);
      assert (ops + more)[..|ops + more| - 1] == ops + more[..n];
      StepExtends(c, service, Run(c, service, ops + more[..n]), more[n]);
    }
  }

  lemma StepExtends(c: Suite, service: PrivateKey, db: Db, op: Op)
    ensures Cores(db.events) <= Cores(Step(c, service, db, op).events)
  {
  }

  // ---------------------------------------------------------------------------------------
  // What each operation leaves
  // ---------------------------------------------------------------------------------------

  /** Key k is the newest active one of the org, and Attest holds its private half. */
  ghost predicate SigningKey(keys: seq<OrgKey>, org: string, k: nat) {
    && k < |keys| && keys[k].org == org && keys[k].active
    && keys[k].privateKey.Some? && keys[k].privateKey.value != ""
    && forall j :: k < j < |keys| ==> !(keys[j].org == org && keys[j].active)
  }

  /** The columns of a newly recorded row. */
  ghost predicate RowRecords(c: Suite, service: PrivateKey, keys: seq<OrgKey>, a: RecordArgs, row: EventRow) {
    var e := row.core;
    && row.batchId.None? && row.deferral.None?
    && e.org == a.org && e.traceId == a.traceId && e.seqNo == a.seqNo && e.kind == a.kind
    && e.policyVersion == a.policyVersion && e.createdAt == a.now && e.alg == "sha256-ed25519-v1"
    && e.payloadHash == c.hashPayload(c.redact(a.payload))
    && e.hash == c.hashEnvelope(Envelope(Some("sha256-ed25519-v1"), a.traceId, a.seqNo, a.kind, e.payloadHash,
                                         e.prevHash, a.policyVersion, a.now))
    && (forall k: nat :: SigningKey(keys, a.org, k) ==>
          e.signingKeyId == Some(k) && e.signature == c.sign(keys[k].privateKey.value, e.hash))
    && ((forall k: nat :: !SigningKey(keys, a.org, k)) ==>
          e.signingKeyId == None && e.signature == c.sign(service, e.hash))
  }

  lemma RowRecordsArgs(c: Suite, service: PrivateKey, db: Db, a: RecordArgs)
    ensures RowRecords(c, service, db.keys, a, EventRow(NewCore(c, service, db, a), None, None))
  {
    var k := ActiveKey(db.keys, a.org);
    forall j: nat | SigningKey(db.keys, a.org, j)
      ensures k == Some(j)
    {
    }
    if k.Some? && db.keys[k.value].privateKey.Some? && db.keys[k.value].privateKey.value != "" {
      assert SigningKey(db.keys, a.org, k.value);
    }
  }

  /** One row that records what was passed, linked to `prev`; its payload is held under its hash, as it was if known. */
  ghost predicate AddsRow(c: Suite, service: PrivateKey, db: Db, a: RecordArgs, db': Db, prev: Option<Digest>) {
    var n := |db.events|;
    && |db'.events| == n + 1 && db'.events[..n] == db.events
    && db'.traces == db.traces[a.traceId := a.org] && db'.keys == db.keys && db'.batches == db.batches
    && RowRecords(c, service, db.keys, a, db'.events[n]) && db'.events[n].core.prevHash == prev
    && var id := (a.org, db'.events[n].core.payloadHash);
       if id in db.payloadErased then db'.payloadErased == db.payloadErased && db'.payloadKeys == db.payloadKeys
       else db'.payloadErased == db.payloadErased[id := false] && db'.payloadKeys == db.payloadKeys + {id}
  }

  /**
   In every reachable database: an event is refused for a blank type, another organisation's trace, or any number
   but one more than the trace's events. Otherwise one row is added that carries what was passed, links to the
   trace's last event, and is signed with the organisation's newest active key or else the service key; its
   payload is held under its hash, as it was if it was known.
   */
  lemma {:induction false} RecordExactly(c: Suite, service: PrivateKey, ops: seq<Op>, a: RecordArgs)
    ensures var db := Run(c, service, ops);
            RecordsOrRefuses(c, service, db, a, TraceEvents(Cores(db.events), a.org, a.traceId))
  {
    ReachableInv(c, service, ops);
    LinkedRecords(c, service, Run(c, service, ops), a);
  }

  /** What recording does, told from the trace's events. */
  ghost predicate RecordsOrRefuses(c: Suite, service: PrivateKey, db: Db, a: RecordArgs, listing: seq<EventCore>) {
    var r := Recorded(c, service, db, a);
    var foreign := a.traceId in db.traces && db.traces[a.traceId] != a.org;
    && (r == Err(InvalidEventType) <==> IsBlank(a.kind))
    && (r == Err(AccessDenied) <==> !IsBlank(a.kind) && foreign)
    && (r == Err(OutOfOrder(|listing| + 1)) <==> !IsBlank(a.kind) && !foreign && a.seqNo != |listing| + 1)
    && (r.Ok? <==> !IsBlank(a.kind) && !foreign && a.seqNo == |listing| + 1)
    && (r.Ok? ==> AddsRow(c, service, db, a, r.value,
                          if listing == [] then None else Some(listing[|listing| - 1].hash)))
  }

  lemma {:induction false} LinkedRecords(c: Suite, service: PrivateKey, db: Db, a: RecordArgs)
    requires Linked(Cores(db.events))
    ensures RecordsOrRefuses(c, service, db, a, TraceEvents(Cores(db.events), a.org, a.traceId))
  {
    TipOfListing(Cores(db.events), a.org, a.traceId);
    RefusedExactly(c, service, db, a);
    if Recorded(c, service, db, a).Ok? {
      RecordedAdds(c, service, db, a);
    }
  }

  lemma {:induction false} TipOfListing(cores: seq<EventCore>, org: string, traceId: string)
    requires Linked(cores)
    ensures var tip, listing := TipRow(cores, org, traceId), TraceEvents(cores, org, traceId);
            && NextSeq(cores, org, traceId) == |listing| + 1
            && (tip == None <==> listing == [])
            && (tip.Some? ==> listing[|listing| - 1].hash == cores[tip.value].hash)
  {
    TipRowIsLast(cores, org, traceId);
    LastListed(cores, org, traceId);
  }

  lemma {:induction false} LastListed(cores: seq<EventCore>, org: string, traceId: string)
    ensures var ids, listing := TraceIds(cores, org, traceId), TraceEvents(cores, org, traceId);
            |listing| == |ids| && (ids != [] ==> listing[|ids| - 1] == cores[ids[|ids| - 1]])
  {
  }

  lemma RefusedExactly(c: Suite, service: PrivateKey, db: Db, a: RecordArgs)
    ensures var r, next := Recorded(c, service, db, a), NextSeq(Cores(db.events), a.org, a.traceId);
            var foreign := a.traceId in db.traces && db.traces[a.traceId] != a.org;
            && (r == Err(InvalidEventType) <==> IsBlank(a.kind))
            && (r == Err(AccessDenied) <==> !IsBlank(a.kind) && foreign)
            && (r == Err(OutOfOrder(next)) <==> !IsBlank(a.kind) && !foreign && a.seqNo != next)
            && (r.Ok? <==> !IsBlank(a.kind) && !foreign && a.seqNo == next)
  {
  }

  lemma RecordedAdds(c: Suite, service: PrivateKey, db: Db, a: RecordArgs)
    requires Recorded(c, service, db, a).Ok?
    ensures var tip := TipRow(Cores(db.events), a.org, a.traceId);
            AddsRow(c, service, db, a, Recorded(c, service, db, a).value,
                    if tip == None then None else Some(Cores(db.events)[tip.value].hash))
  {
    RowRecordsArgs(c, service, db, a);
  }

  /** Some event of this organisation has this payload. */
  ghost predicate HasPayload(cores: seq<EventCore>, id: PayloadId) {
    exists i :: 0 <= i < |cores| && cores[i].org == id.0 && cores[i].payloadHash == id.1
  }

  /** The payload was shredded after an event with it was recorded. */
  ghost predicate ShreddedSince(c: Suite, service: PrivateKey, ops: seq<Op>, id: PayloadId) {
    exists j :: 0 <= j < |ops| && ops[j] == ShredPayload(id)
                && HasPayload(Cores(Run(c, service, ops[..j]).events), id)
  }

  /** A payload is held exactly if an event has it; its key is there until it is marked erased. */
  ghost predicate PayloadOk(db: Db, id: PayloadId, erased: bool) {
    && (id in db.payloadErased <==> HasPayload(Cores(db.events), id))
    && (id in db.payloadErased ==> db.payloadErased[id] == erased)
    && (id in db.payloadKeys <==> id in db.payloadErased && !erased)
  }

  lemma PayloadStep(c: Suite, service: PrivateKey, db: Db, op: Op, id: PayloadId, erased: bool)
    requires PayloadOk(db, id, erased) && (erased ==> HasPayload(Cores(db.events), id))
    ensures PayloadOk(Step(c, service, db, op), id,
                      erased || (op == ShredPayload(id) && HasPayload(Cores(db.events), id)))
  {
    if op.Record? && Recorded(c, service, db, op.args).Ok? {
      RecordPayload(c, service, db, op.args, id, erased);
    } else {
      assert Cores(Step(c, service, db, op).events) == Cores(db.events);
    }
  }

  lemma RecordPayload(c: Suite, service: PrivateKey, db: Db, a: RecordArgs, id: PayloadId, erased: bool)
    requires PayloadOk(db, id, erased) && (erased ==> HasPayload(Cores(db.events), id))
    requires Recorded(c, service, db, a).Ok?
    ensures PayloadOk(Recorded(c, service, db, a).value, id, erased)
  {
    var db' := Recorded(c, service, db, a).value;
    assert Cores(db'.events) == Cores(db.events) + [NewCore(c, service, db, a)];
    HasPayloadMore(Cores(db.events), NewCore(c, service, db, a), id);
  }

  lemma HasPayloadMore(cores: seq<EventCore>, e: EventCore, id: PayloadId)
    ensures HasPayload(cores + [e], id) <==> HasPayload(cores, id) || (e.org == id.0 && e.payloadHash == id.1)
  {
    if HasPayload(cores, id) {
      var i :| 0 <= i < |cores| && cores[i].org == id.0 && cores[i].payloadHash == id.1;
      assert (cores + [e])[i] == cores[i];
    }
    assert (cores + [e])[|cores|] == e;
  }

  /**
   Over every run, of any payload: it is held exactly if some event recorded it; it is marked erased, and its key
   gone, exactly if it was shredded since; recording the same content again does not bring the key back.
   */
  lemma {:induction false} ErasedExactly(c: Suite, service: PrivateKey, ops: seq<Op>, id: PayloadId)
    ensures PayloadOk(Run(c, service, ops), id, ShreddedSince(c, service, ops, id))
    ensures ShreddedSince(c, service, ops, id) ==> HasPayload(Cores(Run(c, service, ops).events), id)
    decreases |ops|
  {
    if ops != [] {
      var n := |ops| - 1;
      var db := Run(c, service, ops[..n]);
      ErasedExactly(c, service, ops[..n], id);
      PayloadStep(c, service, db, ops[n], id, ShreddedSince(c, service, ops[..n], id));
      ShreddedStep(c, service, ops, id);
    }
  }

  lemma ShreddedStep(c: Suite, service: PrivateKey, ops: seq<Op>, id: PayloadId)
    requires ops != []
    ensures var n := |ops| - 1;
            ShreddedSince(c, service, ops, id) <==>
              || ShreddedSince(c, service, ops[..n], id)
              || (ops[n] == ShredPayload(id) && HasPayload(Cores(Run(c, service, ops[..n]).events), id))
  {
    var n := |ops| - 1;
    forall j | 0 <= j < n
      ensures ops[..n][j] == ops[j] && ops[..n][..j] == ops[..j]
    {
    }
  }

  /** A new key: it alone of the organisation's is active; nothing else about any key, and nothing else, moves. */
  lemma ProvisionExactly(c: Suite, service: PrivateKey, db: Db, org: string, private: PrivateKey)
    ensures var db', n := Step(c, service, db, Provision(org, private)), |db.keys|;
            && db' == db.(keys := db'.keys) && |db'.keys| == n + 1
            && (forall j :: 0 <= j < n ==>
                  && db'.keys[j].(active := db.keys[j].active) == db.keys[j]
                  && db'.keys[j].active == (db.keys[j].active && db.keys[j].org != org))
            && db'.keys[n].org == org && db'.keys[n].active && db'.keys[n].privateKey == Some(private)
            && db'.keys[n].publicKey == c.publicOf(private)
  {
  }

  /** Sealing: one batch, unanchored, of exactly the unbatched rows; it changes nothing else about any row. */
  lemma SealExactly(c: Suite, service: PrivateKey, db: Db, order: seq<nat>)
    requires UnbatchedListing(db, order) && order != []
    ensures var db', n := Step(c, service, db, Seal(order)), |db.batches|;
            && db' == db.(events := db'.events, batches := db'.batches)
            && |db'.batches| == n + 1 && db'.batches[..n] == db.batches
            && db'.batches[n].eventIds == order && db'.batches[n].anchor == None
            && |db'.events| == |db.events|
            && (forall i :: 0 <= i < |db.events| ==>
                  && db'.events[i].(batchId := db.events[i].batchId) == db.events[i]
                  && db'.events[i].batchId == if db.events[i].batchId == None then Some(n) else db.events[i].batchId)
            && db'.batches[n].root == Merkle.Root(c.hashPair, Hashes(db.events, order))
            && db'.batches[n].signature == c.sign(service, db'.batches[n].root)
  {
  }

  /** A deferral mark: on the one event of that number in the trace, if there is one, and on nothing else. */
  lemma DeferExactly(c: Suite, service: PrivateKey, db: Db, org: string, traceId: string, seqNo: int, d: Deferral)
    requires Inv(c, service, db)
    ensures var db' := Step(c, service, db, Defer(org, traceId, seqNo, d));
            && db' == db.(events := db'.events) && |db'.events| == |db.events|
            && forall i :: 0 <= i < |db.events| ==>
                 db'.events[i] == if InTrace(db.events[i].core, org, traceId) && db.events[i].core.seqNo == seqNo
                                  then db.events[i].(deferral := Some(d)) else db.events[i]
  {
    var cores := Cores(db.events);
    var found := FindEvent(cores, org, traceId, seqNo);
    forall i | 0 <= i < |db.events| && InTrace(cores[i], org, traceId) && cores[i].seqNo == seqNo
      ensures found == Some(i)
    {
      NumberedOnce(cores, org, traceId, i, found.value);
    }
  }

  lemma NumberedOnce(cores: seq<EventCore>, org: string, traceId: string, i: nat, j: nat)
    requires Linked(cores) && i < |cores| && j < |cores| && cores[i].seqNo == cores[j].seqNo
    requires InTrace(cores[i], org, traceId) && InTrace(cores[j], org, traceId)
    ensures i == j
  {
    var ids := TraceIds(cores, org, traceId);
    var m: nat :| m < |ids| && ids[m] == i;
    var n: nat :| n < |ids| && ids[n] == j;
    SeqOfListed(cores, org, traceId, m);
    SeqOfListed(cores, org, traceId, n);
  }

  // ---------------------------------------------------------------------------------------
  // The service
  // ---------------------------------------------------------------------------------------

  datatype EventOut = EventOut(hash: Digest, signature: Signature, seqNo: int, prevHash: Option<Digest>, eventId: nat)

  class LedgerService {
    const c: Suite
    const service: PrivateKey
    var traces: map<string, string>
    var keys: seq<OrgKey>
    var events: seq<EventRow>
    var payloadErased: map<PayloadId, bool>
    var payloadKeys: set<PayloadId>
    var batches: seq<Batch>

    ghost function View(): Db
      reads this
    {
      Db(traces, keys, events, payloadErased, payloadKeys, batches)
    }

    constructor (c: Suite, service: PrivateKey)
      ensures View() == EMPTY && this.c == c && this.service == service
    {
      this.c, this.service := c, service;
      traces, keys, events, payloadErased, payloadKeys, batches := map[], [], [], map[], {}, [];
    }

    /** Start a transaction: what a rollback would restore. */
    method Begin() returns (db: Db)
      ensures db == View()
    {
      db := Db(traces, keys, events, payloadErased, payloadKeys, batches);
    }

    method Rollback(db: Db)
      modifies this
      ensures View() == db
    {
      traces, keys, events := db.traces, db.keys, db.events;
      payloadErased, payloadKeys, batches := db.payloadErased, db.payloadKeys, db.batches;
    }

    method StoreEncryptedPayload(id: PayloadId)
      modifies this`payloadErased, this`payloadKeys
      ensures View() == PayloadStored(old(View()), id)
    {
      if id in payloadErased {
        return;
      }
      payloadErased := payloadErased[id := false];
      payloadKeys := payloadKeys + {id};
    }

    method RecordEvent(a: RecordArgs) returns (r: Result<EventOut, RecordError>)
      modifies this
      ensures r.Ok? ==>
        && Recorded(c, service, old(View()), a) == Ok(View())
        && r.value.eventId == |old(events)|
        && var core := events[|old(events)|].core;
           r.value == EventOut(core.hash, core.signature, core.seqNo, core.prevHash, |old(events)|)
      ensures r.Err? ==> View() == old(View()) && Recorded(c, service, View(), a) == Err(r.error)
    {
      if IsBlank(a.kind) {
        return Err(InvalidEventType);
      }
      if a.traceId in traces && traces[a.traceId] != a.org {
        return Err(AccessDenied);
      }
      var cores := Cores(events);
      var last := TipRow(cores, a.org, a.traceId);
      var expectedSeq := if last.Some? then cores[last.value].seqNo + 1 else 1;
      if a.seqNo != expectedSeq {
        return Err(OutOfOrder(expectedSeq));
      }
      traces := traces[a.traceId := a.org];
      var prevHash := if last.Some? then Some(cores[last.value].hash) else None;
      var payloadHash := c.hashPayload(c.redact(a.payload));
      var envelope := Envelope(Some(DEFAULT_ALGORITHM), a.traceId, a.seqNo, a.kind, payloadHash, prevHash,
                               a.policyVersion, a.now);
      var eventHash := c.hashEnvelope(envelope);
      var (signature, keyId) := SignFor(c, service, keys, a.org, eventHash);
      StoreEncryptedPayload((a.org, payloadHash));
      var core := EventCore(a.org, a.traceId, a.seqNo, a.kind, payloadHash, envelope, prevHash, eventHash,
                            signature, a.policyVersion, DEFAULT_ALGORITHM, keyId, a.now);
      events := events + [EventRow(core, None, None)];
      r := Ok(EventOut(eventHash, signature, a.seqNo, prevHash, |events| - 1));
    }

    method ProvisionManagedSigningKey(org: string, private: PrivateKey) returns (keyId: nat)
      modifies this`keys
      ensures View() == Rotated(c, old(View()), org, private)
      ensures keyId == |old(keys)| && ActiveKey(keys, org) == Some(keyId)
    {
      for i := 0 to |keys|
        invariant |keys| == |old(keys)|
        invariant forall j :: 0 <= j < i ==> keys[j] == Retired(old(keys)[j], org)
        invariant forall j :: i <= j < |keys| ==> keys[j] == old(keys)[j]
      {
        if keys[i].org == org && keys[i].active {
          keys := keys[i := keys[i].(active := false)];
        }
      }
      keyId := |keys|;
      keys := keys + [OrgKey(org, c.publicOf(private), Some(private), true)];
    }

    method AssignEventsToBatch(ids: seq<nat>, batch: nat)
      requires forall k :: 0 <= k < |ids| ==> ids[k] < |events|
      modifies this`events
      ensures events == Assigned(old(events), ids, batch)
    {
      for k := 0 to |ids|
        invariant |events| == |old(events)|
        invariant forall i :: 0 <= i < |events| ==>
          events[i] == if i in ids[..k] then old(events)[i].(batchId := Some(batch)) else old(events)[i]
      {
        assert ids[..k + 1] == ids[..k] + [ids[k]];
        events := events[ids[k] := events[ids[k]].(batchId := Some(batch))];
      }
      assert ids[..|ids|] == ids;
    }

    /** `order` is what the query for unbatched events returned. */
    method SealBatch(order: seq<nat>) returns (batch: Option<nat>)
      requires UnbatchedListing(View(), order)
      modifies this`events, this`batches
      ensures View() == Sealed(c, service, old(View()), order)
      ensures batch == if order == [] then None else Some(|old(batches)|)
    {
      if order == [] {
        return None;
      }
      var leafHashes := Hashes(events, order);
      var root := Merkle.MerkleRoot(c.hashPair, c.emptyRoot, leafHashes);
      var id := |batches|;
      batches := batches + [Batch(root, c.sign(service, root), order, None)];
      AssignEventsToBatch(order, id);
      batch := Some(id);
    }

    method CryptoShredPayload(id: PayloadId) returns (done: bool)
      modifies this`payloadErased, this`payloadKeys
      ensures View() == Shredded(old(View()), id) && done == (id in old(payloadKeys))
    {
      if id !in payloadKeys {
        return false;
      }
      payloadKeys := payloadKeys - {id};
      if id in payloadErased && !payloadErased[id] {
        payloadErased := payloadErased[id := true];
      }
      assert id in payloadErased ==> payloadErased == old(payloadErased)[id := true];
      done := true;
    }

    method MarkDeferred(org: string, traceId: string, seqNo: int, d: Deferral)
      modifies this`events
      ensures View() == MarkedDeferred(old(View()), org, traceId, seqNo, d)
    {
      var event := FindEvent(Cores(events), org, traceId, seqNo);
      if event.None? {
        return;
      }
      events := events[event.value := events[event.value].(deferral := Some(d))];
    }

    method ReplayTrace(org: string, traceId: string) returns (r: Result<TraceReplayResult, ReplayError>)
      ensures traceId !in traces ==> r == Err(TraceNotFound)
      ensures traceId in traces && traces[traceId] != org ==> r == Err(TraceAccessDenied)
      ensures traceId in traces && traces[traceId] == org && TraceEvents(Cores(events), org, traceId) == [] ==>
        r == Err(TraceNotFound)
      ensures var listing := TraceEvents(Cores(events), org, traceId);
              traceId in traces && traces[traceId] == org && listing != [] ==>
                && (r.Err? <==> exists i :: 0 <= i < |listing| && Resolve(c, service, keys)(listing[i]).None?)
                && (r.Ok? ==> |r.value.events| == |listing|)
                && (r.Ok? ==> forall i :: 0 <= i < |listing| ==>
                      r.value.events[i] == ResultAt(c, listing, Resolve(c, service, keys), i))
                && (r.Ok? ==> (r.value.allVerified <==> ChainVerifies(c, listing, Resolve(c, service, keys))))
      ensures SignedVerifies(c) && Inv(c, service, View()) && traceId in traces && traces[traceId] == org ==>
        var events := TraceEvents(Cores(events), org, traceId);
        if events == [] then r == Err(TraceNotFound)
        else r.Ok? && r.value.allVerified && |r.value.events| == |events|
    {
      if traceId !in traces {
        return Err(TraceNotFound);
      }
      if traces[traceId] != org {
        return Err(TraceAccessDenied);
      }
      var listing := TraceEvents(Cores(events), org, traceId);
      if listing == [] {
        return Err(TraceNotFound);
      }
      ghost var resolve := Resolve(c, service, keys);
      r := VerifyEventChain(c, listing, Resolve(c, service, keys));
      if SignedVerifies(c) && Inv(c, service, View()) {
        InvChainVerifies(c, service, View(), org, traceId);
        assert forall k :: 0 <= k < |listing| ==> VerifiesAt(c, listing, resolve, k);
      }
    }
  }
}
