/**
 Evidence bundles: export (app/services/evidence.py) and the standalone offline verifier
 (app/bundle/verify.py). Anchor tokens are judged by an oracle.
 */
module Evidence {
  import opened Prelude
  import opened Crypto
  import opened Verification
  import opened Ledger
  import Merkle

  datatype SerializedEvent = SerializedEvent(
    id: nat, traceId: string, seqNo: int, kind: string, payloadHash: Digest, payloadErased: bool,
    prevHash: Option<Digest>, hash: Digest, signature: Signature, alg: Option<string>,
    policyVersion: Option<string>, createdAt: int, batchId: Option<nat>)

  datatype SerializedBatch = SerializedBatch(
    root: Digest, signature: Signature, eventIds: seq<nat>, leafHashes: map<nat, Digest>,
    merkleProofs: map<nat, seq<Digest>>, anchor: Option<string>)

  datatype Bundle = Bundle(
    publicKey: PublicKey, events: seq<SerializedEvent>, batches: seq<SerializedBatch>,
    batch: Option<SerializedBatch>, allReplayVerified: bool)

  datatype AnchorStatus = Trusted | Bound | Skipped | Failed

  /** Verdict of the RFC 3161 check on a token for a root. */
  type AnchorOracle = (string, Digest) -> AnchorStatus

  // ---------------------------------------------------------------------------------------
  // The offline verifier
  // ---------------------------------------------------------------------------------------

  function BuildEnvelope(e: SerializedEvent): Envelope {
    Envelope(e.alg, e.traceId, e.seqNo, e.kind, e.payloadHash, e.prevHash, e.policyVersion, e.createdAt)
  }

  function PrevHash(events: seq<SerializedEvent>, i: nat): Option<Digest>
    requires i <= |events|
  {
    if i == 0 then None else Some(events[i - 1].hash)
  }

  predicate EventAccepted(c: Suite, key: PublicKey, events: seq<SerializedEvent>, i: nat)
    requires i < |events|
  {
    && c.hashEnvelope(BuildEnvelope(events[i])) == events[i].hash
    && events[i].alg == Some(DEFAULT_ALGORITHM)
    && c.verify(key, events[i].hash, events[i].signature)
    && events[i].prevHash == PrevHash(events, i)
  }

  /** Hash of the exported event with this id; the last one wins. */
  function EventHash(events: seq<SerializedEvent>, id: nat): (r: Option<Digest>)
    ensures r.None? ==> forall i :: 0 <= i < |events| ==> events[i].id != id
    ensures r.Some? ==> exists i :: 0 <= i < |events| && events[i].id == id && events[i].hash == r.value
  {
    if events == [] then None
    else
      var n := |events| - 1;
      if events[n].id == id then Some(events[n].hash) else EventHash(events[..n], id)
  }

  function LeafFor(events: seq<SerializedEvent>, b: SerializedBatch, id: nat): Option<Digest> {
    if EventHash(events, id).Some? then EventHash(events, id)
    else if id in b.leafHashes then Some(b.leafHashes[id]) else None
  }

  function IndexOf(ids: seq<nat>, id: nat): (r: nat)
    requires id in ids
    ensures r < |ids| && ids[r] == id && id !in ids[..r]
  {
    if ids[0] == id then 0 else 1 + IndexOf(ids[1..], id)
  }

  ghost predicate ProofAccepted(c: Suite, events: seq<SerializedEvent>, b: SerializedBatch, id: nat)
    requires id in b.merkleProofs
  {
    && id in b.eventIds
    && LeafFor(events, b, id).Some?
    && Merkle.Climb(c.hashPair, LeafFor(events, b, id).value, IndexOf(b.eventIds, id), b.merkleProofs[id]) == b.root
  }

  predicate AnchorAccepted(oracle: AnchorOracle, b: SerializedBatch) {
    b.anchor.Some? && b.anchor.value != "" ==> oracle(b.anchor.value, b.root) != Failed
  }

  ghost predicate BatchAccepted(c: Suite, oracle: AnchorOracle, key: PublicKey,
                                events: seq<SerializedEvent>, b: SerializedBatch)
  {
    && (forall id :: id in b.merkleProofs ==> ProofAccepted(c, events, b, id))
    && c.verify(key, b.root, b.signature)
    && AnchorAccepted(oracle, b)
  }

  function CheckedBatches(bundle: Bundle): seq<SerializedBatch> {
    if bundle.batches == [] && bundle.batch.Some? then [bundle.batch.value] else bundle.batches
  }

  ghost predicate Accepted(c: Suite, oracle: AnchorOracle, bundle: Bundle) {
    && (forall i :: 0 <= i < |bundle.events| ==> EventAccepted(c, bundle.publicKey, bundle.events, i))
    && (forall k :: 0 <= k < |CheckedBatches(bundle)| ==>
          BatchAccepted(c, oracle, bundle.publicKey, bundle.events, CheckedBatches(bundle)[k]))
  }

  method VerifyEvents(c: Suite, key: PublicKey, events: seq<SerializedEvent>) returns (allOk: bool)
    ensures allOk <==> forall i :: 0 <= i < |events| ==> EventAccepted(c, key, events, i)
  {
    var prevHash: Option<Digest> := None;
    allOk := true;
    for i := 0 to |events|
      invariant prevHash == PrevHash(events, i)
      invariant allOk <==> forall k :: 0 <= k < i ==> EventAccepted(c, key, events, k)
    {
      var event := events[i];
      var hashOk := c.hashEnvelope(BuildEnvelope(event)) == event.hash;
      var algOk := event.alg == Some(DEFAULT_ALGORITHM);
      var sigOk := algOk && c.verify(key, event.hash, event.signature);
      var chainOk := event.prevHash == prevHash;
      assert EventAccepted(c, key, events, i) <==> hashOk && sigOk && chainOk;
      allOk := allOk && hashOk && sigOk && chainOk;
      prevHash := Some(event.hash);
    }
  }

  method VerifyProofs(c: Suite, events: seq<SerializedEvent>, b: SerializedBatch) returns (allOk: bool)
    ensures allOk <==> forall id :: id in b.merkleProofs ==> ProofAccepted(c, events, b, id)
  {
    allOk := true;
    var todo := b.merkleProofs.Keys;
    while todo != {}
      invariant todo <= b.merkleProofs.Keys
      invariant allOk <==> forall id :: id in b.merkleProofs.Keys - todo ==> ProofAccepted(c, events, b, id)
      decreases |todo|
    {
      var id :| id in todo;
      var ok := false;
      if id in b.eventIds {
        var leaf := LeafFor(events, b, id);
        if leaf.Some? {
          ok := Merkle.VerifyMerkleProof(c.hashPair, leaf.value, IndexOf(b.eventIds, id), b.merkleProofs[id], b.root);
        }
      }
      assert ok <==> ProofAccepted(c, events, b, id);
      allOk := allOk && ok;
      assert b.merkleProofs.Keys - (todo - {id}) == b.merkleProofs.Keys - todo + {id};
      todo := todo - {id};
    }
  }

  method VerifyBundle(c: Suite, oracle: AnchorOracle, bundle: Bundle) returns (allOk: bool)
    ensures allOk <==> Accepted(c, oracle, bundle)
  {
    allOk := VerifyEvents(c, bundle.publicKey, bundle.events);
    var batches := CheckedBatches(bundle);
    for k := 0 to |batches|
      invariant allOk <==>
        && (forall i :: 0 <= i < |bundle.events| ==> EventAccepted(c, bundle.publicKey, bundle.events, i))
        && (forall j :: 0 <= j < k ==> BatchAccepted(c, oracle, bundle.publicKey, bundle.events, batches[j]))
    {
      var b := batches[k];
      var proofsOk := VerifyProofs(c, bundle.events, b);
      var sigOk := c.verify(bundle.publicKey, b.root, b.signature);
      var anchorOk := true;
      if b.anchor.Some? && b.anchor.value != "" {
        anchorOk := oracle(b.anchor.value, b.root) != Failed;
      }
      assert BatchAccepted(c, oracle, bundle.publicKey, bundle.events, b) <==> proofsOk && sigOk && anchorOk;
      allOk := allOk && proofsOk && sigOk && anchorOk;
    }
  }

  // ---------------------------------------------------------------------------------------
  // Export
  // ---------------------------------------------------------------------------------------

  function SerializeEvent(db: Db, id: nat): SerializedEvent
    requires id < |db.events|
  {
    var e := db.events[id].core;
    var p := (e.org, e.payloadHash);
    SerializedEvent(id, e.traceId, e.seqNo, e.kind, e.payloadHash,
                    p in db.payloadErased && db.payloadErased[p], e.prevHash, e.hash, e.signature,
                    e.envelope.alg, e.policyVersion, e.envelope.createdAt, db.events[id].batchId)
  }

  function SerializeEvents(db: Db, ids: seq<nat>): (r: seq<SerializedEvent>)
    requires forall k :: 0 <= k < |ids| ==> ids[k] < |db.events|
    ensures |r| == |ids| && forall k :: 0 <= k < |ids| ==> r[k] == SerializeEvent(db, ids[k])
  {
    seq(|ids|, k requires 0 <= k < |ids| => SerializeEvent(db, ids[k]))
  }

  ghost predicate InRange(db: Db, ids: seq<nat>) {
    forall k :: 0 <= k < |ids| ==> ids[k] < |db.events|
  }

  function LeafMap(events: seq<EventRow>, ids: seq<nat>): map<nat, Digest>
    requires forall k :: 0 <= k < |ids| ==> ids[k] < |events|
  {
    map id | id in ids :: events[id].core.hash
  }

  ghost function ProofMap(c: Suite, leaves: seq<Digest>, ids: seq<nat>, traceIds: set<nat>): map<nat, seq<Digest>>
    requires |leaves| == |ids|
  {
    map id | id in ids && id in traceIds :: Merkle.Siblings(c.hashPair, leaves, IndexOf(ids, id))
  }

  /** One exported batch: every leaf hash, and an inclusion proof per event of the trace. */
  ghost function SerializedBatchOf(c: Suite, db: Db, b: nat, traceIds: set<nat>): SerializedBatch
    requires b < |db.batches| && InRange(db, db.batches[b].eventIds)
  {
    var ids := db.batches[b].eventIds;
    SerializedBatch(
      db.batches[b].root, db.batches[b].signature, ids,
      LeafMap(db.events, ids), ProofMap(c, Hashes(db.events, ids), ids, traceIds), db.batches[b].anchor)
  }

  /** Batches holding any of the given events, oldest first. */
  function BatchesFor(db: Db, ids: seq<nat>, n: nat): (r: seq<nat>)
    requires n <= |db.batches| && forall k :: 0 <= k < |ids| ==> ids[k] < |db.events|
    ensures forall k :: 0 <= k < |r| ==> r[k] < n
    ensures forall b :: b in r <==> b < n && exists k :: 0 <= k < |ids| && db.events[ids[k]].batchId == Some(b)
  {
    if n == 0 then []
    else
      var rest := BatchesFor(db, ids, n - 1);
      if exists k :: 0 <= k < |ids| && db.events[ids[k]].batchId == Some(n - 1) then rest + [n - 1] else rest
  }

  ghost function Assembled(c: Suite, service: PrivateKey, db: Db, ids: seq<nat>, allVerified: bool): Bundle
    requires forall b :: 0 <= b < |db.batches| ==> InRange(db, db.batches[b].eventIds)
    requires InRange(db, ids)
  {
    var sealed := BatchesFor(db, ids, |db.batches|);
    var idSet := set k | 0 <= k < |ids| :: ids[k];
    var batches := seq(|sealed|, k requires 0 <= k < |sealed| => SerializedBatchOf(c, db, sealed[k], idSet));
    Bundle(c.publicOf(service), SerializeEvents(db, ids), batches,
           if |batches| == 1 then Some(batches[0]) else None, allVerified)
  }

  /** The bundle exported for a trace. */
  ghost function BundleOf(c: Suite, service: PrivateKey, db: Db, org: string, traceId: string): Bundle
    requires forall b :: 0 <= b < |db.batches| ==> InRange(db, db.batches[b].eventIds)
  {
    var verified := ChainVerifies(c, TraceEvents(Cores(db.events), org, traceId), Resolve(c, service, db.keys));
    Assembled(c, service, db, TraceIds(Cores(db.events), org, traceId), verified)
  }

  method BatchLeafHashes(ledger: LedgerService, b: nat) returns (leaves: seq<Digest>)
    requires b < |ledger.batches| && InRange(ledger.View(), ledger.batches[b].eventIds)
    ensures leaves == Hashes(ledger.events, ledger.batches[b].eventIds)
  {
    leaves := [];
    var ids := ledger.batches[b].eventIds;
    for k := 0 to |ids|
      invariant |leaves| == k && forall j :: 0 <= j < k ==> leaves[j] == ledger.events[ids[j]].core.hash
    {
      leaves := leaves + [ledger.events[ids[k]].core.hash];
    }
  }

  lemma IndexOfDistinct(ids: seq<nat>, k: nat)
    requires Distinct(ids) && k < |ids|
    ensures IndexOf(ids, ids[k]) == k
  {
  }

  method SerializeBatch(ledger: LedgerService, b: nat, traceIds: set<nat>) returns (r: SerializedBatch)
    requires b < |ledger.batches| && InRange(ledger.View(), ledger.batches[b].eventIds)
    requires Distinct(ledger.batches[b].eventIds)
    ensures r == SerializedBatchOf(ledger.c, ledger.View(), b, traceIds)
  {
    var batch := ledger.batches[b];
    var ids := batch.eventIds;
    var leaves := BatchLeafHashes(ledger, b);
    var leafMap := LeafMap(ledger.events, ids);
    var proofs := MerkleProofs(ledger.c, leaves, ids, traceIds);
    r := SerializedBatch(batch.root, batch.signature, ids, leafMap, proofs, batch.anchor);
  }

  method MerkleProofs(c: Suite, leaves: seq<Digest>, ids: seq<nat>, traceIds: set<nat>)
    returns (proofs: map<nat, seq<Digest>>)
    requires Distinct(ids) && |leaves| == |ids|
    ensures proofs == ProofMap(c, leaves, ids, traceIds)
  {
    proofs := map[];
    ghost var all := ProofMap(c, leaves, ids, traceIds);
    for k := 0 to |ids|
      invariant forall id :: id in proofs <==> id in ids[..k] && id in traceIds
      invariant forall id :: id in proofs ==> id in all && proofs[id] == all[id]
    {
      assert ids[..k + 1] == ids[..k] + [ids[k]];
      if ids[k] in traceIds {
        var p := Merkle.MerkleProof(c.hashPair, leaves, k);
        IndexOfDistinct(ids, k);
        proofs := proofs[ids[k] := p.value];
      }
    }
    assert ids[..|ids|] == ids;
  }

  /** Rows of one database: a batch lists events that exist, none twice. */
  ghost predicate BatchRowsOk(db: Db) {
    forall b :: 0 <= b < |db.batches| ==> InRange(db, db.batches[b].eventIds) && Distinct(db.batches[b].eventIds)
  }

  /** `out` is the export of batch b. */
  ghost predicate Exports(c: Suite, db: Db, b: nat, traceIds: set<nat>, out: SerializedBatch) {
    b < |db.batches| && InRange(db, db.batches[b].eventIds) && out == SerializedBatchOf(c, db, b, traceIds)
  }

  method ExportBatch(ledger: LedgerService, b: nat, traceIds: set<nat>) returns (r: SerializedBatch)
    requires BatchRowsOk(ledger.View()) && b < |ledger.batches|
    ensures Exports(ledger.c, ledger.View(), b, traceIds, r)
  {
    r := SerializeBatch(ledger, b, traceIds);
  }

  method SerializeBatches(ledger: LedgerService, sealed: seq<nat>, traceIds: set<nat>) returns (r: seq<SerializedBatch>)
    requires BatchRowsOk(ledger.View()) && forall k :: 0 <= k < |sealed| ==> sealed[k] < |ledger.batches|
    ensures |r| == |sealed|
    ensures forall k :: 0 <= k < |sealed| ==> Exports(ledger.c, ledger.View(), sealed[k], traceIds, r[k])
    decreases |sealed|
  {
    if sealed == [] {
      return [];
    }
    var n := |sealed| - 1;
    var earlier := SerializeBatches(ledger, sealed[..n], traceIds);
    var last := ExportBatch(ledger, sealed[n], traceIds);
    r := earlier + [last];
  }

  /** Also from a database whose rows were tampered with: the bundle then says what replay found. */
  method BuildEvidenceBundle(ledger: LedgerService, org: string, traceId: string)
    returns (r: Result<Bundle, ReplayError>)
    requires BatchRowsOk(ledger.View())
    ensures traceId !in ledger.traces ==> r == Err(TraceNotFound)
    ensures traceId in ledger.traces && ledger.traces[traceId] != org ==> r == Err(TraceAccessDenied)
    ensures var listing := TraceEvents(Cores(ledger.events), org, traceId);
            traceId in ledger.traces && ledger.traces[traceId] == org ==>
              if listing == [] then r == Err(TraceNotFound)
              else
                && (r.Err? <==> exists i :: 0 <= i < |listing|
                                            && Resolve(ledger.c, ledger.service, ledger.keys)(listing[i]).None?)
                && (r.Ok? ==> r.value == BundleOf(ledger.c, ledger.service, ledger.View(), org, traceId))
                && (r.Ok? ==> (r.value.allReplayVerified <==>
                                 ChainVerifies(ledger.c, listing, Resolve(ledger.c, ledger.service, ledger.keys))))
    ensures SignedVerifies(ledger.c) && Inv(ledger.c, ledger.service, ledger.View())
            && TraceIds(Cores(ledger.events), org, traceId) != [] ==>
              r.Ok? && r.value.allReplayVerified
  {
    var ids := TraceIds(Cores(ledger.events), org, traceId);
    if ids != [] {
      assert InTrace(ledger.events[ids[0]].core, org, traceId);
    }
    var replay := ledger.ReplayTrace(org, traceId);
    if replay.Err? {
      return Err(replay.error);
    }
    var bundle := AssembleBundle(ledger, ids, replay.value.allVerified);
    r := Ok(bundle);
  }

  method AssembleBundle(ledger: LedgerService, ids: seq<nat>, allVerified: bool) returns (r: Bundle)
    requires BatchRowsOk(ledger.View())
    requires InRange(ledger.View(), ids)
    ensures r == Assembled(ledger.c, ledger.service, ledger.View(), ids, allVerified)
  {
    var db := Db(ledger.traces, ledger.keys, ledger.events, ledger.payloadErased, ledger.payloadKeys, ledger.batches);
    var serialized := SerializeEvents(db, ids);
    var idSet := set k | 0 <= k < |ids| :: ids[k];
    var sealed := BatchesFor(db, ids, |db.batches|);
    var batchData := SerializeBatches(ledger, sealed, idSet);
    r := Bundle(ledger.c.publicOf(ledger.service), serialized, batchData,
                if |batchData| == 1 then Some(batchData[0]) else None, allVerified);
  }

  lemma InvBatchesInRange(c: Suite, service: PrivateKey, db: Db)
    requires Inv(c, service, db)
    ensures forall b :: 0 <= b < |db.batches| ==>
      InRange(db, db.batches[b].eventIds) && Distinct(db.batches[b].eventIds)
  {
    forall b | 0 <= b < |db.batches|
      ensures InRange(db, db.batches[b].eventIds) && Distinct(db.batches[b].eventIds)
    {
      assert BatchOk(c, service, db.events, db.batches, b);
    }
  }

  // ---------------------------------------------------------------------------------------
  // The round trip
  // ---------------------------------------------------------------------------------------

  /** The row's key is the service key, the only one a bundle carries. */
  ghost predicate UnderServiceKey(c: Suite, service: PrivateKey, keys: seq<OrgKey>, e: EventCore) {
    Resolve(c, service, keys)(e) == Some(c.publicOf(service))
  }

  lemma {:induction false} ExportedEvent(c: Suite, service: PrivateKey, db: Db, org: string, traceId: string, k: nat)
    requires SignedVerifies(c) && SignatureNamesSigner(c) && Inv(c, service, db)
    requires k < |TraceIds(Cores(db.events), org, traceId)|
    ensures EventAccepted(c, c.publicOf(service), SerializeEvents(db, TraceIds(Cores(db.events), org, traceId)), k) <==>
            UnderServiceKey(c, service, db.keys, TraceEvents(Cores(db.events), org, traceId)[k])
  {
    var cores := Cores(db.events);
    var ids := TraceIds(cores, org, traceId);
    var e := db.events[ids[k]].core;
    var exported := SerializeEvents(db, ids);
    ListingIsSeqOrder(cores, org, traceId, k);
    assert exported[k].prevHash == PrevHash(exported, k);
    assert CoreOk(c, service, db.keys, e);
    assert BuildEnvelope(exported[k]) == e.envelope;
    var signer :| SignedBy(service, db.keys, e, signer) && e.signature == c.sign(signer, e.hash);
    SignerResolves(c, service, db.keys, e, signer);
    assert c.verify(c.publicOf(service), e.hash, e.signature) <==> c.publicOf(service) == c.publicOf(signer);
  }

  lemma SignerResolves(c: Suite, service: PrivateKey, keys: seq<OrgKey>, e: EventCore, signer: PrivateKey)
    requires SignedBy(service, keys, e, signer)
    requires forall j :: 0 <= j < |keys| ==> KeyOk(c, keys[j])
    ensures Resolve(c, service, keys)(e) == Some(c.publicOf(signer))
  {
    if e.signingKeyId.Some? {
      assert KeyOk(c, keys[e.signingKeyId.value]);
    }
  }

  lemma LeafIsEventHash(db: Db, ids: seq<nat>, b: SerializedBatch, id: nat)
    requires InRange(db, ids) && id < |db.events|
    requires id in b.leafHashes && b.leafHashes[id] == db.events[id].core.hash
    ensures LeafFor(SerializeEvents(db, ids), b, id) == Some(db.events[id].core.hash)
  {
  }

  /** Proofs recomputed at export verify against the root sealed earlier, for any batch size. */
  lemma {:induction false} ExportedProofs(c: Suite, service: PrivateKey, db: Db, ids: seq<nat>, traceIds: set<nat>,
                                          b: nat, id: nat)
    requires b < |db.batches| && InRange(db, ids) && InRange(db, db.batches[b].eventIds)
    requires BatchOk(c, service, db.events, db.batches, b)
    requires id in SerializedBatchOf(c, db, b, traceIds).merkleProofs
    ensures ProofAccepted(c, SerializeEvents(db, ids), SerializedBatchOf(c, db, b, traceIds), id)
  {
    var batch := SerializedBatchOf(c, db, b, traceIds);
    LeafIsEventHash(db, ids, batch, id);
    var leaves := Hashes(db.events, batch.eventIds);
    var i := IndexOf(batch.eventIds, id);
    Merkle.HonestProofVerifies(c.hashPair, leaves, i);
    assert leaves[i] == db.events[id].core.hash;
  }

  lemma {:induction false} ExportedBatch(c: Suite, oracle: AnchorOracle, service: PrivateKey, db: Db, ids: seq<nat>,
                                         traceIds: set<nat>,
                      b: nat)
    requires SignedVerifies(c)
    requires b < |db.batches| && InRange(db, ids) && InRange(db, db.batches[b].eventIds)
    requires BatchOk(c, service, db.events, db.batches, b)
    ensures var batch := SerializedBatchOf(c, db, b, traceIds);
            BatchAccepted(c, oracle, c.publicOf(service), SerializeEvents(db, ids), batch) <==>
              AnchorAccepted(oracle, batch)
  {
    var batch := SerializedBatchOf(c, db, b, traceIds);
    forall id | id in batch.merkleProofs
      ensures ProofAccepted(c, SerializeEvents(db, ids), batch, id)
    {
      ExportedProofs(c, service, db, ids, traceIds, b, id);
    }
  }

  lemma {:induction false} ExportedBatches(c: Suite, oracle: AnchorOracle, service: PrivateKey, db: Db, ids: seq<nat>,
                                           verified: bool)
    requires SignedVerifies(c) && InRange(db, ids)
    requires forall b :: 0 <= b < |db.batches| ==> InRange(db, db.batches[b].eventIds)
    requires forall b :: 0 <= b < |db.batches| ==> BatchOk(c, service, db.events, db.batches, b)
    ensures var bundle := Assembled(c, service, db, ids, verified);
            forall k :: 0 <= k < |bundle.batches| ==>
              (BatchAccepted(c, oracle, bundle.publicKey, bundle.events, bundle.batches[k]) <==>
               AnchorAccepted(oracle, bundle.batches[k]))
  {
    var idSet := set k | 0 <= k < |ids| :: ids[k];
    var bundle := Assembled(c, service, db, ids, verified);
    forall k | 0 <= k < |bundle.batches|
      ensures BatchAccepted(c, oracle, bundle.publicKey, bundle.events, bundle.batches[k]) <==>
              AnchorAccepted(oracle, bundle.batches[k])
    {
      ExportedBatch(c, oracle, service, db, ids, idSet, BatchesFor(db, ids, |db.batches|)[k]);
    }
  }

  /**
   In every reachable state, an exported bundle is accepted offline exactly when every event of the
   trace was signed under the service key and no attached anchor token fails: all event hashes, chain
   links, inclusion proofs and batch signatures always hold.
   */
  lemma {:induction false} EvidenceRoundTrip(c: Suite, oracle: AnchorOracle, service: PrivateKey, ops: seq<Op>,
                                             org: string,
                          traceId: string)
    requires SignedVerifies(c) && SignatureNamesSigner(c)
    ensures var db := Run(c, service, ops);
            && (forall b :: 0 <= b < |db.batches| ==> InRange(db, db.batches[b].eventIds))
            && var bundle := BundleOf(c, service, db, org, traceId);
               var events := TraceEvents(Cores(db.events), org, traceId);
               Accepted(c, oracle, bundle) <==>
                 && (forall k :: 0 <= k < |events| ==> UnderServiceKey(c, service, db.keys, events[k]))
                 && (forall k :: 0 <= k < |bundle.batches| ==> AnchorAccepted(oracle, bundle.batches[k]))
  {
    ReachableInv(c, service, ops);
    InvBatchesInRange(c, service, Run(c, service, ops));
    RoundTrip(c, oracle, service, Run(c, service, ops), org, traceId);
  }

  lemma {:induction false} RoundTrip(c: Suite, oracle: AnchorOracle, service: PrivateKey, db: Db, org: string,
                                     traceId: string)
    requires SignedVerifies(c) && SignatureNamesSigner(c) && Inv(c, service, db)
    requires forall b :: 0 <= b < |db.batches| ==> InRange(db, db.batches[b].eventIds)
    ensures var bundle := BundleOf(c, service, db, org, traceId);
            var events := TraceEvents(Cores(db.events), org, traceId);
            Accepted(c, oracle, bundle) <==>
              && (forall k :: 0 <= k < |events| ==> UnderServiceKey(c, service, db.keys, events[k]))
              && (forall k :: 0 <= k < |bundle.batches| ==> AnchorAccepted(oracle, bundle.batches[k]))
  {
    var ids := TraceIds(Cores(db.events), org, traceId);
    var bundle := BundleOf(c, service, db, org, traceId);
    ExportedEvents(c, service, db, org, traceId);
    ExportedBatches(c, oracle, service, db, ids, bundle.allReplayVerified);
    AcceptedPart(c, oracle, service, db.keys, bundle, TraceEvents(Cores(db.events), org, traceId));
  }

  lemma {:induction false} ExportedEvents(c: Suite, service: PrivateKey, db: Db, org: string, traceId: string)
    requires SignedVerifies(c) && SignatureNamesSigner(c) && Inv(c, service, db)
    ensures var exported := SerializeEvents(db, TraceIds(Cores(db.events), org, traceId));
            var events := TraceEvents(Cores(db.events), org, traceId);
            forall k :: 0 <= k < |events| ==>
              (EventAccepted(c, c.publicOf(service), exported, k) <==> UnderServiceKey(c, service, db.keys, events[k]))
  {
    var exported := SerializeEvents(db, TraceIds(Cores(db.events), org, traceId));
    var events := TraceEvents(Cores(db.events), org, traceId);
    forall k | 0 <= k < |events|
      ensures EventAccepted(c, c.publicOf(service), exported, k) <==> UnderServiceKey(c, service, db.keys, events[k])
    {
      ExportedEvent(c, service, db, org, traceId, k);
    }
  }

  lemma AcceptedPart(c: Suite, oracle: AnchorOracle, service: PrivateKey, keys: seq<OrgKey>, bundle: Bundle,
                     events: seq<EventCore>)
    requires |events| == |bundle.events| && (bundle.batches == [] ==> bundle.batch.None?)
    requires forall k :: 0 <= k < |events| ==>
      (EventAccepted(c, bundle.publicKey, bundle.events, k) <==> UnderServiceKey(c, service, keys, events[k]))
    requires forall k :: 0 <= k < |bundle.batches| ==>
      (BatchAccepted(c, oracle, bundle.publicKey, bundle.events, bundle.batches[k]) <==>
       AnchorAccepted(oracle, bundle.batches[k]))
    ensures Accepted(c, oracle, bundle) <==>
            && (forall k :: 0 <= k < |events| ==> UnderServiceKey(c, service, keys, events[k]))
            && (forall k :: 0 <= k < |bundle.batches| ==> AnchorAccepted(oracle, bundle.batches[k]))
  {
    assert CheckedBatches(bundle) == bundle.batches;
  }

  /**
   Nothing sealed is left out: each event of the trace is exported in seq order with its own hash, and
   if it was sealed the bundle holds its batch's root together with an inclusion proof for it.
   */
  lemma {:induction false} BundleCovers(c: Suite, service: PrivateKey, ops: seq<Op>, org: string, traceId: string,
                                        k: nat)
    requires k < |TraceIds(Cores(Run(c, service, ops).events), org, traceId)|
    ensures var db := Run(c, service, ops);
            var id := TraceIds(Cores(db.events), org, traceId)[k];
            && (forall b :: 0 <= b < |db.batches| ==> InRange(db, db.batches[b].eventIds))
            && var bundle := BundleOf(c, service, db, org, traceId);
               && |bundle.events| == |TraceIds(Cores(db.events), org, traceId)|
               && bundle.events[k].id == id && bundle.events[k].hash == db.events[id].core.hash
               && bundle.events[k].seqNo == k + 1
               && (db.events[id].batchId.Some? ==>
                     && db.events[id].batchId.value < |db.batches|
                     && exists j :: 0 <= j < |bundle.batches| && id in bundle.batches[j].merkleProofs
                                    && bundle.batches[j].root == db.batches[db.events[id].batchId.value].root)
  {
    var db := Run(c, service, ops);
    ReachableInv(c, service, ops);
    InvBatchesInRange(c, service, db);
    ListingIsSeqOrder(Cores(db.events), org, traceId, k);
    var ids := TraceIds(Cores(db.events), org, traceId);
    if db.events[ids[k]].batchId.Some? {
      var b := db.events[ids[k]].batchId.value;
      SealedEventCovered(c, service, db, ids, k, b, BundleOf(c, service, db, org, traceId).allReplayVerified);
    }
  }

  /** The exported event shows every signed column of the row, its batch, and whether its payload is erased. */
  ghost predicate ShowsRow(shown: SerializedEvent, id: nat, row: EventRow, erased: bool) {
    var e := row.core;
    && shown.id == id && shown.traceId == e.traceId && shown.seqNo == e.seqNo && shown.kind == e.kind
    && shown.payloadHash == e.payloadHash && shown.prevHash == e.prevHash && shown.hash == e.hash
    && shown.signature == e.signature && shown.alg == Some(e.alg) && shown.policyVersion == e.policyVersion
    && shown.createdAt == e.createdAt && shown.batchId == row.batchId && (shown.payloadErased <==> erased)
  }

  /** The exported batch shows the sealed one: root, signature, members with their hashes, and anchor. */
  ghost predicate ShowsBatch(shown: SerializedBatch, db: Db, b: nat) {
    && b < |db.batches|
    && shown.root == db.batches[b].root && shown.signature == db.batches[b].signature
    && shown.eventIds == db.batches[b].eventIds && shown.anchor == db.batches[b].anchor
    && (forall id :: id in shown.leafHashes <==> id in shown.eventIds)
    && forall id :: id in shown.leafHashes ==> id < |db.events| && shown.leafHashes[id] == db.events[id].core.hash
  }

  ghost predicate ShowsSome(shown: SerializedBatch, db: Db) {
    exists b: nat :: ShowsBatch(shown, db, b)
  }

  /**
   What a bundle says, in every reachable state: the service key; event by event what was recorded, with the
   payload marked erased exactly if it was shredded since; and batch by batch what was sealed.
   */
  lemma {:induction false} BundleShows(c: Suite, service: PrivateKey, ops: seq<Op>, org: string, traceId: string)
    ensures var db := Run(c, service, ops);
            && (forall b :: 0 <= b < |db.batches| ==> InRange(db, db.batches[b].eventIds))
            && var bundle, ids := BundleOf(c, service, db, org, traceId), TraceIds(Cores(db.events), org, traceId);
               && bundle.publicKey == c.publicOf(service) && |bundle.events| == |ids|
               && (forall k :: 0 <= k < |ids| ==>
                     ShowsRow(bundle.events[k], ids[k], db.events[ids[k]],
                              ShreddedSince(c, service, ops, (org, db.events[ids[k]].core.payloadHash))))
               && (forall j :: 0 <= j < |bundle.batches| ==> ShowsSome(bundle.batches[j], db))
               && bundle.batch == (if |bundle.batches| == 1 then Some(bundle.batches[0]) else None)
  {
    var db := Run(c, service, ops);
    ReachableInv(c, service, ops);
    InvBatchesInRange(c, service, db);
    var bundle, ids := BundleOf(c, service, db, org, traceId), TraceIds(Cores(db.events), org, traceId);
    forall k | 0 <= k < |ids|
      ensures ShowsRow(bundle.events[k], ids[k], db.events[ids[k]],
                       ShreddedSince(c, service, ops, (org, db.events[ids[k]].core.payloadHash)))
    {
      RowShown(c, service, ops, org, traceId, ids[k]);
    }
    BatchesShown(c, service, db, ids, bundle.allReplayVerified);
  }

  lemma BatchesShown(c: Suite, service: PrivateKey, db: Db, ids: seq<nat>, verified: bool)
    requires forall b :: 0 <= b < |db.batches| ==> InRange(db, db.batches[b].eventIds)
    requires InRange(db, ids)
    ensures var bundle := Assembled(c, service, db, ids, verified);
            forall j :: 0 <= j < |bundle.batches| ==> ShowsSome(bundle.batches[j], db)
  {
    var bundle := Assembled(c, service, db, ids, verified);
    forall j | 0 <= j < |bundle.batches|
      ensures ShowsSome(bundle.batches[j], db)
    {
      var b := BatchesFor(db, ids, |db.batches|)[j];
      var idSet := set k | 0 <= k < |ids| :: ids[k];
      BatchShown(c, db, b, idSet);
      assert bundle.batches[j] == SerializedBatchOf(c, db, b, idSet);
      assert ShowsBatch(bundle.batches[j], db, b);
    }
  }

  lemma BatchShown(c: Suite, db: Db, b: nat, traceIds: set<nat>)
    requires b < |db.batches| && InRange(db, db.batches[b].eventIds)
    ensures ShowsBatch(SerializedBatchOf(c, db, b, traceIds), db, b)
  {
  }

  lemma RowShown(c: Suite, service: PrivateKey, ops: seq<Op>, org: string, traceId: string, id: nat)
    requires var db := Run(c, service, ops); id < |db.events| && InTrace(db.events[id].core, org, traceId)
    ensures var db := Run(c, service, ops);
            ShowsRow(SerializeEvent(db, id), id, db.events[id],
                     ShreddedSince(c, service, ops, (org, db.events[id].core.payloadHash)))
  {
    var db := Run(c, service, ops);
    ReachableInv(c, service, ops);
    assert CoreOk(c, service, db.keys, db.events[id].core);
    ErasedExactly(c, service, ops, (org, db.events[id].core.payloadHash));
    assert Cores(db.events)[id] == db.events[id].core;
  }

  /** The hash a proof of `id` speaks for: that of the event shown under that id, or, if none is, the listed one. */
  ghost predicate SpeaksFor(bundle: Bundle, b: SerializedBatch, id: nat, leaf: Digest) {
    || (exists i :: 0 <= i < |bundle.events| && bundle.events[i].id == id && bundle.events[i].hash == leaf)
    || (&& (forall i :: 0 <= i < |bundle.events| ==> bundle.events[i].id != id)
        && id in b.leafHashes && b.leafHashes[id] == leaf)
  }

  ghost predicate ProofChecked(c: Suite, bundle: Bundle, b: SerializedBatch, id: nat, index: nat, leaf: Digest) {
    && id in b.merkleProofs && index < |b.eventIds| && b.eventIds[index] == id && SpeaksFor(bundle, b, id, leaf)
    && Merkle.Climb(c.hashPair, leaf, index, b.merkleProofs[id]) == b.root
  }

  ghost predicate EventChecked(c: Suite, bundle: Bundle, i: nat)
    requires i < |bundle.events|
  {
    var e := bundle.events[i];
    && e.hash == c.hashEnvelope(Envelope(e.alg, e.traceId, e.seqNo, e.kind, e.payloadHash, e.prevHash,
                                         e.policyVersion, e.createdAt))
    && e.alg == Some("sha256-ed25519-v1") && c.verify(bundle.publicKey, e.hash, e.signature)
    && e.prevHash == if i == 0 then None else Some(bundle.events[i - 1].hash)
  }

  /**
   Nothing is waved through: in an accepted bundle every event's fields hash to its hash under the supported
   algorithm, its signature verifies under the bundle's key and it points at the event before it; every batch's
   root is signed, its anchor does not fail, and every proof leads from the hash it speaks for to that root.
   */
  lemma AcceptedChecksAll(c: Suite, oracle: AnchorOracle, bundle: Bundle)
    requires Accepted(c, oracle, bundle)
    ensures forall i :: 0 <= i < |bundle.events| ==> EventChecked(c, bundle, i)
    ensures forall b :: b in bundle.batches || (bundle.batches == [] && bundle.batch == Some(b)) ==>
      && c.verify(bundle.publicKey, b.root, b.signature)
      && (b.anchor.Some? && b.anchor.value != "" ==> oracle(b.anchor.value, b.root) != Failed)
      && forall id :: id in b.merkleProofs ==> exists index, leaf :: ProofChecked(c, bundle, b, id, index, leaf)
  {
    forall i | 0 <= i < |bundle.events|
      ensures EventChecked(c, bundle, i)
    {
      assert EventAccepted(c, bundle.publicKey, bundle.events, i);
    }
    forall b | b in bundle.batches || (bundle.batches == [] && bundle.batch == Some(b))
      ensures BatchAccepted(c, oracle, bundle.publicKey, bundle.events, b)
      ensures forall id :: id in b.merkleProofs ==> exists index, leaf :: ProofChecked(c, bundle, b, id, index, leaf)
    {
      assert b in CheckedBatches(bundle);
      forall id | id in b.merkleProofs
        ensures exists index, leaf :: ProofChecked(c, bundle, b, id, index, leaf)
      {
        assert ProofAccepted(c, bundle.events, b, id);
        assert ProofChecked(c, bundle, b, id, IndexOf(b.eventIds, id), LeafFor(bundle.events, b, id).value);
      }
    }
  }

  lemma SealedEventCovered(c: Suite, service: PrivateKey, db: Db, ids: seq<nat>, k: nat, b: nat, verified: bool)
    requires forall b :: 0 <= b < |db.batches| ==> InRange(db, db.batches[b].eventIds)
    requires InRange(db, ids) && k < |ids| && b < |db.batches|
    requires db.events[ids[k]].batchId == Some(b) && ids[k] in db.batches[b].eventIds
    ensures var bundle := Assembled(c, service, db, ids, verified);
            exists j :: 0 <= j < |bundle.batches| && ids[k] in bundle.batches[j].merkleProofs
                        && bundle.batches[j].root == db.batches[b].root
  {
    var sealed := BatchesFor(db, ids, |db.batches|);
    var bundle := Assembled(c, service, db, ids, verified);
    assert b in sealed;
    var j :| 0 <= j < |sealed| && sealed[j] == b;
    assert ids[k] in bundle.batches[j].merkleProofs;
  }

  /** An org with a signing key of its own exports bundles the offline verifier rejects. */
  lemma OwnKeyBundleRejected(c: Suite, oracle: AnchorOracle, service: PrivateKey, private: PrivateKey)
    requires SignedVerifies(c) && SignatureNamesSigner(c)
    requires private != "" && c.publicOf(private) != c.publicOf(service)
    ensures var record := Record(RecordArgs("org", "t", 1, "note", "{}", None, 0));
            var db := Run(c, service, [Provision("org", private), record]);
            && (forall b :: 0 <= b < |db.batches| ==> InRange(db, db.batches[b].eventIds))
            && !Accepted(c, oracle, BundleOf(c, service, db, "org", "t"))
  {
    var args := RecordArgs("org", "t", 1, "note", "{}", None, 0);
    var ops := [Provision("org", private), Record(args)];
    var db := Run(c, service, ops);
    OwnKeyRun(c, service, private, args);
    EvidenceRoundTrip(c, oracle, service, ops, "org", "t");
    assert !UnderServiceKey(c, service, db.keys, TraceEvents(Cores(db.events), "org", "t")[0]);
  }

  /** The first event of a database is alone in its trace. */
  lemma FirstRecord(c: Suite, service: PrivateKey, db: Db, a: RecordArgs)
    requires db.events == [] && db.traces == map[] && a.seqNo == 1 && !IsBlank(a.kind)
    ensures var r := Recorded(c, service, db, a);
            && r.Ok? && r.value.keys == db.keys
            && TraceEvents(Cores(r.value.events), a.org, a.traceId) == [NewCore(c, service, db, a)]
  {
    assert TraceIds(Cores(db.events), a.org, a.traceId) == [];
    var core := NewCore(c, service, db, a);
    assert Cores(Recorded(c, service, db, a).value.events) == [core];
    SoloTrace(core, a.org, a.traceId);
  }

  lemma SoloTrace(core: EventCore, org: string, traceId: string)
    requires InTrace(core, org, traceId)
    ensures TraceEvents([core], org, traceId) == [core]
  {
    assert [core][..0] == [];
    assert TraceIds([core], org, traceId) == [0];
  }

  /** One event in the trace, signed with the organisation's own key. */
  lemma OwnKeyRun(c: Suite, service: PrivateKey, private: PrivateKey, args: RecordArgs)
    requires private != "" && args == RecordArgs("org", "t", 1, "note", "{}", None, 0)
    ensures var db := Run(c, service, [Provision("org", private), Record(args)]);
            var events := TraceEvents(Cores(db.events), "org", "t");
            && db.keys == [OrgKey("org", c.publicOf(private), Some(private), true)]
            && |events| == 1 && events[0].signingKeyId == Some(0)
  {
    var ops := [Provision("org", private), Record(args)];
    var db1 := Rotated(c, EMPTY, "org", private);
    assert ops[..1] == [ops[0]] && ops[..1][..0] == [];
    assert Run(c, service, ops[..1]) == db1;
    assert db1.keys == [OrgKey("org", c.publicOf(private), Some(private), true)];
    assert "note"[0] !in WHITESPACE;
    FirstRecord(c, service, db1, args);
  }
}
