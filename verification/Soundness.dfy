/**
 What the offline verifier's acceptance means (app/bundle/verify.py), for bundles from any hand: an accepted
 bundle shows the beginning of one recorded trace. And what it does not mean: the end may be missing.
 */
module Soundness {
  import opened Prelude
  import opened Crypto
  import opened Verification
  import opened Ledger
  import opened Evidence
  import Merkle

  /** The digest of an event the ledger recorded. */
  ghost predicate IsRecorded(db: Db, digest: Digest) {
    exists i :: 0 <= i < |db.events| && db.events[i].core.hash == digest
  }

  ghost predicate IsSealedRoot(db: Db, digest: Digest) {
    exists b :: 0 <= b < |db.batches| && db.batches[b].root == digest
  }

  /** Signatures in the bundle that verify under the service key were made by the service in this run. */
  ghost predicate SignaturesAreOurs(c: Suite, service: PrivateKey, db: Db, bundle: Bundle) {
    forall i :: 0 <= i < |bundle.events|
                && c.verify(c.publicOf(service), bundle.events[i].hash, bundle.events[i].signature) ==>
      IsRecorded(db, bundle.events[i].hash) || IsSealedRoot(db, bundle.events[i].hash)
  }

  /** No envelope hashes to the digest of two Merkle nodes. */
  ghost predicate EnvelopesAreNotNodes(c: Suite) {
    forall e, a, b :: c.hashEnvelope(e) != c.hashPair(a, b)
  }

  lemma {:induction false} RootIsLeafOrNode(h: (Digest, Digest) -> Digest, leaves: seq<Digest>)
    requires leaves != []
    ensures (|leaves| == 1 && Merkle.Root(h, leaves) == leaves[0]) ||
            exists a, b :: Merkle.Root(h, leaves) == h(a, b)
    decreases |leaves|
  {
    if |leaves| > 1 {
      var up := Merkle.LevelUp(h, leaves);
      RootIsLeafOrNode(h, up);
      assert Merkle.Root(h, leaves) == Merkle.Root(h, up);
      assert up[0] == h(Merkle.Padded(leaves)[0], Merkle.Padded(leaves)[1]);
    }
  }

  /** The root of a batch of one is that event's own hash; no other root is an envelope's hash. */
  lemma SealedEnvelopeIsRecorded(c: Suite, service: PrivateKey, db: Db, e: Envelope)
    requires Inv(c, service, db) && EnvelopesAreNotNodes(c) && IsSealedRoot(db, c.hashEnvelope(e))
    ensures IsRecorded(db, c.hashEnvelope(e))
  {
    var b :| 0 <= b < |db.batches| && db.batches[b].root == c.hashEnvelope(e);
    assert BatchOk(c, service, db.events, db.batches, b);
    var ids := db.batches[b].eventIds;
    RootIsLeafOrNode(c.hashPair, Hashes(db.events, ids));
    assert db.events[ids[0]].core.hash == Hashes(db.events, ids)[0];
  }

  /** The recorded events of a trace, under the organisation that owns it. */
  function RecordedTrace(db: Db, traceId: string): seq<EventCore> {
    if traceId in db.traces then TraceEvents(Cores(db.events), db.traces[traceId], traceId) else []
  }

  function Traces(db: Db): string -> seq<EventCore> {
    (traceId: string) => RecordedTrace(db, traceId)
  }

  /** Row i stands in its trace at the place its number says, linked to the one before. */
  lemma RowInTrace(c: Suite, service: PrivateKey, db: Db, i: nat) returns (k: nat)
    requires Inv(c, service, db) && i < |db.events|
    ensures var trace := RecordedTrace(db, db.events[i].core.traceId);
            k < |trace| && trace[k] == db.events[i].core && ListedAt(trace, k)
  {
    var e, cores := db.events[i].core, Cores(db.events);
    var ids := TraceIds(cores, e.org, e.traceId);
    assert InTrace(cores[i], e.org, e.traceId);
    k :| 0 <= k < |ids| && ids[k] == i;
    ListingIsSeqOrder(cores, e.org, e.traceId, k);
  }

  /** Event i of an accepted bundle was recorded, with the very envelope the bundle shows. */
  lemma AcceptedEventRecorded(c: Suite, oracle: AnchorOracle, service: PrivateKey, db: Db, bundle: Bundle, i: nat)
    returns (row: nat)
    requires EnvelopeInjective(c) && EnvelopesAreNotNodes(c) && Inv(c, service, db)
    requires bundle.publicKey == c.publicOf(service) && SignaturesAreOurs(c, service, db, bundle)
    requires Accepted(c, oracle, bundle) && i < |bundle.events|
    ensures row < |db.events|
    ensures db.events[row].core.hash == bundle.events[i].hash
    ensures db.events[row].core.envelope == BuildEnvelope(bundle.events[i])
    ensures db.events[row].core.prevHash == bundle.events[i].prevHash
    ensures bundle.events[i].prevHash == PrevHash(bundle.events, i)
  {
    assert EventAccepted(c, bundle.publicKey, bundle.events, i);
    if !IsRecorded(db, bundle.events[i].hash) {
      SealedEnvelopeIsRecorded(c, service, db, BuildEnvelope(bundle.events[i]));
    }
    row :| 0 <= row < |db.events| && db.events[row].core.hash == bundle.events[i].hash;
    assert CoreOk(c, service, db.keys, db.events[row].core);
  }

  /** The events shown and the trace agree up to n, envelope for envelope. */
  ghost predicate AgreesUpTo(shown: seq<SerializedEvent>, trace: seq<EventCore>, n: nat)
    requires n <= |shown|
  {
    n <= |trace| && forall i :: 0 <= i < n ==>
      trace[i].hash == shown[i].hash && trace[i].envelope == BuildEnvelope(shown[i])
  }

  /** Event i is linked to the one shown before it, and stands at place k of the trace it names, linked there too. */
  ghost predicate StandsAt(shown: seq<SerializedEvent>, trace: seq<EventCore>, i: nat, k: nat)
    requires i < |shown|
  {
    && k < |trace|
    && trace[k].hash == shown[i].hash && trace[k].envelope == BuildEnvelope(shown[i])
    && shown[i].prevHash == PrevHash(shown, i) && shown[i].prevHash == PrevOf(trace, k)
  }

  ghost predicate Stands(shown: seq<SerializedEvent>, trace: string -> seq<EventCore>, i: nat)
    requires i < |shown|
  {
    exists k: nat :: StandsAt(shown, trace(shown[i].traceId), i, k)
  }

  ghost predicate OneHash(trace: string -> seq<EventCore>, a: string, i: nat, b: string, j: nat) {
    i < |trace(a)| && j < |trace(b)| && trace(a)[i].hash == trace(b)[j].hash
  }

  /** Links alone lead from the first event of a trace through the trace. */
  lemma {:induction false} LinksFollowTrace(shown: seq<SerializedEvent>, trace: string -> seq<EventCore>, n: nat)
    requires shown != [] && n <= |shown| && forall i :: 0 <= i < |shown| ==> Stands(shown, trace, i)
    requires forall a, i, b, j :: OneHash(trace, a, i, b, j) ==> a == b && i == j
    ensures AgreesUpTo(shown, trace(shown[0].traceId), n)
    decreases n
  {
    if n > 0 {
      LinksFollowTrace(shown, trace, n - 1);
      assert Stands(shown, trace, n - 1);
      var first, mine := shown[0].traceId, shown[n - 1].traceId;
      var k: nat :| StandsAt(shown, trace(mine), n - 1, k);
      if n > 1 {
        assert k > 0 && OneHash(trace, mine, k - 1, first, n - 2);
      }
      assert mine == first && k == n - 1;
    }
  }

  /** An accepted event stands in the trace it names. */
  lemma AcceptedStands(c: Suite, oracle: AnchorOracle, service: PrivateKey, db: Db, bundle: Bundle, i: nat)
    requires EnvelopeInjective(c) && EnvelopesAreNotNodes(c) && Inv(c, service, db)
    requires bundle.publicKey == c.publicOf(service) && SignaturesAreOurs(c, service, db, bundle)
    requires Accepted(c, oracle, bundle) && i < |bundle.events|
    ensures Stands(bundle.events, Traces(db), i)
  {
    var row := AcceptedEventRecorded(c, oracle, service, db, bundle, i);
    var k := RowInTrace(c, service, db, row);
    var mine := db.events[row].core.traceId;
    PlaceInTrace(c, service, db, mine, k);
    assert mine == bundle.events[i].traceId;
    assert bundle.events[i].prevHash == PrevOf(RecordedTrace(db, mine), k);
    assert StandsAt(bundle.events, RecordedTrace(db, mine), i, k);
    assert Traces(db)(mine) == RecordedTrace(db, mine);
    assert StandsAt(bundle.events, Traces(db)(bundle.events[i].traceId), i, k);
  }

  lemma HashesTellPlaces(c: Suite, service: PrivateKey, db: Db)
    requires EnvelopeInjective(c) && Inv(c, service, db)
    ensures forall a, i, b, j :: OneHash(Traces(db), a, i, b, j) ==> a == b && i == j
  {
    forall a, i, b, j | OneHash(Traces(db), a, i, b, j)
      ensures a == b && i == j
    {
      SameHashSamePlace(c, service, db, a, i, b, j);
    }
  }

  /** Two rows with one hash are at one place of one trace. */
  lemma SameHashSamePlace(c: Suite, service: PrivateKey, db: Db, a: string, i: nat, b: string, j: nat)
    requires EnvelopeInjective(c) && Inv(c, service, db)
    requires i < |RecordedTrace(db, a)| && j < |RecordedTrace(db, b)|
    requires RecordedTrace(db, a)[i].hash == RecordedTrace(db, b)[j].hash
    ensures a == b && i == j
  {
    PlaceInTrace(c, service, db, a, i);
    PlaceInTrace(c, service, db, b, j);
  }

  lemma PlaceInTrace(c: Suite, service: PrivateKey, db: Db, traceId: string, i: nat)
    requires Inv(c, service, db) && i < |RecordedTrace(db, traceId)|
    ensures var e := RecordedTrace(db, traceId)[i];
            && e.hash == c.hashEnvelope(e.envelope)
            && e.envelope.traceId == traceId && e.envelope.seqNo == i + 1
  {
    var org := db.traces[traceId];
    ListingIsSeqOrder(Cores(db.events), org, traceId, i);
    var id := TraceIds(Cores(db.events), org, traceId)[i];
    assert InTrace(Cores(db.events)[id], org, traceId);
    assert CoreOk(c, service, db.keys, db.events[id].core);
  }

  /**
   Whoever put it together: a bundle with events that the verifier accepts under the service key shows the first
   events of one recorded trace, in order, each with the envelope that was recorded.
   */
  lemma BundleSoundness(c: Suite, oracle: AnchorOracle, service: PrivateKey, ops: seq<Op>, bundle: Bundle)
    requires EnvelopeInjective(c) && EnvelopesAreNotNodes(c)
    requires bundle.publicKey == c.publicOf(service)
    requires SignaturesAreOurs(c, service, Run(c, service, ops), bundle)
    requires Accepted(c, oracle, bundle) && bundle.events != []
    ensures var trace := RecordedTrace(Run(c, service, ops), bundle.events[0].traceId);
            AgreesUpTo(bundle.events, trace, |bundle.events|)
  {
    var db := Run(c, service, ops);
    ReachableInv(c, service, ops);
    forall i | 0 <= i < |bundle.events|
      ensures Stands(bundle.events, Traces(db), i)
    {
      AcceptedStands(c, oracle, service, db, bundle, i);
    }
    HashesTellPlaces(c, service, db);
    LinksFollowTrace(bundle.events, Traces(db), |bundle.events|);
  }

  // ---------------------------------------------------------------------------------------
  // What it does not show
  // ---------------------------------------------------------------------------------------

  /** Any accepted bundle is accepted again with its last events, and all its batches, left out. */
  lemma CutBundleAccepted(c: Suite, oracle: AnchorOracle, bundle: Bundle, n: nat)
    requires Accepted(c, oracle, bundle) && n <= |bundle.events|
    ensures Accepted(c, oracle, bundle.(events := bundle.events[..n], batches := [], batch := None))
  {
    var cut := bundle.events[..n];
    forall i | 0 <= i < n
      ensures EventAccepted(c, bundle.publicKey, cut, i)
    {
      assert EventAccepted(c, bundle.publicKey, bundle.events, i);
    }
  }

  /**
   An exported bundle keeps being accepted with its last events left out and its batches whole: the leaves of
   the missing events are still listed. Nothing in a bundle says how long its trace is.
   */
  lemma CutExportAccepted(c: Suite, oracle: AnchorOracle, service: PrivateKey, ops: seq<Op>, org: string,
                          traceId: string, n: nat)
    requires SignedVerifies(c)
    requires n <= |TraceIds(Cores(Run(c, service, ops).events), org, traceId)|
    ensures var db := Run(c, service, ops);
            && (forall b :: 0 <= b < |db.batches| ==> InRange(db, db.batches[b].eventIds))
            && var bundle := BundleOf(c, service, db, org, traceId);
               && n <= |bundle.events|
               && (Accepted(c, oracle, bundle) ==>
                     Accepted(c, oracle, bundle.(events := bundle.events[..n])))
  {
    var db := Run(c, service, ops);
    ReachableInv(c, service, ops);
    InvBatchesInRange(c, service, db);
    CutFromDb(c, oracle, service, db, org, traceId, n);
  }

  lemma CutFromDb(c: Suite, oracle: AnchorOracle, service: PrivateKey, db: Db, org: string, traceId: string, n: nat)
    requires SignedVerifies(c) && Inv(c, service, db) && n <= |TraceIds(Cores(db.events), org, traceId)|
    requires forall b :: 0 <= b < |db.batches| ==> InRange(db, db.batches[b].eventIds)
    ensures var bundle := BundleOf(c, service, db, org, traceId);
            && n <= |bundle.events|
            && (Accepted(c, oracle, bundle) ==> Accepted(c, oracle, bundle.(events := bundle.events[..n])))
  {
    var bundle := BundleOf(c, service, db, org, traceId);
    if Accepted(c, oracle, bundle) {
      CutBatchesAccepted(c, oracle, service, db, org, traceId, n);
      CutEvents(c, oracle, bundle, n);
    }
  }

  /** The verifier accepts the first events of an accepted bundle if its batches do not miss the others. */
  lemma CutEvents(c: Suite, oracle: AnchorOracle, bundle: Bundle, n: nat)
    requires Accepted(c, oracle, bundle) && n <= |bundle.events|
    requires forall k :: 0 <= k < |CheckedBatches(bundle)| ==>
      BatchAccepted(c, oracle, bundle.publicKey, bundle.events[..n], CheckedBatches(bundle)[k])
    ensures Accepted(c, oracle, bundle.(events := bundle.events[..n]))
  {
    CutBundleAccepted(c, oracle, bundle, n);
    var cut := bundle.(events := bundle.events[..n], batches := [], batch := None);
    forall i | 0 <= i < n
      ensures EventAccepted(c, bundle.publicKey, bundle.events[..n], i)
    {
      assert EventAccepted(c, cut.publicKey, cut.events, i);
    }
    assert CheckedBatches(bundle.(events := bundle.events[..n])) == CheckedBatches(bundle);
  }

  lemma CutBatchesAccepted(c: Suite, oracle: AnchorOracle, service: PrivateKey, db: Db, org: string, traceId: string,
                           n: nat)
    requires SignedVerifies(c) && Inv(c, service, db) && n <= |TraceIds(Cores(db.events), org, traceId)|
    requires forall b :: 0 <= b < |db.batches| ==> InRange(db, db.batches[b].eventIds)
    requires Accepted(c, oracle, BundleOf(c, service, db, org, traceId))
    ensures var bundle := BundleOf(c, service, db, org, traceId);
            forall k :: 0 <= k < |CheckedBatches(bundle)| ==>
              BatchAccepted(c, oracle, bundle.publicKey, bundle.events[..n], CheckedBatches(bundle)[k])
  {
    var ids := TraceIds(Cores(db.events), org, traceId);
    var bundle := BundleOf(c, service, db, org, traceId);
    assert bundle.events[..n] == SerializeEvents(db, ids[..n]);
    forall k | 0 <= k < |CheckedBatches(bundle)|
      ensures BatchAccepted(c, oracle, bundle.publicKey, bundle.events[..n], CheckedBatches(bundle)[k])
    {
      assert BatchAccepted(c, oracle, bundle.publicKey, bundle.events, CheckedBatches(bundle)[k]);
      CutBatchAccepted(c, oracle, service, db, ids, n, BatchesFor(db, ids, |db.batches|)[k]);
    }
  }

  /** A batch exported with the whole trace also passes beside the first events alone, whatever its anchor says. */
  lemma CutBatchAccepted(c: Suite, oracle: AnchorOracle, service: PrivateKey, db: Db, ids: seq<nat>, n: nat, b: nat)
    requires SignedVerifies(c) && Inv(c, service, db) && n <= |ids| && InRange(db, ids)
    requires b < |db.batches| && InRange(db, db.batches[b].eventIds)
    ensures var batch := SerializedBatchOf(c, db, b, set k | 0 <= k < |ids| :: ids[k]);
            BatchAccepted(c, oracle, c.publicOf(service), SerializeEvents(db, ids[..n]), batch) <==>
              AnchorAccepted(oracle, batch)
  {
    assert BatchOk(c, service, db.events, db.batches, b);
    ExportedBatch(c, oracle, service, db, ids[..n], set k | 0 <= k < |ids| :: ids[k], b);
  }
}
