/**
 The primitives the service assumes (app/crypto), as parameters: nothing here fixes SHA-256 or
 Ed25519. Each theorem names the laws it needs.
 */
module Crypto {
  import opened Prelude

  type Digest = string
  type PrivateKey = string
  type PublicKey = string
  type Signature = string

  /** The signed envelope of one event (app/services/envelope.py). */
  datatype Envelope = Envelope(
    alg: Option<string>,
    traceId: string,
    seqNo: int,
    kind: string,
    payloadHash: Digest,
    prevHash: Option<Digest>,
    policyVersion: Option<string>,
    createdAt: int)

  datatype Suite = Suite(
    hashEnvelope: Envelope -> Digest,
    redact: string -> string,
    hashPayload: string -> Digest,
    hashPair: (Digest, Digest) -> Digest,
    emptyRoot: Digest,
    publicOf: PrivateKey -> PublicKey,
    sign: (PrivateKey, Digest) -> Signature,
    verify: (PublicKey, Digest, Signature) -> bool)

  const DEFAULT_ALGORITHM := "sha256-ed25519-v1"

  predicate IsSupported(alg: string) {
    alg == DEFAULT_ALGORITHM
  }

  /** What was signed verifies under the signer's public key. */
  ghost predicate SignedVerifies(c: Suite) {
    forall k, m :: c.verify(c.publicOf(k), m, c.sign(k, m))
  }

  /** A signature verifies under no other public key. */
  ghost predicate SignatureNamesSigner(c: Suite) {
    forall p, k, m :: c.verify(p, m, c.sign(k, m)) ==> p == c.publicOf(k)
  }

  ghost predicate EnvelopeInjective(c: Suite) {
    forall e, f :: c.hashEnvelope(e) == c.hashEnvelope(f) ==> e == f
  }
}

/** Re-verification of a trace (app/services/verification.py). */
module Verification {
  import opened Prelude
  import opened Crypto

  /** The columns of an event row that are written once, when it is recorded. */
  datatype EventCore = EventCore(
    org: string,
    traceId: string,
    seqNo: int,
    kind: string,
    payloadHash: Digest,
    envelope: Envelope,
    prevHash: Option<Digest>,
    hash: Digest,
    signature: Signature,
    policyVersion: Option<string>,
    alg: string,
    signingKeyId: Option<nat>,
    createdAt: int)

  datatype EventVerifyResult = EventVerifyResult(
    seqNo: int, kind: string, verified: bool, hashOk: bool, signatureOk: bool, chainOk: bool)

  datatype TraceReplayResult = TraceReplayResult(allVerified: bool, events: seq<EventVerifyResult>)

  datatype ReplayError = NoKey | TraceNotFound | TraceAccessDenied

  /** The recorded algorithm, falling back to the envelope's, falling back to none. */
  function EffectiveAlg(e: EventCore): string {
    if e.alg != "" then e.alg else if e.envelope.alg.Some? then e.envelope.alg.value else ""
  }

  /** The envelope as rebuilt from the columns. */
  function Rebuilt(e: EventCore): Envelope {
    Envelope(Some(EffectiveAlg(e)), e.traceId, e.seqNo, e.kind, e.payloadHash, e.prevHash,
             e.policyVersion, e.envelope.createdAt)
  }

  function VerifySingleEvent(c: Suite, e: EventCore, pem: PublicKey, expectedPrev: Option<Digest>)
    : EventVerifyResult
  {
    var hashOk := c.hashEnvelope(Rebuilt(e)) == e.hash;
    var signatureOk := IsSupported(EffectiveAlg(e)) && c.verify(pem, e.hash, e.signature);
    var chainOk := e.prevHash == expectedPrev;
    EventVerifyResult(e.seqNo, e.kind, hashOk && signatureOk && chainOk, hashOk, signatureOk, chainOk)
  }

  function PrevOf(events: seq<EventCore>, i: nat): Option<Digest>
    requires i <= |events|
  {
    if i == 0 then None else Some(events[i - 1].hash)
  }

  /** The verdict on event i of a listing, under the key `resolve` picks for it. */
  function ResultAt(c: Suite, events: seq<EventCore>, resolve: EventCore -> Option<PublicKey>, i: nat)
    : EventVerifyResult
    requires i < |events| && resolve(events[i]).Some?
  {
    VerifySingleEvent(c, events[i], resolve(events[i]).value, PrevOf(events, i))
  }

  /**
   What is reported of event i: whether its columns rebuild an envelope with its hash, whether a supported
   algorithm's signature verifies under its own key, and whether it points at the event before it.
   */
  lemma ResultExactly(c: Suite, events: seq<EventCore>, resolve: EventCore -> Option<PublicKey>, i: nat)
    requires i < |events| && resolve(events[i]).Some?
    ensures var e, r := events[i], ResultAt(c, events, resolve, i);
            var alg := if e.alg != "" then e.alg else if e.envelope.alg == None then "" else e.envelope.alg.value;
            && r.seqNo == e.seqNo && r.kind == e.kind
            && (r.hashOk <==>
                  e.hash == c.hashEnvelope(Envelope(Some(alg), e.traceId, e.seqNo, e.kind, e.payloadHash, e.prevHash,
                                                    e.policyVersion, e.envelope.createdAt)))
            && (r.signatureOk <==>
                  alg == "sha256-ed25519-v1" && c.verify(resolve(e).value, e.hash, e.signature))
            && (r.chainOk <==> e.prevHash == if i == 0 then None else Some(events[i - 1].hash))
            && (r.verified <==> r.hashOk && r.signatureOk && r.chainOk)
  {
  }

  ghost predicate VerifiesAt(c: Suite, events: seq<EventCore>, resolve: EventCore -> Option<PublicKey>, i: nat)
    requires i < |events|
  {
    resolve(events[i]).Some? && ResultAt(c, events, resolve, i).verified
  }

  /** Every event checks out against its own key and its predecessor's hash. */
  ghost predicate ChainVerifies(c: Suite, events: seq<EventCore>, resolve: EventCore -> Option<PublicKey>) {
    forall i :: 0 <= i < |events| ==> VerifiesAt(c, events, resolve, i)
  }

  /** `resolve` picks each event's key; None stands for a key that cannot be found. */
  method VerifyEventChain(c: Suite, events: seq<EventCore>, resolve: EventCore -> Option<PublicKey>)
    returns (r: Result<TraceReplayResult, ReplayError>)
    ensures r.Err? <==> exists i :: 0 <= i < |events| && resolve(events[i]).None?
    ensures r.Ok? ==> |r.value.events| == |events|
    ensures r.Ok? ==> forall i :: 0 <= i < |events| ==> r.value.events[i] == ResultAt(c, events, resolve, i)
    ensures r.Ok? ==> (r.value.allVerified <==> ChainVerifies(c, events, resolve))
  {
    var results: seq<EventVerifyResult> := [];
    var prevHash: Option<Digest> := None;
    var allOk := true;
    for i := 0 to |events|
      invariant |results| == i && prevHash == PrevOf(events, i)
      invariant forall k :: 0 <= k < i ==> resolve(events[k]).Some?
      invariant forall k :: 0 <= k < i ==> results[k] == ResultAt(c, events, resolve, k)
      invariant allOk <==> forall k :: 0 <= k < i ==> VerifiesAt(c, events, resolve, k)
    {
      var pem := resolve(events[i]);
      if pem.None? {
        return Err(NoKey);
      }
      var result := VerifySingleEvent(c, events[i], pem.value, prevHash);
      assert VerifiesAt(c, events, resolve, i) <==> result.verified;
      allOk := allOk && result.verified;
      results := results + [result];
      prevHash := Some(events[i].hash);
    }
    r := Ok(TraceReplayResult(allOk, results));
  }

  // ---------------------------------------------------------------------------------------
  // Tamper evidence
  // ---------------------------------------------------------------------------------------

  lemma VerifiedEventFacts(c: Suite, events: seq<EventCore>, resolve: EventCore -> Option<PublicKey>, i: nat)
    requires ChainVerifies(c, events, resolve) && i < |events|
    ensures c.hashEnvelope(Rebuilt(events[i])) == events[i].hash
    ensures events[i].prevHash == PrevOf(events, i)
  {
    assert VerifiesAt(c, events, resolve, i);
  }

  lemma VerifiedPrefix(c: Suite, events: seq<EventCore>, resolve: EventCore -> Option<PublicKey>, n: nat)
    requires ChainVerifies(c, events, resolve) && n <= |events|
    ensures ChainVerifies(c, events[..n], resolve)
  {
    forall i | 0 <= i < n
      ensures VerifiesAt(c, events[..n], resolve, i)
    {
      assert VerifiesAt(c, events, resolve, i);
    }
  }

  /**
   The last hash pins the whole trace: two verifying traces that end in the same hash have the
   same length and agree on every envelope field at every position, whatever keys signed them.
   */
  lemma {:induction false} TamperEvidence(
    c: Suite,
    a: seq<EventCore>, ra: EventCore -> Option<PublicKey>,
    b: seq<EventCore>, rb: EventCore -> Option<PublicKey>)
    requires EnvelopeInjective(c)
    requires a != [] && b != [] && ChainVerifies(c, a, ra) && ChainVerifies(c, b, rb)
    requires a[|a| - 1].hash == b[|b| - 1].hash
    ensures |a| == |b|
    ensures forall i :: 0 <= i < |a| ==> Rebuilt(a[i]) == Rebuilt(b[i]) && a[i].hash == b[i].hash
    decreases |a|
  {
    var m, n := |a| - 1, |b| - 1;
    VerifiedEventFacts(c, a, ra, m);
    VerifiedEventFacts(c, b, rb, n);
    assert Rebuilt(a[m]) == Rebuilt(b[n]);
    assert PrevOf(a, m) == Rebuilt(a[m]).prevHash == PrevOf(b, n);
    if m > 0 {
      VerifiedPrefix(c, a, ra, m);
      VerifiedPrefix(c, b, rb, n);
      TamperEvidence(c, a[..m], ra, b[..n], rb);
    }
  }
}
