/**
 Grafting a buffered segment on the server (app/services/offline.py): the whole segment is verified
 before anything is written, then each item goes through the gate into the ledger. What the gate decides
 about an item is an input; the events it leaves are recorded in the ledger of `Ledger.dfy`.
 */
module OfflineGraft {
  import opened Prelude
  import opened OfflineQueue
  import L = Ledger
  import Crypto

  type PublicKey = string

  /** One posted item; `output` is None when it is not an object. */
  datatype Item = Item(
    action: string, output: Option<string>, occurredAt: string, localSeq: int, prevLocal: Option<Digest>,
    payloadHash: Option<Digest>, clientSignature: Signature, traceId: Option<string>, localStatus: Option<string>)

  /** Hashes as the SDK computes them, and signature checks under any registered device key. */
  datatype Checker = Checker(
    hashClaim: Claim -> Digest,
    hashPayload: string -> Digest,
    verify: (PublicKey, Digest, Signature) -> bool)

  datatype SegmentError =
    | UnknownDevice | RevokedDevice | DifferentKey
    | OutputNotObject(index: nat) | PayloadMismatch(index: nat) | BrokenLink(index: nat)
    | BadSignature(index: nat) | GateRefused(index: nat)

  datatype Device = Device(deviceId: string, publicKey: PublicKey, revoked: bool)

  function ItemClaim(k: Checker, deviceId: string, item: Item): Claim
    requires item.output.Some?
  {
    BuildOfflineClaim(deviceId, item.localSeq, item.prevLocal, item.occurredAt, item.action,
                      k.hashPayload(item.output.value))
  }

  /** What item `i` has to satisfy, given the one before it. */
  ghost predicate ItemOk(k: Checker, d: Device, items: seq<Item>, i: nat)
    requires i < |items|
  {
    && items[i].output.Some?
    && items[i].payloadHash == Some(k.hashPayload(items[i].output.value))
    && (i > 0 ==>
          && items[i - 1].output.Some?
          && ItemClaim(k, d.deviceId, items[i]).prevLocal == k.hashClaim(ItemClaim(k, d.deviceId, items[i - 1])))
    && k.verify(d.publicKey, k.hashClaim(ItemClaim(k, d.deviceId, items[i])), items[i].clientSignature)
  }

  ghost predicate SegmentOk(k: Checker, d: Device, items: seq<Item>) {
    forall i :: 0 <= i < |items| ==> ItemOk(k, d, items, i)
  }

  /** The error names the first item at fault, and its first fault. */
  ghost predicate FirstFault(k: Checker, d: Device, items: seq<Item>, e: SegmentError) {
    && (e.OutputNotObject? || e.PayloadMismatch? || e.BrokenLink? || e.BadSignature?)
    && e.index < |items| && (forall j :: 0 <= j < e.index ==> ItemOk(k, d, items, j))
    && var item := items[e.index];
       && (e.OutputNotObject? <==> item.output.None?)
       && (e.PayloadMismatch? <==>
             item.output.Some? && item.payloadHash != Some(k.hashPayload(item.output.value)))
       && (e.BrokenLink? ==>
             && e.index > 0 && items[e.index - 1].output.Some?
             && (if item.prevLocal.Some? then item.prevLocal.value else "") !=
                k.hashClaim(ItemClaim(k, d.deviceId, items[e.index - 1])))
       && (e.BadSignature? ==>
             !k.verify(d.publicKey, k.hashClaim(ItemClaim(k, d.deviceId, item)), item.clientSignature))
  }

  method VerifySegment(k: Checker, d: Device, items: seq<Item>) returns (r: Result<seq<Claim>, SegmentError>)
    ensures r.Ok? <==> SegmentOk(k, d, items)
    ensures r.Err? ==> FirstFault(k, d, items, r.error)
    ensures r.Ok? ==> |r.value| == |items|
    ensures r.Ok? ==> forall i :: 0 <= i < |items| ==>
      items[i].output.Some? && r.value[i] == ItemClaim(k, d.deviceId, items[i])
  {
    var verified: seq<Claim> := [];
    var prevLocal: Digest := "";
    for index := 0 to |items|
      invariant |verified| == index
      invariant forall i :: 0 <= i < index ==> ItemOk(k, d, items, i)
      invariant forall i :: 0 <= i < index ==>
        items[i].output.Some? && verified[i] == ItemClaim(k, d.deviceId, items[i])
      invariant index > 0 ==> prevLocal == k.hashClaim(verified[index - 1])
    {
      var item := items[index];
      if item.output.None? {
        assert !ItemOk(k, d, items, index);
        return Err(OutputNotObject(index));
      }
      var claim := ItemClaim(k, d.deviceId, item);
      if Some(claim.payloadHash) != item.payloadHash {
        assert !ItemOk(k, d, items, index);
        return Err(PayloadMismatch(index));
      }
      if index > 0 && claim.prevLocal != prevLocal {
        assert !ItemOk(k, d, items, index);
        return Err(BrokenLink(index));
      }
      var digest := k.hashClaim(claim);
      if !k.verify(d.publicKey, digest, item.clientSignature) {
        assert !ItemOk(k, d, items, index);
        return Err(BadSignature(index));
      }
      assert ItemOk(k, d, items, index);
      verified := verified + [claim];
      prevLocal := digest;
    }
    r := Ok(verified);
  }

  // ---------------------------------------------------------------------------------------
  // What an accepted segment proves
  // ---------------------------------------------------------------------------------------

  /**
   The device's key verifies only digests of claims the device signed into its chain. A claim whose line was
   torn before it was whole is not among them: its signature never left the device.
   */
  ghost predicate OnlySignedVerify(k: Checker, d: Device, signed: seq<Record>) {
    forall digest, sig :: k.verify(d.publicKey, digest, sig) ==>
      exists i :: 0 <= i < |signed| && signed[i].claimHash == digest
  }

  ghost predicate CollisionFree(k: Checker) {
    && (forall a, b :: k.hashClaim(a) == k.hashClaim(b) ==> a == b)
    && (forall a, b :: k.hashPayload(a) == k.hashPayload(b) ==> a == b)
    && (forall a :: k.hashClaim(a) != "")
  }

  /** The item is the signed record, field for field, content included. */
  ghost predicate ItemIsRecord(deviceId: string, item: Item, r: Record) {
    && item.output == Some(r.output)
    && item.action == r.action && item.occurredAt == r.occurredAt && item.localSeq == r.localSeq
    && ClaimOf(deviceId, r) ==
       BuildOfflineClaim(deviceId, item.localSeq, item.prevLocal, item.occurredAt, item.action, r.payloadHash)
  }

  lemma AcceptedItemWasSigned(s: Suite, k: Checker, d: Device, signed: seq<Record>, items: seq<Item>, i: nat)
    requires CollisionFree(k) && k.hashClaim == s.hashClaim && k.hashPayload == s.hashPayload
    requires OneChain(s, d.deviceId, signed) && OnlySignedVerify(k, d, signed)
    requires SegmentOk(k, d, items) && i < |items|
    ensures 1 <= items[i].localSeq <= |signed| && items[i].output.Some?
    ensures ItemClaim(k, d.deviceId, items[i]) == ClaimOf(d.deviceId, signed[items[i].localSeq - 1])
    ensures ItemIsRecord(d.deviceId, items[i], signed[items[i].localSeq - 1])
  {
    assert ItemOk(k, d, items, i);
    var digest := k.hashClaim(ItemClaim(k, d.deviceId, items[i]));
    var j :| 0 <= j < |signed| && signed[j].claimHash == digest;
    assert ChainedAt(s, d.deviceId, signed, j);
    assert ItemClaim(k, d.deviceId, items[i]) == ClaimOf(d.deviceId, signed[j]);
  }

  lemma AcceptedLinkAdvances(s: Suite, k: Checker, d: Device, signed: seq<Record>, items: seq<Item>, i: nat)
    requires CollisionFree(k) && k.hashClaim == s.hashClaim && k.hashPayload == s.hashPayload
    requires OneChain(s, d.deviceId, signed) && OnlySignedVerify(k, d, signed)
    requires SegmentOk(k, d, items) && 0 < i < |items|
    ensures items[i].localSeq == items[i - 1].localSeq + 1
  {
    AcceptedItemWasSigned(s, k, d, signed, items, i - 1);
    AcceptedItemWasSigned(s, k, d, signed, items, i);
    assert ItemOk(k, d, items, i);
    var a, b := items[i - 1].localSeq - 1, items[i].localSeq - 1;
    assert ChainedAt(s, d.deviceId, signed, a) && ChainedAt(s, d.deviceId, signed, b);
    assert ClaimOf(d.deviceId, signed[b]).prevLocal == signed[a].claimHash;
    if b > 0 {
      assert ChainedAt(s, d.deviceId, signed, b - 1);
      assert ClaimOf(d.deviceId, signed[b - 1]) == ClaimOf(d.deviceId, signed[a]);
    }
  }

  /**
   Every segment the server accepts for a device, whoever posted it, is a contiguous slice of the chain
   that device signed, with the very payloads it signed.
   */
  lemma {:induction false} AcceptedSegmentIsSlice(s: Suite, k: Checker, d: Device, signed: seq<Record>,
                                                  items: seq<Item>, n: nat)
    requires CollisionFree(k) && k.hashClaim == s.hashClaim && k.hashPayload == s.hashPayload
    requires OneChain(s, d.deviceId, signed) && OnlySignedVerify(k, d, signed)
    requires SegmentOk(k, d, items) && items != [] && n <= |items|
    ensures 1 <= items[0].localSeq && items[0].localSeq - 1 + n <= |signed|
    ensures forall i :: 0 <= i < n ==> ItemIsRecord(d.deviceId, items[i], signed[items[0].localSeq - 1 + i])
    decreases n
  {
    AcceptedItemWasSigned(s, k, d, signed, items, 0);
    if n > 0 {
      AcceptedSegmentIsSlice(s, k, d, signed, items, n - 1);
      AcceptedItemWasSigned(s, k, d, signed, items, n - 1);
      if n > 1 {
        AcceptedLinkAdvances(s, k, d, signed, items, n - 1);
        AcceptedSeqs(s, k, d, signed, items, n - 1);
      }
    }
  }

  lemma {:induction false} AcceptedSeqs(s: Suite, k: Checker, d: Device, signed: seq<Record>, items: seq<Item>, i: nat)
    requires CollisionFree(k) && k.hashClaim == s.hashClaim && k.hashPayload == s.hashPayload
    requires OneChain(s, d.deviceId, signed) && OnlySignedVerify(k, d, signed)
    requires SegmentOk(k, d, items) && i < |items|
    ensures items[i].localSeq == items[0].localSeq + i
  {
    if i > 0 {
      AcceptedSeqs(s, k, d, signed, items, i - 1);
      AcceptedLinkAdvances(s, k, d, signed, items, i);
    }
  }

  /**
   End to end: the claims of a run that always knew its tip, as every crash-free run does, form one chain,
   and any segment the server accepts from the device is a contiguous slice of it with the payloads claimed.
   */
  lemma OfflineContiguity(s: Suite, k: Checker, d: Device, batch: nat, ops: seq<Op>, items: seq<Item>)
    requires batch > 0 && (CrashFree(ops) || AlwaysKnewTip(s, d.deviceId, batch, ops))
    requires CollisionFree(k) && k.hashClaim == s.hashClaim && k.hashPayload == s.hashPayload
    requires OnlySignedVerify(k, d, Run(s, d.deviceId, batch, ops).appended)
    requires SegmentOk(k, d, items) && items != []
    ensures var signed := Run(s, d.deviceId, batch, ops).appended;
            var start := items[0].localSeq - 1;
            && OneChain(s, d.deviceId, signed)
            && 0 <= start && start + |items| <= |signed|
            && forall i :: 0 <= i < |items| ==> ItemIsRecord(d.deviceId, items[i], signed[start + i])
  {
    UnbrokenChain(s, d.deviceId, batch, ops);
    AcceptedSegmentIsSlice(s, k, d, Run(s, d.deviceId, batch, ops).appended, items, |items|);
  }

  // ---------------------------------------------------------------------------------------
  // What the SDK posts is accepted
  // ---------------------------------------------------------------------------------------

  /** The item a drain builds from a queued record. */
  function ItemOf(r: Record): Item {
    Item(r.action, Some(r.output), r.occurredAt, r.localSeq, r.prevLocal, Some(r.payloadHash), r.clientSignature,
         r.traceId, Some(r.localStatus))
  }

  function ItemsOf(records: seq<Record>): (items: seq<Item>)
    ensures |items| == |records| && forall i :: 0 <= i < |items| ==> items[i] == ItemOf(records[i])
  {
    seq(|records|, i requires 0 <= i < |records| => ItemOf(records[i]))
  }

  /** Any contiguous run of queued records passes the server's checks under the device's own key. */
  lemma QueuedSliceVerifies(s: Suite, k: Checker, d: Device, signed: seq<Record>, from: nat, to: nat)
    requires k.hashClaim == s.hashClaim && k.hashPayload == s.hashPayload
    requires forall digest :: k.verify(d.publicKey, digest, s.sign(digest))
    requires OneChain(s, d.deviceId, signed) && from <= to <= |signed|
    ensures SegmentOk(k, d, ItemsOf(signed[from..to]))
  {
    var items := ItemsOf(signed[from..to]);
    forall i | 0 <= i < |items|
      ensures ItemOk(k, d, items, i)
    {
      assert items[i] == ItemOf(signed[from + i]);
      assert ChainedAt(s, d.deviceId, signed, from + i);
      assert ItemClaim(k, d.deviceId, items[i]) == ClaimOf(d.deviceId, signed[from + i]);
      if i > 0 {
        assert items[i - 1] == ItemOf(signed[from + i - 1]);
        assert ChainedAt(s, d.deviceId, signed, from + i - 1);
        assert ItemClaim(k, d.deviceId, items[i - 1]) == ClaimOf(d.deviceId, signed[from + i - 1]);
      }
    }
  }

  lemma TailSlice<T>(q: seq<T>, tail: seq<T>, from: nat, to: nat)
    requires |tail| <= |q| && tail == q[|q| - |tail|..] && from <= to <= |tail|
    ensures tail[from..to] == q[|q| - |tail| + from..|q| - |tail| + to]
  {
  }

  lemma UnbrokenChain(s: Suite, deviceId: string, batch: nat, ops: seq<Op>)
    requires batch > 0 && (CrashFree(ops) || AlwaysKnewTip(s, deviceId, batch, ops))
    ensures OneChain(s, deviceId, Run(s, deviceId, batch, ops).appended)
  {
    if CrashFree(ops) {
      CrashFreeContiguous(s, deviceId, batch, ops);
    }
    ContiguousExactly(s, deviceId, batch, ops);
  }

  /** Every chunk a drain posts verifies, foreign lines in the file or not, if no record was written over. */
  lemma {:induction false} DrainedChunksVerify(s: Suite, k: Checker, d: Device, batch: nat, ops: seq<Op>, from: nat,
                                               to: nat)
    requires batch > 0
    requires CrashFree(ops) || (AlwaysKnewTip(s, d.deviceId, batch, ops) && NeverSpoils(s, d.deviceId, batch, ops))
    requires k.hashClaim == s.hashClaim && k.hashPayload == s.hashPayload
    requires forall digest :: k.verify(d.publicKey, digest, s.sign(digest))
    requires from <= to <= |Readable(Run(s, d.deviceId, batch, ops).lines)|
    ensures SegmentOk(k, d, ItemsOf(Readable(Run(s, d.deviceId, batch, ops).lines)[from..to]))
  {
    UnbrokenChain(s, d.deviceId, batch, ops);
    if CrashFree(ops) {
      CrashFreeContiguous(s, d.deviceId, batch, ops);
    }
    NoLoss(s, d.deviceId, batch, ops);
    QueuedChunkVerifies(s, k, d, Run(s, d.deviceId, batch, ops), from, to);
  }

  lemma QueuedChunkVerifies(s: Suite, k: Checker, d: Device, w: World, from: nat, to: nat)
    requires k.hashClaim == s.hashClaim && k.hashPayload == s.hashPayload
    requires forall digest :: k.verify(d.publicKey, digest, s.sign(digest))
    requires OneChain(s, d.deviceId, w.appended) && NothingLost(w)
    requires from <= to <= |Readable(w.lines)|
    ensures SegmentOk(k, d, ItemsOf(Readable(w.lines)[from..to]))
  {
    var start := |w.appended| - |Readable(w.lines)|;
    TailSlice(w.appended, Readable(w.lines), from, to);
    QueuedSliceVerifies(s, k, d, w.appended, start + from, start + to);
  }

  // ---------------------------------------------------------------------------------------
  // Exactly which chunks are accepted, and what a bad line does
  // ---------------------------------------------------------------------------------------

  /** Each record's number is one more than that of the record before it. */
  predicate Consecutive(rs: seq<Record>) {
    forall i :: 0 <= i < |rs| ==> FollowsOn(rs, i)
  }

  predicate FollowsOn(rs: seq<Record>, i: nat)
    requires i < |rs|
  {
    i > 0 ==> rs[i].localSeq == rs[i - 1].localSeq + 1
  }

  /** The server hashes as the device does, checks the device's signatures, and hashes do not collide. */
  ghost predicate Matches(s: Suite, k: Checker, d: Device) {
    && CollisionFree(k) && k.hashClaim == s.hashClaim && k.hashPayload == s.hashPayload
    && forall digest :: k.verify(d.publicKey, digest, s.sign(digest))
  }

  /** A record of the chain is the one at the place its number says. */
  lemma RecordInChain(s: Suite, deviceId: string, signed: seq<Record>, r: Record)
    requires OneChain(s, deviceId, signed) && r in signed
    ensures 1 <= r.localSeq <= |signed| && r == signed[r.localSeq - 1]
    ensures ChainedAt(s, deviceId, signed, r.localSeq - 1)
  {
    var i :| 0 <= i < |signed| && signed[i] == r;
    assert ChainedAt(s, deviceId, signed, i);
  }

  /** One record links to another exactly when it is the next one of the chain. */
  lemma LinksExactly(s: Suite, k: Checker, d: Device, signed: seq<Record>, a: Record, b: Record)
    requires Matches(s, k, d) && OneChain(s, d.deviceId, signed) && a in signed && b in signed
    ensures ItemClaim(k, d.deviceId, ItemOf(b)).prevLocal == k.hashClaim(ItemClaim(k, d.deviceId, ItemOf(a))) <==>
            b.localSeq == a.localSeq + 1
  {
    RecordInChain(s, d.deviceId, signed, a);
    RecordInChain(s, d.deviceId, signed, b);
    assert ItemClaim(k, d.deviceId, ItemOf(a)) == ClaimOf(d.deviceId, a);
    assert a.claimHash == k.hashClaim(ClaimOf(d.deviceId, a));
    if b.localSeq == 1 {
      assert ItemClaim(k, d.deviceId, ItemOf(b)).prevLocal == "";
    } else {
      var before := signed[b.localSeq - 2];
      RecordInChain(s, d.deviceId, signed, before);
      assert ChainedAt(s, d.deviceId, signed, b.localSeq - 2);
      assert ItemClaim(k, d.deviceId, ItemOf(b)).prevLocal == before.claimHash;
      SameHashSameNumber(k, d.deviceId, before, a);
    }
  }

  lemma SameHashSameNumber(k: Checker, deviceId: string, a: Record, b: Record)
    requires CollisionFree(k)
    ensures k.hashClaim(ClaimOf(deviceId, a)) == k.hashClaim(ClaimOf(deviceId, b)) ==> a.localSeq == b.localSeq
  {
    if k.hashClaim(ClaimOf(deviceId, a)) == k.hashClaim(ClaimOf(deviceId, b)) {
      assert ClaimOf(deviceId, a) == ClaimOf(deviceId, b);
    }
  }

  lemma RecordsVerifyExactly(s: Suite, k: Checker, d: Device, signed: seq<Record>, rs: seq<Record>)
    requires Matches(s, k, d) && OneChain(s, d.deviceId, signed)
    requires forall i :: 0 <= i < |rs| ==> rs[i] in signed
    ensures SegmentOk(k, d, ItemsOf(rs)) <==> Consecutive(rs)
  {
    var items := ItemsOf(rs);
    forall i | 0 <= i < |rs|
      ensures ItemOk(k, d, items, i) <==> FollowsOn(rs, i)
    {
      RecordInChain(s, d.deviceId, signed, rs[i]);
      assert ItemClaim(k, d.deviceId, items[i]) == ClaimOf(d.deviceId, rs[i]);
      if i > 0 {
        LinksExactly(s, k, d, signed, rs[i - 1], rs[i]);
      }
    }
  }

  /** What the queue reads was appended. */
  lemma ReadsAppended(s: Suite, deviceId: string, batch: nat, ops: seq<Op>)
    requires batch > 0
    ensures var w := Run(s, deviceId, batch, ops);
            forall i :: 0 <= i < |Readable(w.lines)| ==> Readable(w.lines)[i] in w.appended
  {
    RunTracked(s, deviceId, batch, ops);
    var w := Run(s, deviceId, batch, ops);
    var queue := Readable(w.lines);
    forall i | 0 <= i < |queue|
      ensures queue[i] in w.appended
    {
      assert i < |queue| - 1 ==> Older(queue[i], w.appended);
    }
  }

  /**
   Exactly which chunks the server accepts: after any run that always knew its tip, bad lines, torn writes and
   foreign lines included, a chunk of the queue passes if and only if its records are numbered consecutively.
   */
  lemma ChunkVerifiesExactly(s: Suite, k: Checker, d: Device, batch: nat, ops: seq<Op>, from: nat, to: nat)
    requires batch > 0 && AlwaysKnewTip(s, d.deviceId, batch, ops) && Matches(s, k, d)
    requires from <= to <= |Readable(Run(s, d.deviceId, batch, ops).lines)|
    ensures var chunk := Readable(Run(s, d.deviceId, batch, ops).lines)[from..to];
            SegmentOk(k, d, ItemsOf(chunk)) <==> Consecutive(chunk)
  {
    ContiguousExactly(s, d.deviceId, batch, ops);
    ReadsAppended(s, d.deviceId, batch, ops);
    var w := Run(s, d.deviceId, batch, ops);
    RecordsVerifyExactly(s, k, d, w.appended, Readable(w.lines)[from..to]);
  }

  function FirstChunk(batch: nat, queue: seq<Record>): seq<Record> {
    queue[..ChunkSize(batch, |queue|)]
  }

  /** The first chunk skips a number. */
  predicate Gap(batch: nat, lines: seq<Line>) {
    !Consecutive(FirstChunk(batch, Readable(lines)))
  }

  /** If this is a drain, the server took its first chunk only if it verifies. */
  ghost predicate Honest(k: Checker, d: Device, batch: nat, w: World, op: Op) {
    op.DrainQueue? && op.outcomes != [] && (op.outcomes[0].Acknowledged? || op.outcomes[0].ReplyLost?) ==>
      SegmentOk(k, d, ItemsOf(FirstChunk(batch, Readable(w.lines))))
  }

  lemma GapStays(batch: nat, queue: seq<Record>, more: seq<Record>)
    requires !Consecutive(FirstChunk(batch, queue))
    ensures !Consecutive(FirstChunk(batch, queue + more))
  {
    var chunk, longer := FirstChunk(batch, queue), FirstChunk(batch, queue + more);
    var i :| 0 <= i < |chunk| && !FollowsOn(chunk, i);
    assert longer[i] == chunk[i] && longer[i - 1] == chunk[i - 1];
    assert !FollowsOn(longer, i);
  }

  /** With a gap in the first chunk a step that destroys nothing neither hands anything over nor closes the gap. */
  lemma StalledStep(s: Suite, k: Checker, d: Device, batch: nat, w: World, op: Op)
    requires batch > 0 && Matches(s, k, d) && OneChain(s, d.deviceId, w.appended) && Gap(batch, w.lines)
    requires forall i :: 0 <= i < |Readable(w.lines)| ==> Readable(w.lines)[i] in w.appended
    requires !Spoils(s, w, op) && Honest(k, d, batch, w, op)
    ensures var w' := Step(s, d.deviceId, batch, w, op); w'.accepted == w.accepted && Gap(batch, w'.lines)
  {
    match op
    case DrainQueue(outcomes) =>
      RecordsVerifyExactly(s, k, d, w.appended, FirstChunk(batch, Readable(w.lines)));
      assert Drain(batch, w.lines, Readable(w.lines), outcomes) == Drained(w.lines, [], 0);
    case Foreign(at, line) =>
      if Inserts(w, at, line) {
        ForeignUnread(w.lines, at, line);
      }
    case Corrupt(at) =>
    case Restart =>
    case _ =>
      if ChainState(w.lines, w.head).Some? {
        if Unterminated(w) {
          GluedGate(s, d.deviceId, w, op);
        } else {
          FreshGate(s, d.deviceId, w, op);
          GapStays(batch, Readable(w.lines), [NextRecord(s, d.deviceId, ChainState(w.lines, w.head).value, op.call)]);
        }
      }
  }

  /** From operation n on the server is honest and no step destroys a record. */
  ghost predicate QuietFrom(s: Suite, k: Checker, d: Device, batch: nat, ops: seq<Op>, n: nat)
    requires batch > 0
  {
    forall j :: n <= j < |ops| ==> QuietAt(s, k, d, batch, ops, j)
  }

  ghost predicate QuietAt(s: Suite, k: Checker, d: Device, batch: nat, ops: seq<Op>, j: nat)
    requires batch > 0 && j < |ops|
  {
    !SpoilsAt(s, d.deviceId, batch, ops, j) && Honest(k, d, batch, Run(s, d.deviceId, batch, ops[..j]), ops[j])
  }

  lemma KnewTipBefore(s: Suite, deviceId: string, batch: nat, ops: seq<Op>, n: nat)
    requires batch > 0 && n <= |ops| && AlwaysKnewTip(s, deviceId, batch, ops)
    ensures AlwaysKnewTip(s, deviceId, batch, ops[..n])
  {
    forall j | 0 <= j < n
      ensures KnewTipAt(s, deviceId, batch, ops[..n], j)
    {
      KnewTipPrefix(s, deviceId, batch, ops, n, j);
      assert KnewTipAt(s, deviceId, batch, ops, j);
    }
  }

  /**
   One bad line stalls the queue: once the first chunk skips a number, no later drain hands anything over,
   whatever is gated, restarted or drained, for as long as no further record is destroyed.
   */
  lemma GapStallsQueue(s: Suite, k: Checker, d: Device, batch: nat, ops: seq<Op>, n: nat, m: nat)
    requires batch > 0 && Matches(s, k, d) && AlwaysKnewTip(s, d.deviceId, batch, ops)
    requires n <= m <= |ops| && QuietFrom(s, k, d, batch, ops, n)
    requires Gap(batch, Run(s, d.deviceId, batch, ops[..n]).lines)
    ensures Stalled(batch, Run(s, d.deviceId, batch, ops[..n]), Run(s, d.deviceId, batch, ops[..m]))
  {
    var before := Run(s, d.deviceId, batch, ops[..n]);
    var stalled := StalledBy(s, d, batch, ops, before);
    forall j: nat | n <= j < m && stalled(j)
      ensures stalled(j + 1)
    {
      StalledNext(s, k, d, batch, ops, n, j);
    }
    HoldsUpTo(stalled, n, m);
  }

  ghost function StalledBy(s: Suite, d: Device, batch: nat, ops: seq<Op>, before: World): nat -> bool
    requires batch > 0
  {
    (j: nat) => j <= |ops| && Stalled(batch, before, Run(s, d.deviceId, batch, ops[..j]))
  }

  lemma StalledNext(s: Suite, k: Checker, d: Device, batch: nat, ops: seq<Op>, n: nat, j: nat)
    requires batch > 0 && Matches(s, k, d) && AlwaysKnewTip(s, d.deviceId, batch, ops)
    requires n <= j < |ops| && QuietFrom(s, k, d, batch, ops, n)
    requires StalledBy(s, d, batch, ops, Run(s, d.deviceId, batch, ops[..n]))(j)
    ensures StalledBy(s, d, batch, ops, Run(s, d.deviceId, batch, ops[..n]))(j + 1)
  {
    assert QuietAt(s, k, d, batch, ops, j);
    StalledOnce(s, k, d, batch, ops, n, j);
  }

  /** What holds at n and is kept by each step holds at m. */
  lemma {:induction false} HoldsUpTo(holds: nat -> bool, n: nat, m: nat)
    requires n <= m && holds(n) && forall j: nat :: n <= j < m && holds(j) ==> holds(j + 1)
    ensures holds(m)
    decreases m - n
  {
    if n < m {
      HoldsUpTo(holds, n + 1, m);
    }
  }

  /** The server has taken nothing since, and the first chunk still skips a number. */
  ghost predicate Stalled(batch: nat, before: World, after: World) {
    after.accepted == before.accepted && Gap(batch, after.lines)
  }

  lemma {:induction false} StalledOnce(s: Suite, k: Checker, d: Device, batch: nat, ops: seq<Op>, n: nat, j: nat)
    requires batch > 0 && Matches(s, k, d) && AlwaysKnewTip(s, d.deviceId, batch, ops)
    requires n <= j < |ops| && QuietAt(s, k, d, batch, ops, j)
    requires Stalled(batch, Run(s, d.deviceId, batch, ops[..n]), Run(s, d.deviceId, batch, ops[..j]))
    ensures Stalled(batch, Run(s, d.deviceId, batch, ops[..n]), Run(s, d.deviceId, batch, ops[..j + 1]))
  {
    OneChainBefore(s, d.deviceId, batch, ops, j);
    ReadsAppended(s, d.deviceId, batch, ops[..j]);
    NextOfRun(s, d.deviceId, batch, ops, j);
    StalledStep(s, k, d, batch, Run(s, d.deviceId, batch, ops[..j]), ops[j]);
  }

  lemma OneChainBefore(s: Suite, deviceId: string, batch: nat, ops: seq<Op>, j: nat)
    requires batch > 0 && j <= |ops| && AlwaysKnewTip(s, deviceId, batch, ops)
    ensures OneChain(s, deviceId, Run(s, deviceId, batch, ops[..j]).appended)
  {
    KnewTipBefore(s, deviceId, batch, ops, j);
    ContiguousExactly(s, deviceId, batch, ops[..j]);
  }

  lemma NextOfRun(s: Suite, deviceId: string, batch: nat, ops: seq<Op>, j: nat)
    requires batch > 0 && j < |ops|
    ensures Run(s, deviceId, batch, ops[..j + 1]) ==
            Step(s, deviceId, batch, Run(s, deviceId, batch, ops[..j]), ops[j])
  {
    RunSnoc(s, deviceId, batch, ops[..j], ops[j]);
    assert ops[..j] + [ops[j]] == ops[..j + 1];
  }

  /** Three claims queued and the line of the second gone bad: the queue is stalled. */
  lemma BadLineLeavesGap(s: Suite, deviceId: string, a: Call, b: Call, c: Call)
    ensures var ops := [Op.Gate(a), Op.Gate(b), Op.Gate(c), Corrupt(1)];
            var w := Run(s, deviceId, 100, ops);
            && AlwaysKnewTip(s, deviceId, 100, ops) && |w.appended| == 3
            && Readable(w.lines) == [w.appended[0], w.appended[2]] && Gap(100, w.lines)
  {
    var three := [Op.Gate(a), Op.Gate(b), Op.Gate(c)];
    var ops := three + [Corrupt(1)];
    assert ops == [Op.Gate(a), Op.Gate(b), Op.Gate(c), Corrupt(1)];
    ThreeQueued(s, deviceId, a, b, c);
    CorruptAfter(s, deviceId, three, 1);
    MiddleGone(s, deviceId, Run(s, deviceId, 100, three));
  }

  lemma CorruptAfter(s: Suite, deviceId: string, ops: seq<Op>, at: nat)
    requires CrashFree(ops) && Hits(Run(s, deviceId, 100, ops).lines, at)
    ensures var w, w' := Run(s, deviceId, 100, ops), Run(s, deviceId, 100, ops + [Corrupt(at)]);
            && w'.lines == w.lines[at := Junk] && w'.appended == w.appended
            && OneChain(s, deviceId, w.appended) && AlwaysKnewTip(s, deviceId, 100, ops + [Corrupt(at)])
  {
    CrashFreeContiguous(s, deviceId, 100, ops);
    RunSnoc(s, deviceId, 100, ops, Corrupt(at));
    assert (ops + [Corrupt(at)])[..|ops|] == ops;
    KnewTipStep(s, deviceId, 100, ops + [Corrupt(at)]);
  }

  lemma MiddleGone(s: Suite, deviceId: string, w: World)
    requires |w.lines| == 3 && w.lines[0].Entry? && w.lines[1].Entry? && |w.appended| == 3
    requires Readable(w.lines) == w.appended && OneChain(s, deviceId, w.appended)
    ensures var lines := w.lines[1 := Junk];
            Readable(lines) == [w.appended[0], w.appended[2]] && Gap(100, lines)
  {
    CorruptReads(w.lines, 1);
    OneLine(w.lines[0]);
    assert w.lines[..1] == [w.lines[0]];
    var left := Readable(w.lines[1 := Junk]);
    assert left == [w.appended[0], w.appended[2]];
    assert ChainedAt(s, deviceId, w.appended, 0) && ChainedAt(s, deviceId, w.appended, 2);
    assert FirstChunk(100, left) == left && !FollowsOn(left, 1);
  }

  lemma ThreeQueued(s: Suite, deviceId: string, a: Call, b: Call, c: Call)
    ensures var w := Run(s, deviceId, 100, [Op.Gate(a), Op.Gate(b), Op.Gate(c)]);
            && |w.lines| == 3 && w.lines[0].Entry? && w.lines[1].Entry? && |w.appended| == 3
            && Readable(w.lines) == w.appended
  {
    FirstStep(s, deviceId, 100, Op.Gate(a));
    RunSnoc(s, deviceId, 100, [Op.Gate(a)], Op.Gate(b));
    RunSnoc(s, deviceId, 100, [Op.Gate(a), Op.Gate(b)], Op.Gate(c));
    assert [Op.Gate(a)] + [Op.Gate(b)] == [Op.Gate(a), Op.Gate(b)];
    assert [Op.Gate(a), Op.Gate(b)] + [Op.Gate(c)] == [Op.Gate(a), Op.Gate(b), Op.Gate(c)];
    var ops := [Op.Gate(a), Op.Gate(b), Op.Gate(c)];
    FreshGate(s, deviceId, FRESH, Op.Gate(a));
    var w1 := Run(s, deviceId, 100, [Op.Gate(a)]);
    FreshGate(s, deviceId, w1, Op.Gate(b));
    var w2 := Run(s, deviceId, 100, [Op.Gate(a), Op.Gate(b)]);
    FreshGate(s, deviceId, w2, Op.Gate(c));
  }

  // ---------------------------------------------------------------------------------------
  // The server side
  // ---------------------------------------------------------------------------------------

  /** The decision event the gate records for an item, if a policy is active, and the clock at each event. */
  datatype Judged = Judged(decision: Option<string>, policyVersion: Option<string>, decidedAt: int, recordedAt: int)

  /** What the environment supplies while grafting: new trace ids, the gate's judgements, time parsing. */
  datatype Env = Env(
    isTraceId: string -> bool, newTrace: nat -> string, judge: nat -> Judged, parseTime: string -> Option<int>)

  const DECISION := "policy_decision"

  predicate NamesTrace(item: Item) {
    item.traceId.Some? && item.traceId.value != ""
  }

  function TraceOf(env: Env, item: Item, i: nat): string {
    if NamesTrace(item) then item.traceId.value else env.newTrace(i)
  }

  /** Record one event at the next number of a trace. */
  function Chained(c: Crypto.Suite, service: Crypto.PrivateKey, db: L.Db, org: string, traceId: string, kind: string,
                   payload: string, version: Option<string>, now: int): Option<L.Db>
  {
    var seqNo := L.NextSeq(L.Cores(db.events), org, traceId);
    var r := L.Recorded(c, service, db, L.RecordArgs(org, traceId, seqNo, kind, payload, version, now));
    if r.Ok? then Some(r.value) else None
  }

  function DeferralOf(env: Env, deviceId: string, item: Item): L.Deferral {
    L.Deferral(env.parseTime(item.occurredAt), deviceId, item.clientSignature)
  }

  /** The ledger after the gate's decision event, if it records one. */
  function Decided(c: Crypto.Suite, service: Crypto.PrivateKey, j: Judged, db: L.Db, org: string,
                   traceId: string): Option<L.Db> {
    if j.decision.None? then Some(db)
    else Chained(c, service, db, org, traceId, DECISION, j.decision.value, j.policyVersion, j.decidedAt)
  }

  /** The ledger after the output's own event, marked as deferred. */
  function Deferred(c: Crypto.Suite, service: Crypto.PrivateKey, j: Judged, db: L.Db, org: string, traceId: string,
                    action: string, output: string, d: L.Deferral): Option<L.Db>
  {
    var seqNo := L.NextSeq(L.Cores(db.events), org, traceId);
    var out := Chained(c, service, db, org, traceId, action, output, j.policyVersion, j.recordedAt);
    if out.None? then None else Some(L.MarkedDeferred(out.value, org, traceId, seqNo, d))
  }

  /** The gate's events for one item; None when one is refused or the trace it names is not an id. */
  function GraftedItem(c: Crypto.Suite, service: Crypto.PrivateKey, env: Env, db: L.Db, org: string, deviceId: string,
                       item: Item, i: nat): Option<L.Db>
  {
    var j, traceId := env.judge(i), TraceOf(env, item, i);
    var decided := Decided(c, service, j, db, org, traceId);
    if item.output.None? || (NamesTrace(item) && !env.isTraceId(item.traceId.value)) || decided.None? then None
    else
      Deferred(c, service, j, decided.value, org, traceId, item.action, item.output.value,
               DeferralOf(env, deviceId, item))
  }

  /** One item after the other. */
  function ItemStep(c: Crypto.Suite, service: Crypto.PrivateKey, env: Env, org: string, deviceId: string,
                    items: seq<Item>): (L.Db, nat) -> Option<L.Db>
  {
    (db: L.Db, i: nat) => if i < |items| then GraftedItem(c, service, env, db, org, deviceId, items[i], i) else None
  }

  /** The states a sequence of steps goes through, the start included. */
  ghost predicate Path<S>(step: (S, nat) -> Option<S>, states: seq<S>) {
    states != [] && forall i :: 0 <= i < |states| - 1 ==> PathAt(step, states, i)
  }

  ghost predicate PathAt<S>(step: (S, nat) -> Option<S>, states: seq<S>, i: nat)
    requires i + 1 < |states|
  {
    step(states[i], i) == Some(states[i + 1])
  }

  /** `n` steps lead from one state to another. */
  ghost predicate Leads<S(!new)>(step: (S, nat) -> Option<S>, n: nat, from: S, to: S) {
    exists states: seq<S> :: Path(step, states) && |states| == n + 1 && states[0] == from && states[n] == to
  }

  lemma {:induction false} PathUnique<S>(step: (S, nat) -> Option<S>, a: seq<S>, b: seq<S>, n: nat)
    requires Path(step, a) && Path(step, b) && a[0] == b[0] && n < |a| && n < |b|
    ensures a[n] == b[n]
  {
    if n > 0 {
      PathUnique(step, a, b, n - 1);
      assert PathAt(step, a, n - 1) && PathAt(step, b, n - 1);
    }
  }

  lemma PathGrows<S>(step: (S, nat) -> Option<S>, states: seq<S>, next: S)
    requires Path(step, states) && step(states[|states| - 1], |states| - 1) == Some(next)
    ensures Path(step, states + [next])
  {
    forall i | 0 <= i < |states|
      ensures PathAt(step, states + [next], i)
    {
      assert i < |states| - 1 ==> PathAt(step, states, i);
    }
  }

  /** Once a step is refused there is no path to the end. */
  lemma RefusedForGood<S(!new)>(step: (S, nat) -> Option<S>, states: seq<S>, n: nat, to: S)
    requires Path(step, states) && |states| <= n && step(states[|states| - 1], |states| - 1).None?
    ensures !Leads(step, n, states[0], to)
  {
    forall whole: seq<S> | Path(step, whole) && |whole| == n + 1
      ensures whole[0] != states[0]
    {
      if whole[0] == states[0] {
        PathUnique(step, states, whole, |states| - 1);
        NotRefused(step, whole, |states| - 1);
      }
    }
  }

  lemma NotRefused<S>(step: (S, nat) -> Option<S>, states: seq<S>, i: nat)
    requires Path(step, states) && i + 1 < |states|
    ensures step(states[i], i).Some?
  {
    assert PathAt(step, states, i);
  }

  /** This row is the output of item i: its redacted content, its action and trace, and the device's signed claim. */
  ghost predicate CarriesItem(c: Crypto.Suite, env: Env, org: string, deviceId: string, item: Item, i: nat,
                              row: L.EventRow) {
    && item.output.Some?
    && row.core.org == org && row.core.kind == item.action
    && row.core.traceId == (if item.traceId.Some? && item.traceId.value != "" then item.traceId.value
                            else env.newTrace(i))
    && row.core.payloadHash == c.hashPayload(c.redact(item.output.value))
    && row.core.policyVersion == env.judge(i).policyVersion && row.core.createdAt == env.judge(i).recordedAt
    && row.deferral.Some?
    && row.deferral.value.occurredAt == env.parseTime(item.occurredAt)
    && row.deferral.value.deviceId == deviceId
    && row.deferral.value.clientSignature == item.clientSignature
  }

  /** The gate's decision about item i, on the trace of the output's row, just before it. */
  ghost predicate CarriesDecision(c: Crypto.Suite, env: Env, org: string, i: nat, row: L.EventRow, output: L.EventRow)
  {
    && env.judge(i).decision.Some? && row.deferral.None?
    && row.core.org == org && row.core.traceId == output.core.traceId && row.core.kind == "policy_decision"
    && row.core.payloadHash == c.hashPayload(c.redact(env.judge(i).decision.value))
    && row.core.policyVersion == env.judge(i).policyVersion && row.core.createdAt == env.judge(i).decidedAt
    && output.core.seqNo == row.core.seqNo + 1
  }

  /** What one item adds: the decision's row, if there is one, then the row that carries it. No other row moves. */
  ghost predicate AddsItem(c: Crypto.Suite, env: Env, org: string, deviceId: string, item: Item, i: nat,
                           before: seq<L.EventRow>, after: seq<L.EventRow>)
  {
    && |after| == |before| + (if env.judge(i).decision.Some? then 2 else 1) && after[..|before|] == before
    && CarriesItem(c, env, org, deviceId, item, i, after[|after| - 1])
    && (env.judge(i).decision.Some? ==>
          CarriesDecision(c, env, org, i, after[|before|], after[|after| - 1]))
  }

  lemma ChainedAppends(c: Crypto.Suite, service: Crypto.PrivateKey, db: L.Db, org: string, traceId: string,
                       kind: string,
                       payload: string, version: Option<string>, now: int)
    requires L.Inv(c, service, db)
    ensures var r := Chained(c, service, db, org, traceId, kind, payload, version, now);
            r.Some? ==>
              && L.Inv(c, service, r.value)
              && |r.value.events| == |db.events| + 1 && r.value.events[..|db.events|] == db.events
              && var row := r.value.events[|db.events|];
                 && row.deferral.None? && row.core.org == org && row.core.traceId == traceId && row.core.kind == kind
                 && row.core.payloadHash == c.hashPayload(c.redact(payload))
                 && row.core.policyVersion == version && row.core.createdAt == now
                 && row.core.seqNo == L.NextSeq(L.Cores(db.events), org, traceId)
                 && L.NextSeq(L.Cores(r.value.events), org, traceId) == row.core.seqNo + 1
  {
    var seqNo := L.NextSeq(L.Cores(db.events), org, traceId);
    var a := L.RecordArgs(org, traceId, seqNo, kind, payload, version, now);
    var r := L.Recorded(c, service, db, a);
    if r.Ok? {
      L.RecordKeepsInv(c, service, db, a);
      NextAfterRow(c, service, r.value, org, traceId);
    }
  }

  lemma NextAfterRow(c: Crypto.Suite, service: Crypto.PrivateKey, db: L.Db, org: string, traceId: string)
    requires L.Inv(c, service, db) && db.events != []
    requires L.InTrace(db.events[|db.events| - 1].core, org, traceId)
    ensures L.NextSeq(L.Cores(db.events), org, traceId) == db.events[|db.events| - 1].core.seqNo + 1
  {
    var cores := L.Cores(db.events);
    L.TipRowIsLast(cores, org, traceId);
    assert L.TraceIds(cores, org, traceId)[|L.TraceIds(cores, org, traceId)| - 1] == |cores| - 1;
  }

  /** Marking the number just recorded marks the row just recorded. */
  lemma MarksLast(c: Crypto.Suite, service: Crypto.PrivateKey, db: L.Db, org: string, traceId: string, seqNo: int,
                  d: L.Deferral)
    requires L.Inv(c, service, db) && db.events != []
    requires var core := db.events[|db.events| - 1].core; L.InTrace(core, org, traceId) && core.seqNo == seqNo
    ensures var db' := L.MarkedDeferred(db, org, traceId, seqNo, d);
            && L.Inv(c, service, db')
            && db'.events == db.events[|db.events| - 1 := db.events[|db.events| - 1].(deferral := Some(d))]
  {
    L.MarkDeferredKeepsInv(c, service, db, org, traceId, seqNo, d);
    assert L.FindEvent(L.Cores(db.events), org, traceId, seqNo) == Some(|db.events| - 1);
  }

  lemma DeferredAdds(c: Crypto.Suite, service: Crypto.PrivateKey, j: Judged, db: L.Db, org: string, traceId: string,
                     action: string, output: string, d: L.Deferral)
    requires L.Inv(c, service, db)
    ensures var r := Deferred(c, service, j, db, org, traceId, action, output, d);
            r.Some? ==>
              && L.Inv(c, service, r.value)
              && |r.value.events| == |db.events| + 1 && r.value.events[..|db.events|] == db.events
              && var row := r.value.events[|db.events|];
                 && row.deferral == Some(d) && row.core.org == org && row.core.traceId == traceId
                 && row.core.kind == action && row.core.payloadHash == c.hashPayload(c.redact(output))
                 && row.core.policyVersion == j.policyVersion && row.core.createdAt == j.recordedAt
                 && row.core.seqNo == L.NextSeq(L.Cores(db.events), org, traceId)
  {
    var seqNo := L.NextSeq(L.Cores(db.events), org, traceId);
    var out := Chained(c, service, db, org, traceId, action, output, j.policyVersion, j.recordedAt);
    ChainedAppends(c, service, db, org, traceId, action, output, j.policyVersion, j.recordedAt);
    if out.Some? {
      MarksLast(c, service, out.value, org, traceId, seqNo, d);
    }
  }

  lemma {:induction false} DecidedAdds(c: Crypto.Suite, service: Crypto.PrivateKey, j: Judged, db: L.Db, org: string,
                                       traceId: string)
    requires L.Inv(c, service, db)
    ensures var r := Decided(c, service, j, db, org, traceId);
            r.Some? ==>
              && L.Inv(c, service, r.value)
              && |r.value.events| == |db.events| + (if j.decision.Some? then 1 else 0)
              && r.value.events[..|db.events|] == db.events
              && (j.decision.Some? ==>
                    var row := r.value.events[|db.events|];
                    && row.deferral.None? && row.core.org == org && row.core.traceId == traceId
                    && row.core.kind == DECISION && row.core.payloadHash == c.hashPayload(c.redact(j.decision.value))
                    && row.core.policyVersion == j.policyVersion && row.core.createdAt == j.decidedAt
                    && L.NextSeq(L.Cores(r.value.events), org, traceId) == row.core.seqNo + 1)
  {
    if j.decision.Some? {
      ChainedAppends(c, service, db, org, traceId, DECISION, j.decision.value, j.policyVersion, j.decidedAt);
    }
  }

  lemma AddsTwo(before: seq<L.EventRow>, mid: seq<L.EventRow>, after: seq<L.EventRow>)
    requires |before| <= |mid| < |after| && mid[..|before|] == before && after[..|mid|] == mid
    ensures after[..|before|] == before && forall id :: 0 <= id < |mid| ==> after[id] == mid[id]
  {
    assert after[..|before|] == after[..|mid|][..|before|];
  }

  lemma {:induction false} ItemAdds(c: Crypto.Suite, service: Crypto.PrivateKey, env: Env, db: L.Db, org: string,
                                    deviceId: string,
                 item: Item, i: nat, db': L.Db)
    requires L.Inv(c, service, db) && GraftedItem(c, service, env, db, org, deviceId, item, i) == Some(db')
    ensures L.Inv(c, service, db') && AddsItem(c, env, org, deviceId, item, i, db.events, db'.events)
  {
    var j, traceId, d := env.judge(i), TraceOf(env, item, i), DeferralOf(env, deviceId, item);
    var decided := Decided(c, service, j, db, org, traceId).value;
    DecidedAdds(c, service, j, db, org, traceId);
    DeferredAdds(c, service, j, decided, org, traceId, item.action, item.output.value, d);
    AddsBoth(c, env, org, deviceId, item, i, db.events, decided.events, db'.events);
  }

  lemma AddsBoth(c: Crypto.Suite, env: Env, org: string, deviceId: string, item: Item, i: nat,
                 before: seq<L.EventRow>, mid: seq<L.EventRow>, after: seq<L.EventRow>)
    requires |mid| == |before| + (if env.judge(i).decision.Some? then 1 else 0) && mid[..|before|] == before
    requires |after| == |mid| + 1 && after[..|mid|] == mid
    requires CarriesItem(c, env, org, deviceId, item, i, after[|mid|])
    requires env.judge(i).decision.Some? ==> CarriesDecision(c, env, org, i, mid[|before|], after[|mid|])
    ensures AddsItem(c, env, org, deviceId, item, i, before, after)
  {
    AddsTwo(before, mid, after);
  }

  /**
   An item is refused exactly when it is no object, names a trace that is no id or another organisation's, or has a
   blank action.
   */
  lemma RefusedExactly(c: Crypto.Suite, service: Crypto.PrivateKey, env: Env, db: L.Db, org: string, deviceId: string,
                       item: Item, i: nat)
    ensures var named := item.traceId.Some? && item.traceId.value != "";
            var traceId := if named then item.traceId.value else env.newTrace(i);
            GraftedItem(c, service, env, db, org, deviceId, item, i).None? <==>
              || item.output.None? || (named && !env.isTraceId(traceId)) || IsBlank(item.action)
              || (traceId in db.traces && db.traces[traceId] != org)
  {
    var j, traceId := env.judge(i), TraceOf(env, item, i);
    DecidedExactly(c, service, j, db, org, traceId);
    var decided := Decided(c, service, j, db, org, traceId);
    if decided.Some? && item.output.Some? {
      ChainedExactly(c, service, decided.value, org, traceId, item.action, item.output.value, j.policyVersion,
                     j.recordedAt);
    }
  }

  lemma ChainedExactly(c: Crypto.Suite, service: Crypto.PrivateKey, db: L.Db, org: string, traceId: string,
                       kind: string, payload: string, version: Option<string>, now: int)
    ensures var r := Chained(c, service, db, org, traceId, kind, payload, version, now);
            && (r.None? <==> IsBlank(kind) || (traceId in db.traces && db.traces[traceId] != org))
            && (r.Some? ==> r.value.traces == db.traces[traceId := org])
  {
  }

  lemma DecidedExactly(c: Crypto.Suite, service: Crypto.PrivateKey, j: Judged, db: L.Db, org: string, traceId: string)
    ensures var r := Decided(c, service, j, db, org, traceId);
            && (r.None? <==> j.decision.Some? && traceId in db.traces && db.traces[traceId] != org)
            && (r.Some? ==> r.value.traces == if j.decision.Some? then db.traces[traceId := org] else db.traces)
  {
    if j.decision.Some? {
      assert DECISION[0] == 'p';
      assert !IsBlank(DECISION);
      ChainedExactly(c, service, db, org, traceId, DECISION, j.decision.value, j.policyVersion, j.decidedAt);
    }
  }

  /** What the rows look like after each item: item i is carried by the last row it added, behind its decision. */
  ghost predicate CarriesAt(c: Crypto.Suite, env: Env, org: string, deviceId: string, items: seq<Item>,
                            stages: seq<seq<L.EventRow>>, i: nat)
    requires i < |items| && i + 1 < |stages|
  {
    var id, rows := |stages[i + 1]| - 1, stages[|stages| - 1];
    && id == |stages[i]| + (if env.judge(i).decision.Some? then 1 else 0) && id < |rows|
    && CarriesItem(c, env, org, deviceId, items[i], i, rows[id])
    && (env.judge(i).decision.Some? ==> CarriesDecision(c, env, org, i, rows[id - 1], rows[id]))
  }

  /** Every item is carried, in order, and nothing else that is new is marked deferred. */
  ghost predicate CarriesAll(c: Crypto.Suite, env: Env, org: string, deviceId: string, items: seq<Item>,
                             stages: seq<seq<L.EventRow>>)
    requires 0 < |stages| <= |items| + 1
  {
    var rows := stages[|stages| - 1];
    && |stages[0]| <= |rows| && rows[..|stages[0]|] == stages[0]
    && (forall i :: 0 <= i < |stages| - 1 ==> CarriesAt(c, env, org, deviceId, items, stages, i))
    && (forall id :: |stages[0]| <= id < |rows| && rows[id].deferral.Some? ==>
          exists j :: 0 < j < |stages| && |stages[j]| - 1 == id)
  }

  ghost predicate AddsAt(c: Crypto.Suite, env: Env, org: string, deviceId: string, items: seq<Item>,
                         stages: seq<seq<L.EventRow>>, i: nat)
    requires i < |items| && i + 1 < |stages|
  {
    AddsItem(c, env, org, deviceId, items[i], i, stages[i], stages[i + 1])
  }

  lemma {:induction false} StagesCarry(c: Crypto.Suite, env: Env, org: string, deviceId: string, items: seq<Item>,
                                       stages: seq<seq<L.EventRow>>)
    requires 0 < |stages| <= |items| + 1
    requires forall i :: 0 <= i < |stages| - 1 ==> AddsAt(c, env, org, deviceId, items, stages, i)
    ensures CarriesAll(c, env, org, deviceId, items, stages)
    decreases |stages|
  {
    if |stages| > 1 {
      var n := |stages| - 1;
      var before := stages[..n];
      forall i | 0 <= i < n - 1
        ensures AddsAt(c, env, org, deviceId, items, before, i)
      {
        assert AddsAt(c, env, org, deviceId, items, stages, i);
      }
      StagesCarry(c, env, org, deviceId, items, before);
      assert AddsAt(c, env, org, deviceId, items, stages, n - 1);
      OneStageMore(c, env, org, deviceId, items, stages);
    }
  }

  lemma OneStageMore(c: Crypto.Suite, env: Env, org: string, deviceId: string, items: seq<Item>,
                     stages: seq<seq<L.EventRow>>)
    requires 1 < |stages| <= |items| + 1
    requires CarriesAll(c, env, org, deviceId, items, stages[..|stages| - 1])
    requires AddsAt(c, env, org, deviceId, items, stages, |stages| - 2)
    ensures CarriesAll(c, env, org, deviceId, items, stages)
  {
    var n := |stages| - 1;
    var earlier, rows := stages[n - 1], stages[n];
    AddsTwo(stages[0], earlier, rows);
    forall i | 0 <= i < n
      ensures CarriesAt(c, env, org, deviceId, items, stages, i)
    {
      if i < n - 1 {
        assert CarriesAt(c, env, org, deviceId, items, stages[..n], i);
      }
    }
    forall id | |stages[0]| <= id < |rows| && rows[id].deferral.Some?
      ensures exists j :: 0 < j < |stages| && |stages[j]| - 1 == id
    {
      if id < |earlier| {
        assert earlier[id].deferral.Some?;
        var j :| 0 < j < n && |stages[..n][j]| - 1 == id;
        assert |stages[j]| - 1 == id;
      } else {
        assert |stages[n]| - 1 == id;
      }
    }
  }

  function Rows(dbs: seq<L.Db>): (r: seq<seq<L.EventRow>>)
    ensures |r| == |dbs| && forall i :: 0 <= i < |dbs| ==> r[i] == dbs[i].events
  {
    seq(|dbs|, i requires 0 <= i < |dbs| => dbs[i].events)
  }

  /** One item keeps the ledger sound and adds its rows. */
  lemma ItemKeeps(c: Crypto.Suite, service: Crypto.PrivateKey, env: Env, org: string, deviceId: string,
                  items: seq<Item>, dbs: seq<L.Db>, i: nat)
    requires Path(ItemStep(c, service, env, org, deviceId, items), dbs) && i + 1 < |dbs| && L.Inv(c, service, dbs[i])
    ensures i < |items| && L.Inv(c, service, dbs[i + 1])
    ensures AddsItem(c, env, org, deviceId, items[i], i, dbs[i].events, dbs[i + 1].events)
  {
    StepTaken(c, service, env, org, deviceId, items, dbs, i);
    ItemAdds(c, service, env, dbs[i], org, deviceId, items[i], i, dbs[i + 1]);
  }

  lemma {:induction false} PathSound(c: Crypto.Suite, service: Crypto.PrivateKey, env: Env, org: string,
                                     deviceId: string,
                                     items: seq<Item>, dbs: seq<L.Db>, n: nat)
    requires Path(ItemStep(c, service, env, org, deviceId, items), dbs) && n < |dbs|
    requires L.Inv(c, service, dbs[0])
    ensures n <= |items| && L.Inv(c, service, dbs[n])
  {
    if n > 0 {
      PathSound(c, service, env, org, deviceId, items, dbs, n - 1);
      ItemKeeps(c, service, env, org, deviceId, items, dbs, n - 1);
    }
  }

  lemma StepTaken(c: Crypto.Suite, service: Crypto.PrivateKey, env: Env, org: string, deviceId: string,
                  items: seq<Item>, dbs: seq<L.Db>, i: nat)
    requires Path(ItemStep(c, service, env, org, deviceId, items), dbs) && i + 1 < |dbs|
    ensures i < |items| && GraftedItem(c, service, env, dbs[i], org, deviceId, items[i], i) == Some(dbs[i + 1])
  {
    assert PathAt(ItemStep(c, service, env, org, deviceId, items), dbs, i);
  }

  lemma RowsAdd(c: Crypto.Suite, service: Crypto.PrivateKey, env: Env, org: string, deviceId: string,
                items: seq<Item>, dbs: seq<L.Db>, i: nat)
    requires Path(ItemStep(c, service, env, org, deviceId, items), dbs) && L.Inv(c, service, dbs[0]) && i + 1 < |dbs|
    ensures i < |items| && AddsAt(c, env, org, deviceId, items, Rows(dbs), i)
  {
    PathSound(c, service, env, org, deviceId, items, dbs, i);
    ItemKeeps(c, service, env, org, deviceId, items, dbs, i);
  }

  /**
   Grafting a segment onto any sound ledger keeps the ledger sound, so every trace still replays as verified;
   leaves every row there was untouched; and adds exactly one deferred event per item, in the items' order,
   with that item's content, action, trace, device and signature. No other new event is marked deferred.
   */
  lemma GraftRecordsSegment(c: Crypto.Suite, service: Crypto.PrivateKey, env: Env, org: string, deviceId: string,
                            items: seq<Item>, dbs: seq<L.Db>)
    requires Path(ItemStep(c, service, env, org, deviceId, items), dbs) && L.Inv(c, service, dbs[0])
    ensures |dbs| <= |items| + 1 && L.Inv(c, service, dbs[|dbs| - 1])
    ensures CarriesAll(c, env, org, deviceId, items, Rows(dbs))
  {
    PathSound(c, service, env, org, deviceId, items, dbs, |dbs| - 1);
    forall i | 0 <= i < |dbs| - 1
      ensures AddsAt(c, env, org, deviceId, items, Rows(dbs), i)
    {
      RowsAdd(c, service, env, org, deviceId, items, dbs, i);
    }
    StagesCarry(c, env, org, deviceId, items, Rows(dbs));
  }

  class GraftService {
    const k: Checker
    const ledger: L.LedgerService
    var devices: map<(string, string), Device>

    constructor (k: Checker, ledger: L.LedgerService)
      ensures this.k == k && this.ledger == ledger && devices == map[]
    {
      this.k, this.ledger := k, ledger;
      devices := map[];
    }

    /** Idempotent for the same key, white space at its ends aside; an existing device never changes key. */
    method RegisterDevice(org: string, deviceId: string, publicKey: PublicKey) returns (r: Result<Device, SegmentError>)
      modifies this`devices
      ensures r.Err? <==>
        (org, deviceId) in old(devices) && Stripped(old(devices)[(org, deviceId)].publicKey) != Stripped(publicKey)
      ensures r.Ok? ==>
        && (org, deviceId) in devices && r.value == devices[(org, deviceId)]
        && Stripped(r.value.publicKey) == Stripped(publicKey)
      ensures (org, deviceId) !in old(devices) ==>
        devices == old(devices)[(org, deviceId) := Device(deviceId, publicKey, false)]
      ensures (org, deviceId) in old(devices) ==> devices == old(devices)
    {
      var id := (org, deviceId);
      if id in devices {
        if Stripped(devices[id].publicKey) != Stripped(publicKey) {
          return Err(DifferentKey);
        }
        return Ok(devices[id]);
      }
      var device := Device(deviceId, publicKey, false);
      devices := devices[id := device];
      return Ok(device);
    }

    /** Record one event at the next number of a trace. */
    method RecordNext(org: string, traceId: string, kind: string, payload: string, version: Option<string>, now: int)
      returns (seqNo: Option<int>)
      modifies ledger
      ensures var r := Chained(ledger.c, ledger.service, old(ledger.View()), org, traceId, kind, payload, version, now);
              && (seqNo.Some? <==> r.Some?)
              && (seqNo.Some? ==>
                    ledger.View() == r.value && seqNo.value == L.NextSeq(old(L.Cores(ledger.events)), org, traceId))
    {
      var next := L.NextSeq(L.Cores(ledger.events), org, traceId);
      var r := ledger.RecordEvent(L.RecordArgs(org, traceId, next, kind, payload, version, now));
      return if r.Ok? then Some(next) else None;
    }

    /** The gate's events for one item, then the deferred mark on the output's event. */
    method GraftItem(env: Env, org: string, deviceId: string, item: Item, i: nat) returns (ok: bool)
      requires item.output.Some?
      modifies ledger
      ensures var r := GraftedItem(ledger.c, ledger.service, env, old(ledger.View()), org, deviceId, item, i);
              (ok <==> r.Some?) && (ok ==> ledger.View() == r.value)
    {
      if NamesTrace(item) && !env.isTraceId(item.traceId.value) {
        return false;
      }
      var j, traceId := env.judge(i), TraceOf(env, item, i);
      if j.decision.Some? {
        var decided := RecordNext(org, traceId, DECISION, j.decision.value, j.policyVersion, j.decidedAt);
        if decided.None? {
          return false;
        }
      }
      var seqNo := RecordNext(org, traceId, item.action, item.output.value, j.policyVersion, j.recordedAt);
      if seqNo.None? {
        return false;
      }
      ledger.MarkDeferred(org, traceId, seqNo.value, DeferralOf(env, deviceId, item));
      return true;
    }

    predicate Registered(org: string, deviceId: string)
      reads this
    {
      (org, deviceId) in devices && !devices[(org, deviceId)].revoked
    }

    /** All or nothing: an item the gate refuses undoes the transaction, events of earlier items included. */
    method GraftOfflineSegment(env: Env, org: string, deviceId: string, items: seq<Item>)
      returns (r: Result<seq<Claim>, SegmentError>)
      modifies ledger
      ensures r == Err(UnknownDevice) <==> (org, deviceId) !in devices
      ensures r == Err(RevokedDevice) <==> (org, deviceId) in devices && devices[(org, deviceId)].revoked
      ensures r.Ok? ==>
        && Registered(org, deviceId) && SegmentOk(k, devices[(org, deviceId)], items)
        && Leads(ItemStep(ledger.c, ledger.service, env, org, devices[(org, deviceId)].deviceId, items), |items|,
                 old(ledger.View()), ledger.View())
      ensures r.Err? ==>
        && ledger.View() == old(ledger.View())
        && (Registered(org, deviceId) && SegmentOk(k, devices[(org, deviceId)], items) ==>
              var step := ItemStep(ledger.c, ledger.service, env, org, devices[(org, deviceId)].deviceId, items);
              forall db :: !Leads(step, |items|, old(ledger.View()), db))
      ensures r.Ok? ==> |r.value| == |items| && forall i :: 0 <= i < |items| ==>
        items[i].output.Some? && r.value[i] == ItemClaim(k, devices[(org, deviceId)].deviceId, items[i])
    {
      if (org, deviceId) !in devices {
        return Err(UnknownDevice);
      }
      var device := devices[(org, deviceId)];
      if device.revoked {
        return Err(RevokedDevice);
      }
      r := VerifySegment(k, device, items);
      if r.Err? {
        return;
      }
      var refused := GraftItems(env, org, device.deviceId, items);
      if refused.Some? {
        return Err(GateRefused(refused.value));
      }
    }

    /** The items one after the other, or none of them: the number of the first that is refused. */
    method GraftItems(env: Env, org: string, deviceId: string, items: seq<Item>) returns (refused: Option<nat>)
      requires forall i :: 0 <= i < |items| ==> items[i].output.Some?
      modifies ledger
      ensures var step := ItemStep(ledger.c, ledger.service, env, org, deviceId, items);
              if refused.None? then Leads(step, |items|, old(ledger.View()), ledger.View())
              else ledger.View() == old(ledger.View()) && forall db :: !Leads(step, |items|, old(ledger.View()), db)
    {
      var before := ledger.Begin();
      ghost var step := ItemStep(ledger.c, ledger.service, env, org, deviceId, items);
      ghost var dbs := [before];
      for i := 0 to |items|
        invariant |dbs| == i + 1 && dbs[0] == before && dbs[i] == ledger.View() && Path(step, dbs)
      {
        var ok := GraftItem(env, org, deviceId, items[i], i);
        if !ok {
          forall db: L.Db
            ensures !Leads(step, |items|, before, db)
          {
            RefusedForGood(step, dbs, |items|, db);
          }
          ledger.Rollback(before);
          return Some(i);
        }
        PathGrows(step, dbs, ledger.View());
        dbs := dbs + [ledger.View()];
      }
      assert Leads(step, |items|, before, ledger.View());
      return None;
    }
  }
}
