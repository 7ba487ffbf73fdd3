/**
 The SDK's durable queue and local claim chain (attest_sdk/store.py, attest_sdk/attest.py,
 app/crypto/offline_envelope.py).

 The queue file is a sequence of lines; a line the SDK cannot decrypt or parse is Junk. A post over
 the network has one of four outcomes, chosen by the environment.
 */
module OfflineQueue {
  import opened Prelude

  type Digest = string
  type Signature = string

  /** The claim an SDK signs; an absent predecessor is the empty string. */
  datatype Claim = Claim(
    deviceId: string, localSeq: int, prevLocal: Digest, occurredAt: string, action: string, payloadHash: Digest)

  /**
   Hashing, the device key pair, and whether a record's line ends in base64 padding, which depends on the
   length of the record alone.
   */
  datatype Suite = Suite(
    hashClaim: Claim -> Digest,
    hashPayload: string -> Digest,
    sign: Digest -> Signature,
    verify: (Digest, Signature) -> bool,
    padded: Record -> bool)

  datatype Record = Record(
    action: string, output: string, occurredAt: string, localSeq: int, prevLocal: Option<Digest>,
    payloadHash: Digest, clientSignature: Signature, claimHash: Digest, traceId: Option<string>,
    localStatus: string)

  datatype Line = Blank | Junk | Entry(record: Record)

  /** Contents of chain.json; a write cut short leaves it broken. */
  datatype HeadFile = NoHead | Head(nextSeq: int, prevLocal: Option<Digest>) | Broken

  function BuildOfflineClaim(deviceId: string, localSeq: int, prevLocal: Option<Digest>, occurredAt: string,
                             action: string, payloadHash: Digest): Claim
  {
    Claim(deviceId, localSeq, if prevLocal.Some? then prevLocal.value else "", occurredAt, action, payloadHash)
  }

  /** The claim pins everything that goes into it, but for an absent predecessor being the empty one. */
  lemma ClaimPinsAll(deviceId: string, localSeq: int, prevLocal: Option<Digest>, occurredAt: string, action: string,
                     payloadHash: Digest, claim: Claim)
    ensures BuildOfflineClaim(deviceId, localSeq, prevLocal, occurredAt, action, payloadHash) == claim <==>
            && claim.deviceId == deviceId && claim.localSeq == localSeq && claim.occurredAt == occurredAt
            && claim.action == action && claim.payloadHash == payloadHash
            && (prevLocal == Some(claim.prevLocal) || (prevLocal == None && claim.prevLocal == ""))
  {
  }

  // ---------------------------------------------------------------------------------------
  // Reading and dropping
  // ---------------------------------------------------------------------------------------

  function Readable(lines: seq<Line>): seq<Record> {
    if lines == [] then []
    else (if lines[0].Entry? then [lines[0].record] else []) + Readable(lines[1..])
  }

  function NonBlank(lines: seq<Line>): seq<Line> {
    if lines == [] then []
    else (if lines[0].Blank? then [] else [lines[0]]) + NonBlank(lines[1..])
  }

  /** `drop(count)` counts raw non-blank lines, readable or not. */
  function Dropped(lines: seq<Line>, count: int): seq<Line> {
    if count <= 0 then lines
    else
      var kept := NonBlank(lines);
      if count <= |kept| then kept[count..] else []
  }

  /** Next number and previous hash; None when chain.json is needed and does not parse. */
  function ChainState(lines: seq<Line>, head: HeadFile): Option<(int, Option<Digest>)> {
    var records := Readable(lines);
    if records != [] then Some((records[|records| - 1].localSeq + 1, Some(records[|records| - 1].claimHash)))
    else
      match head
      case NoHead => Some((1, None))
      case Head(nextSeq, prevLocal) => Some((nextSeq, prevLocal))
      case Broken => None
  }

  lemma Regroup<T>(a: seq<T>, b: seq<T>, c: seq<T>)
    ensures a + (b + c) == a + b + c
  {
  }

  lemma {:induction false} ReadableConcat(a: seq<Line>, b: seq<Line>)
    ensures Readable(a + b) == Readable(a) + Readable(b)
  {
    if a == [] {
      assert a + b == b;
    } else {
      assert (a + b)[1..] == a[1..] + b;
      ReadableConcat(a[1..], b);
      Regroup(if a[0].Entry? then [a[0].record] else [], Readable(a[1..]), Readable(b));
    }
  }

  lemma {:induction false} ReadableNonBlank(lines: seq<Line>)
    ensures Readable(NonBlank(lines)) == Readable(lines)
  {
    if lines != [] {
      ReadableNonBlank(lines[1..]);
      ReadableConcat(if lines[0].Blank? then [] else [lines[0]], NonBlank(lines[1..]));
    }
  }

  predicate NoJunk(lines: seq<Line>) {
    forall i :: 0 <= i < |lines| ==> !lines[i].Junk?
  }

  lemma {:induction false} ReadableAtMost(lines: seq<Line>)
    ensures |Readable(lines)| <= |lines|
    ensures (forall i :: 0 <= i < |lines| ==> lines[i].Entry?) ==> |Readable(lines)| == |lines|
  {
    if lines != [] {
      ReadableAtMost(lines[1..]);
    }
  }

  lemma {:induction false} NonBlankKinds(lines: seq<Line>)
    ensures forall i :: 0 <= i < |NonBlank(lines)| ==> NonBlank(lines)[i] in lines && !NonBlank(lines)[i].Blank?
  {
    if lines != [] {
      NonBlankKinds(lines[1..]);
    }
  }

  /** `rest` is a tail of `queue` that starts no later than position `from`. */
  ghost predicate TailFrom(queue: seq<Record>, rest: seq<Record>, from: nat) {
    |rest| <= |queue| <= |rest| + from && rest == queue[|queue| - |rest|..]
  }

  /** Dropping `count` lines takes at most the first `count` readable records. */
  lemma DropTakesAtMost(lines: seq<Line>, count: nat)
    ensures TailFrom(Readable(lines), Readable(Dropped(lines, count)), count)
  {
    if count > 0 {
      var kept := NonBlank(lines);
      ReadableNonBlank(lines);
      var cut := if count <= |kept| then count else |kept|;
      assert kept == kept[..cut] + kept[cut..];
      ReadableConcat(kept[..cut], kept[cut..]);
      ReadableAtMost(kept[..cut]);
    }
  }

  lemma EntriesAfter(lines: seq<Line>, count: nat)
    requires count <= |lines| && forall i :: 0 <= i < |lines| ==> lines[i].Entry?
    ensures |Readable(lines)| == |lines| && Readable(lines[count..]) == Readable(lines)[count..]
  {
    ReadableAtMost(lines);
    assert lines == lines[..count] + lines[count..];
    ReadableConcat(lines[..count], lines[count..]);
    ReadableAtMost(lines[..count]);
  }

  /** Without junk it takes exactly the first `count`. */
  lemma DropTakesExactly(lines: seq<Line>, count: nat)
    requires NoJunk(lines) && count <= |Readable(lines)|
    ensures NoJunk(Dropped(lines, count)) && Readable(Dropped(lines, count)) == Readable(lines)[count..]
  {
    if count > 0 {
      var kept := NonBlank(lines);
      NonBlankKinds(lines);
      ReadableNonBlank(lines);
      ReadableAtMost(kept);
      EntriesAfter(kept, count);
    }
  }

  // ---------------------------------------------------------------------------------------
  // The drain
  // ---------------------------------------------------------------------------------------

  datatype Outcome = Unreachable | Rejected | Acknowledged | ReplyLost

  datatype Drained = Drained(lines: seq<Line>, accepted: seq<Record>, sent: nat)

  function ChunkSize(batch: nat, left: nat): (n: nat)
    ensures n <= left && (batch > 0 && left > 0 ==> n > 0)
  {
    if batch < left then batch else left
  }

  /** Post `pending` in chunks; a chunk is dropped from the file only once its acceptance is acknowledged. */
  function Drain(batch: nat, lines: seq<Line>, pending: seq<Record>, outcomes: seq<Outcome>): Drained
    requires batch > 0
    decreases |pending|
  {
    if pending == [] || outcomes == [] then Drained(lines, [], 0)
    else
      var n := ChunkSize(batch, |pending|);
      var chunk := pending[..n];
      match outcomes[0]
      case Unreachable => Drained(lines, [], 0)
      case Rejected => Drained(lines, [], 0)
      case ReplyLost => Drained(lines, chunk, 0)
      case Acknowledged =>
        var rest := Drain(batch, Dropped(lines, |chunk|), pending[n..], outcomes[1..]);
        Drained(rest.lines, chunk + rest.accepted, |chunk| + rest.sent)
  }

  lemma TailOfTail(q: seq<Record>, tail: seq<Record>, rest: seq<Record>, a: nat, b: nat)
    requires TailFrom(q, tail, a) && TailFrom(tail, rest, b)
    ensures TailFrom(q, rest, a + b)
  {
  }

  lemma DrainAcknowledged(batch: nat, lines: seq<Line>, pending: seq<Record>, outcomes: seq<Outcome>)
    requires batch > 0 && pending != [] && outcomes != [] && outcomes[0].Acknowledged?
    ensures var n := ChunkSize(batch, |pending|);
            var rest := Drain(batch, Dropped(lines, n), pending[n..], outcomes[1..]);
            Drain(batch, lines, pending, outcomes) == Drained(rest.lines, pending[..n] + rest.accepted, n + rest.sent)
  {
  }

  lemma DropKeepsTail(lines: seq<Line>, queue: seq<Record>, from: nat, n: nat)
    requires TailFrom(queue, Readable(lines), from)
    ensures TailFrom(queue, Readable(Dropped(lines, n)), from + n)
  {
    DropTakesAtMost(lines, n);
    TailOfTail(queue, Readable(lines), Readable(Dropped(lines, n)), from, n);
  }

  lemma SliceConcat(q: seq<Record>, from: nat, mid: nat, to: nat)
    requires from <= mid <= to <= |q|
    ensures q[from..mid] + q[mid..to] == q[from..to]
  {
  }

  lemma TailSplit(q: seq<Record>, from: nat, n: nat)
    requires from + n <= |q|
    ensures q[from..][..n] == q[from..from + n] && q[from..][n..] == q[from + n..]
  {
  }

  /** What was handed over starts at `from`; the file still reads everything after it. */
  ghost predicate SliceTaken(queue: seq<Record>, from: nat, d: Drained) {
    && from + |d.accepted| <= |queue|
    && d.accepted == queue[from..from + |d.accepted|]
    && TailFrom(queue, Readable(d.lines), from + |d.accepted|)
  }

  lemma ChunkOnly(queue: seq<Record>, from: nat, n: nat, lines: seq<Line>)
    requires from + n <= |queue| && TailFrom(queue, Readable(lines), from)
    ensures SliceTaken(queue, from, Drained(lines, queue[from..][..n], 0))
  {
    TailSplit(queue, from, n);
  }

  lemma ChunkAndRest(queue: seq<Record>, from: nat, n: nat, rest: Drained)
    requires from + n <= |queue| && SliceTaken(queue, from + n, rest)
    ensures SliceTaken(queue, from, Drained(rest.lines, queue[from..][..n] + rest.accepted, n + rest.sent))
  {
    TailSplit(queue, from, n);
    SliceConcat(queue, from, from + n, from + n + |rest.accepted|);
  }

  /** The file reads the queue from `from` on, or from somewhat earlier. */
  ghost predicate ReadsFrom(lines: seq<Line>, queue: seq<Record>, from: nat) {
    from <= |queue| && TailFrom(queue, Readable(lines), from)
  }

  lemma DropKeepsReading(lines: seq<Line>, queue: seq<Record>, from: nat, n: nat)
    requires ReadsFrom(lines, queue, from) && from + n <= |queue|
    ensures ReadsFrom(Dropped(lines, n), queue, from + n)
  {
    DropKeepsTail(lines, queue, from, n);
  }

  /** The drain of everything from `from` on hands over such a slice. */
  ghost predicate HandsOver(batch: nat, lines: seq<Line>, queue: seq<Record>, from: nat, outcomes: seq<Outcome>)
    requires batch > 0 && from <= |queue|
  {
    SliceTaken(queue, from, Drain(batch, lines, queue[from..], outcomes))
  }

  /**
   Whatever the outcomes and wherever junk lies, a drain hands over a slice of the queue from its start,
   and the file keeps at least everything after that slice.
   */
  lemma {:induction false} DrainHandsOverSlice(
    batch: nat, lines: seq<Line>, queue: seq<Record>, from: nat, outcomes: seq<Outcome>)
    requires batch > 0 && ReadsFrom(lines, queue, from)
    ensures HandsOver(batch, lines, queue, from, outcomes)
    decreases |queue| - from
  {
    if from < |queue| && outcomes != [] && outcomes[0].Acknowledged? {
      var n := ChunkSize(batch, |queue| - from);
      var rest := Dropped(lines, n);
      DropKeepsReading(lines, queue, from, n);
      assert ReadsFrom(rest, queue, from + n);
      DrainHandsOverSlice(batch, rest, queue, from + n, outcomes[1..]);
      SliceContinues(batch, lines, queue, from, outcomes);
    } else {
      SliceEnds(batch, lines, queue, from, outcomes);
    }
  }

  lemma SliceEnds(batch: nat, lines: seq<Line>, queue: seq<Record>, from: nat, outcomes: seq<Outcome>)
    requires batch > 0 && ReadsFrom(lines, queue, from)
    requires from == |queue| || outcomes == [] || !outcomes[0].Acknowledged?
    ensures HandsOver(batch, lines, queue, from, outcomes)
  {
    if from < |queue| && outcomes != [] && outcomes[0].ReplyLost? {
      ChunkOnly(queue, from, ChunkSize(batch, |queue| - from), lines);
    } else {
      assert Drain(batch, lines, queue[from..], outcomes) == Drained(lines, [], 0);
    }
  }

  lemma {:induction false} SliceContinues(batch: nat, lines: seq<Line>, queue: seq<Record>, from: nat,
                                          outcomes: seq<Outcome>)
    requires batch > 0 && from < |queue| && outcomes != [] && outcomes[0].Acknowledged?
    requires var n := ChunkSize(batch, |queue| - from);
             HandsOver(batch, Dropped(lines, n), queue, from + n, outcomes[1..])
    ensures HandsOver(batch, lines, queue, from, outcomes)
  {
    var n := ChunkSize(batch, |queue| - from);
    var rest := Drain(batch, Dropped(lines, n), queue[from + n..], outcomes[1..]);
    assert SliceTaken(queue, from + n, rest);
    ChunkAndRest(queue, from, n, rest);
    DrainChunk(batch, lines, queue, from, outcomes);
  }

  lemma DrainChunk(batch: nat, lines: seq<Line>, queue: seq<Record>, from: nat, outcomes: seq<Outcome>)
    requires batch > 0 && from < |queue| && outcomes != [] && outcomes[0].Acknowledged?
    ensures var n := ChunkSize(batch, |queue| - from);
            var rest := Drain(batch, Dropped(lines, n), queue[from + n..], outcomes[1..]);
            Drain(batch, lines, queue[from..], outcomes) ==
              Drained(rest.lines, queue[from..][..n] + rest.accepted, n + rest.sent)
  {
    TailSplit(queue, from, ChunkSize(batch, |queue| - from));
    DrainAcknowledged(batch, lines, queue[from..], outcomes);
  }

  ghost predicate NoLostReply(outcomes: seq<Outcome>) {
    forall i :: 0 <= i < |outcomes| ==> !outcomes[i].ReplyLost?
  }

  /** Handed over, then still queued, is what was queued; the count returned is what was handed over. */
  ghost predicate AllAccounted(queue: seq<Record>, d: Drained) {
    d.accepted + Readable(d.lines) == queue && NoJunk(d.lines) && d.sent == |d.accepted|
  }

  lemma ChunkFirst(pending: seq<Record>, n: nat, rest: Drained)
    requires n <= |pending| && AllAccounted(pending[n..], rest)
    ensures AllAccounted(pending, Drained(rest.lines, pending[..n] + rest.accepted, n + rest.sent))
  {
    Regroup(pending[..n], rest.accepted, Readable(rest.lines));
    assert pending[..n] + pending[n..] == pending;
  }

  lemma {:induction false} DrainExactlyOnce(batch: nat, lines: seq<Line>, outcomes: seq<Outcome>)
    requires batch > 0 && NoJunk(lines) && NoLostReply(outcomes)
    ensures AllAccounted(Readable(lines), Drain(batch, lines, Readable(lines), outcomes))
    decreases |Readable(lines)|
  {
    var pending := Readable(lines);
    if pending != [] && outcomes != [] && outcomes[0].Acknowledged? {
      var n := ChunkSize(batch, |pending|);
      DropTakesExactly(lines, n);
      DrainExactlyOnce(batch, Dropped(lines, n), outcomes[1..]);
      DrainAcknowledged(batch, lines, pending, outcomes);
      ChunkFirst(pending, n, Drain(batch, Dropped(lines, n), pending[n..], outcomes[1..]));
    }
  }

  // ---------------------------------------------------------------------------------------
  // Writing
  // ---------------------------------------------------------------------------------------

  /**
   What becomes of an unterminated line when more bytes are written behind it: base64 decoding stops at
   padding, so a whole record that ends in padding still reads, and anything else no longer does.
   */
  function Glued(s: Suite, line: Line): Line {
    if line.Entry? && s.padded(line.record) then line else Junk
  }

  /** Append one line's bytes; behind an unterminated line they do not start a line of their own. */
  function Put(s: Suite, lines: seq<Line>, open: bool, line: Line): seq<Line> {
    if open && lines != [] then lines[..|lines| - 1] + [Glued(s, lines[|lines| - 1])] else lines + [line]
  }

  /** Writing behind the last line destroys a record: it is whole, unterminated and ends without padding. */
  predicate LastIsFragile(s: Suite, lines: seq<Line>) {
    lines != [] && lines[|lines| - 1].Entry? && !s.padded(lines[|lines| - 1].record)
  }

  lemma OneLine(line: Line)
    ensures Readable([line]) == if line.Entry? then [line.record] else []
  {
    assert [line][1..] == [];
  }

  lemma ReadableSnoc(lines: seq<Line>, line: Line)
    ensures Readable(lines + [line]) == Readable(lines) + if line.Entry? then [line.record] else []
  {
    OneLine(line);
    ReadableConcat(lines, [line]);
  }

  /** On a fresh line the record is read back after all others. */
  lemma PutFresh(s: Suite, lines: seq<Line>, open: bool, line: Line)
    requires !(open && lines != [])
    ensures Readable(Put(s, lines, open, line)) == Readable(lines) + if line.Entry? then [line.record] else []
  {
    ReadableSnoc(lines, line);
  }

  /** Behind an unterminated line nothing is added, and a fragile last record is lost. */
  lemma PutGlued(s: Suite, lines: seq<Line>, line: Line)
    requires lines != []
    ensures LastIsFragile(s, lines) ==>
              && Readable(lines) != [] && Readable(lines)[|Readable(lines)| - 1] == lines[|lines| - 1].record
              && Readable(Put(s, lines, true, line)) == Readable(lines)[..|Readable(lines)| - 1]
    ensures !LastIsFragile(s, lines) ==> Readable(Put(s, lines, true, line)) == Readable(lines)
  {
    var before, last := lines[..|lines| - 1], lines[|lines| - 1];
    assert lines == before + [last];
    ReadableSnoc(before, last);
    ReadableSnoc(before, Glued(s, last));
  }

  // ---------------------------------------------------------------------------------------
  // Runs of one process over its state directory
  // ---------------------------------------------------------------------------------------

  /**
   Disk state, plus the history of records appended and of records the server took. `open` says that the
   queue file does not end in a line break.
   */
  datatype World = World(
    lines: seq<Line>, open: bool, head: HeadFile, appended: seq<Record>, accepted: seq<Record>)

  const FRESH := World([], false, NoHead, [], [])

  datatype Call = Call(action: string, output: string, occurredAt: string, traceId: Option<string>, status: string)

  datatype Op =
    | Gate(call: Call)
    | GateCrash(call: Call, midHead: bool)  // died after append: before or while writing chain.json
    | GateTorn(call: Call, whole: bool)     // died while appending: the line break, or more, is missing
    | DrainQueue(outcomes: seq<Outcome>)
    | Foreign(at: nat, line: Line)          // a junk or blank line turns up in the file
    | Corrupt(at: nat)                      // a record's line goes bad where it stands
    | Restart

  predicate IsGate(op: Op) {
    op.Gate? || op.GateCrash? || op.GateTorn?
  }

  predicate Unterminated(w: World) {
    w.open && w.lines != []
  }

  function NextRecord(s: Suite, deviceId: string, tip: (int, Option<Digest>), call: Call): Record {
    var payloadHash := s.hashPayload(call.output);
    var claim := BuildOfflineClaim(deviceId, tip.0, tip.1, call.occurredAt, call.action, payloadHash);
    var claimHash := s.hashClaim(claim);
    Record(call.action, call.output, call.occurredAt, tip.0, tip.1, payloadHash, s.sign(claimHash),
           claimHash, call.traceId, call.status)
  }

  /** The claim counts as appended: its write finished, or lacks only the line break on a line of its own. */
  predicate KeepsClaim(w: World, op: Op)
    requires IsGate(op)
  {
    !op.GateTorn? || (op.whole && !Unterminated(w))
  }

  function HeadAfter(head: HeadFile, op: Op, r: Record): HeadFile {
    if op.Gate? then Head(r.localSeq + 1, Some(r.claimHash))
    else if op.GateCrash? && op.midHead then Broken
    else head
  }

  /** One gate while the server is away; it raises, changing nothing, when chain.json is needed and broken. */
  function Gated(s: Suite, deviceId: string, w: World, op: Op): World
    requires IsGate(op)
  {
    var tip := ChainState(w.lines, w.head);
    if tip.None? then w
    else
      var r := NextRecord(s, deviceId, tip.value, op.call);
      World(Put(s, w.lines, w.open, if op.GateTorn? && !op.whole then Junk else Entry(r)), op.GateTorn?,
            HeadAfter(w.head, op, r), if KeepsClaim(w, op) then w.appended + [r] else w.appended, w.accepted)
  }

  /** A drain that drops anything rewrites the file with every line terminated. */
  function DrainStep(batch: nat, w: World, outcomes: seq<Outcome>): World
    requires batch > 0
  {
    var d := Drain(batch, w.lines, Readable(w.lines), outcomes);
    w.(lines := d.lines, open := w.open && d.sent == 0, accepted := w.accepted + d.accepted)
  }

  predicate Inserts(w: World, at: nat, line: Line) {
    at <= |w.lines| && !line.Entry? && !(w.open && at == |w.lines|)
  }

  /** There is a record on that line. */
  predicate Hits(lines: seq<Line>, at: nat) {
    at < |lines| && lines[at].Entry?
  }

  function Step(s: Suite, deviceId: string, batch: nat, w: World, op: Op): World
    requires batch > 0
  {
    match op
    case DrainQueue(outcomes) => DrainStep(batch, w, outcomes)
    case Foreign(at, line) =>
      if Inserts(w, at, line) then w.(lines := w.lines[..at] + [line] + w.lines[at..]) else w
    case Corrupt(at) => if Hits(w.lines, at) then w.(lines := w.lines[at := Junk]) else w
    case Restart => w
    case _ => Gated(s, deviceId, w, op)
  }

  function Run(s: Suite, deviceId: string, batch: nat, ops: seq<Op>): World
    requires batch > 0
  {
    if ops == [] then FRESH else Step(s, deviceId, batch, Run(s, deviceId, batch, ops[..|ops| - 1]), ops[|ops| - 1])
  }

  lemma UnreadMiddle(a: seq<Line>, line: Line, b: seq<Line>)
    requires !line.Entry?
    ensures Readable(a + [line] + b) == Readable(a + b)
  {
    ReadableSnoc(a, line);
    ReadableConcat(a, b);
    ReadableConcat(a + [line], b);
  }

  lemma {:induction false} ForeignUnread(lines: seq<Line>, at: nat, line: Line)
    requires at <= |lines| && !line.Entry?
    ensures Readable(lines[..at] + [line] + lines[at..]) == Readable(lines)
  {
    UnreadMiddle(lines[..at], line, lines[at..]);
    assert lines == lines[..at] + lines[at..];
  }

  /** `rest` is `queue` without its record number n. */
  ghost predicate Without(queue: seq<Record>, rest: seq<Record>, n: nat) {
    n < |queue| && rest == queue[..n] + queue[n + 1..]
  }

  /** A line gone bad takes its record, and only that, out of what the queue reads. */
  lemma CorruptReads(lines: seq<Line>, at: nat)
    requires Hits(lines, at)
    ensures var n := |Readable(lines[..at])|;
            && Without(Readable(lines), Readable(lines[at := Junk]), n)
            && Readable(lines)[n] == lines[at].record
            && (n == |Readable(lines)| - 1 <==> Readable(lines[at + 1..]) == [])
  {
    var before, after := lines[..at], lines[at + 1..];
    assert lines == before + [lines[at]] + after && lines[at := Junk] == before + [Junk] + after;
    ReadableConcat(before + [lines[at]], after);
    ReadableSnoc(before, lines[at]);
    UnreadMiddle(before, Junk, after);
    ReadableConcat(before, after);
  }

  // ---------------------------------------------------------------------------------------
  // What a step does to what the queue reads
  // ---------------------------------------------------------------------------------------

  /** A gate writes behind an unterminated line. */
  predicate Glues(w: World, op: Op) {
    IsGate(op) && ChainState(w.lines, w.head).Some? && Unterminated(w)
  }

  /** On a fresh line, a claim that counts is read back after all others. */
  lemma FreshGate(s: Suite, deviceId: string, w: World, op: Op)
    requires IsGate(op) && ChainState(w.lines, w.head).Some? && !Unterminated(w)
    ensures var r := NextRecord(s, deviceId, ChainState(w.lines, w.head).value, op.call);
            var w' := Gated(s, deviceId, w, op);
            if KeepsClaim(w, op)
            then Readable(w'.lines) == Readable(w.lines) + [r] && w'.appended == w.appended + [r]
            else Readable(w'.lines) == Readable(w.lines) && w'.appended == w.appended
  {
    var r := NextRecord(s, deviceId, ChainState(w.lines, w.head).value, op.call);
    PutFresh(s, w.lines, w.open, if op.GateTorn? && !op.whole then Junk else Entry(r));
    assert Readable(w.lines) + [] == Readable(w.lines);
  }

  /** Behind an unterminated line no claim is read back, and a fragile record is gone. */
  lemma GluedGate(s: Suite, deviceId: string, w: World, op: Op)
    requires Glues(w, op)
    ensures var w' := Gated(s, deviceId, w, op);
            && (LastIsFragile(s, w.lines) ==>
                  && Readable(w.lines) != []
                  && Readable(w.lines)[|Readable(w.lines)| - 1] == w.lines[|w.lines| - 1].record
                  && Readable(w'.lines) == Readable(w.lines)[..|Readable(w.lines)| - 1])
            && (!LastIsFragile(s, w.lines) ==> Readable(w'.lines) == Readable(w.lines))
            && w'.appended == if op.GateTorn? then w.appended
                              else w.appended + [NextRecord(s, deviceId, ChainState(w.lines, w.head).value, op.call)]
  {
    var r := NextRecord(s, deviceId, ChainState(w.lines, w.head).value, op.call);
    PutGlued(s, w.lines, if op.GateTorn? && !op.whole then Junk else Entry(r));
  }

  lemma DrainStepTakes(batch: nat, w: World, outcomes: seq<Outcome>)
    requires batch > 0
    ensures var w' := DrainStep(batch, w, outcomes);
            exists n :: 0 <= n <= |Readable(w.lines)| && w'.accepted == w.accepted + Readable(w.lines)[..n]
                        && TailFrom(Readable(w.lines), Readable(w'.lines), n)
  {
    var queue := Readable(w.lines);
    assert queue[0..] == queue;
    DrainHandsOverSlice(batch, w.lines, queue, 0, outcomes);
    var n := |Drain(batch, w.lines, queue, outcomes).accepted|;
    assert queue[0..n] == queue[..n];
  }

  // ---------------------------------------------------------------------------------------
  // No loss
  // ---------------------------------------------------------------------------------------

  /** The queue still reads a tail of what was appended; all that comes before it has been accepted. */
  ghost predicate NothingLost(w: World) {
    TailAccepted(w.appended, Readable(w.lines), w.accepted)
  }

  ghost predicate TailAccepted(all: seq<Record>, rest: seq<Record>, accepted: seq<Record>) {
    && TailFrom(all, rest, |all|)
    && forall i :: 0 <= i < |all| - |rest| ==> all[i] in accepted
  }

  lemma PrefixTaken(all: seq<Record>, queue: seq<Record>, rest: seq<Record>, before: seq<Record>, n: nat)
    requires TailAccepted(all, queue, before) && n <= |queue| && TailFrom(queue, rest, n)
    ensures TailAccepted(all, rest, before + queue[..n])
  {
    TailOfTail(all, queue, rest, |all|, n);
    var start := |all| - |queue|;
    forall i | 0 <= i < |all| - |rest|
      ensures all[i] in before + queue[..n]
    {
      if i >= start {
        assert all[i] == queue[i - start] == queue[..n][i - start];
      }
    }
  }

  lemma BothGrow(all: seq<Record>, rest: seq<Record>, accepted: seq<Record>, r: Record)
    requires TailAccepted(all, rest, accepted)
    ensures TailAccepted(all + [r], rest + [r], accepted)
  {
  }

  /**
   The step destroys a record: a claim or a fragile record is lost behind an unterminated line, or a record's
   line goes bad.
   */
  predicate Spoils(s: Suite, w: World, op: Op) {
    || (Glues(w, op) && (!op.GateTorn? || LastIsFragile(s, w.lines)))
    || (op.Corrupt? && Hits(w.lines, op.at))
  }

  lemma StepLosesNothing(s: Suite, deviceId: string, batch: nat, w: World, op: Op)
    requires batch > 0 && NothingLost(w) && !Spoils(s, w, op)
    ensures NothingLost(Step(s, deviceId, batch, w, op))
  {
    match op
    case DrainQueue(outcomes) =>
      DrainStepTakes(batch, w, outcomes);
      var w', queue := DrainStep(batch, w, outcomes), Readable(w.lines);
      var n :| 0 <= n <= |queue| && w'.accepted == w.accepted + queue[..n] && TailFrom(queue, Readable(w'.lines), n);
      PrefixTaken(w.appended, queue, Readable(w'.lines), w.accepted, n);
    case Foreign(at, line) =>
      if Inserts(w, at, line) {
        ForeignUnread(w.lines, at, line);
      }
    case Corrupt(at) =>
    case Restart =>
    case _ =>
      if ChainState(w.lines, w.head).Some? {
        if Unterminated(w) {
          GluedGate(s, deviceId, w, op);
        } else {
          FreshGate(s, deviceId, w, op);
          var r := NextRecord(s, deviceId, ChainState(w.lines, w.head).value, op.call);
          BothGrow(w.appended, Readable(w.lines), w.accepted, r);
        }
      }
  }

  /** No step of the run destroys a record. */
  ghost predicate NeverSpoils(s: Suite, deviceId: string, batch: nat, ops: seq<Op>)
    requires batch > 0
  {
    forall k :: 0 <= k < |ops| ==> !SpoilsAt(s, deviceId, batch, ops, k)
  }

  ghost predicate SpoilsAt(s: Suite, deviceId: string, batch: nat, ops: seq<Op>, k: nat)
    requires batch > 0 && k < |ops|
  {
    Spoils(s, Run(s, deviceId, batch, ops[..k]), ops[k])
  }

  lemma NeverSpoilsPrefix(s: Suite, deviceId: string, batch: nat, ops: seq<Op>)
    requires batch > 0 && ops != [] && NeverSpoils(s, deviceId, batch, ops)
    ensures NeverSpoils(s, deviceId, batch, ops[..|ops| - 1])
  {
    var n := |ops| - 1;
    forall k | 0 <= k < n
      ensures !SpoilsAt(s, deviceId, batch, ops[..n], k)
    {
      assert ops[..n][k] == ops[k] && ops[..n][..k] == ops[..k];
      assert !SpoilsAt(s, deviceId, batch, ops, k);
    }
  }

  /**
   No loss, over every run of gates, crashes, torn writes, drains with any outcomes, restarts and foreign
   lines anywhere, as long as no write lands on a record's line and none goes bad: what the queue still reads
   is the tail of what was appended, and everything before that tail has been accepted by the server.
   */
  lemma {:induction false} NoLoss(s: Suite, deviceId: string, batch: nat, ops: seq<Op>)
    requires batch > 0 && NeverSpoils(s, deviceId, batch, ops)
    ensures NothingLost(Run(s, deviceId, batch, ops))
    decreases |ops|
  {
    if ops != [] {
      var n := |ops| - 1;
      NeverSpoilsPrefix(s, deviceId, batch, ops);
      assert !SpoilsAt(s, deviceId, batch, ops, n);
      NoLoss(s, deviceId, batch, ops[..n]);
      StepLosesNothing(s, deviceId, batch, Run(s, deviceId, batch, ops[..n]), ops[n]);
    }
  }

  // ---------------------------------------------------------------------------------------
  // Exactly when a record is lost
  // ---------------------------------------------------------------------------------------

  /** Every appended record can still be read or has been accepted. */
  ghost predicate AllSafe(w: World) {
    forall r :: r in w.appended ==> r in Readable(w.lines) || r in w.accepted
  }

  /** Spoils, unless all it destroys is a record the server already has. */
  predicate Loses(s: Suite, w: World, op: Op) {
    || (&& Glues(w, op)
        && (!op.GateTorn? || (LastIsFragile(s, w.lines) && w.lines[|w.lines| - 1].record !in w.accepted)))
    || (op.Corrupt? && Hits(w.lines, op.at) && w.lines[op.at].record !in w.accepted)
  }

  ghost predicate NeverLoses(s: Suite, deviceId: string, batch: nat, ops: seq<Op>)
    requires batch > 0
  {
    forall k :: 0 <= k < |ops| ==> !LosesAt(s, deviceId, batch, ops, k)
  }

  ghost predicate LosesAt(s: Suite, deviceId: string, batch: nat, ops: seq<Op>, k: nat)
    requires batch > 0 && k < |ops|
  {
    Loses(s, Run(s, deviceId, batch, ops[..k]), ops[k])
  }

  function CallOf(r: Record): Call {
    Call(r.action, r.output, r.occurredAt, r.traceId, r.localStatus)
  }

  /** No two gates are the same call at the same moment. */
  ghost predicate DistinctCalls(ops: seq<Op>) {
    forall i, j :: 0 <= i < j < |ops| && IsGate(ops[i]) && IsGate(ops[j]) ==> ops[i].call != ops[j].call
  }

  ghost predicate NoRepeats(rs: seq<Record>) {
    forall i, j :: 0 <= i < j < |rs| ==> rs[i] != rs[j]
  }

  /** Records in play come from calls made so far, and none is queued twice. */
  ghost predicate Accounted(w: World, ops: seq<Op>) {
    && NoRepeats(Readable(w.lines))
    && (forall r :: r in Readable(w.lines) || r in w.accepted ==> r in w.appended)
    && (forall r :: r in w.appended ==> exists k :: 0 <= k < |ops| && IsGate(ops[k]) && ops[k].call == CallOf(r))
  }

  lemma NewCall(w: World, ops: seq<Op>, op: Op, r: Record)
    requires Accounted(w, ops) && DistinctCalls(ops + [op]) && IsGate(op) && CallOf(r) == op.call
    ensures r !in w.appended
  {
    forall k | 0 <= k < |ops| && IsGate(ops[k])
      ensures ops[k].call != CallOf(r)
    {
      assert (ops + [op])[k] == ops[k] && (ops + [op])[|ops|] == op;
    }
  }

  /** What a step can newly read, accept or append. */
  ghost predicate StepBounds(w: World, w': World, op: Op) {
    && (forall r :: r in Readable(w'.lines) ==>
          r in Readable(w.lines) || (IsGate(op) && r in w'.appended && CallOf(r) == op.call))
    && (forall r :: r in w'.accepted ==> r in w.accepted || r in Readable(w.lines))
    && (forall r :: r in w.appended ==> r in w'.appended)
    && (forall r :: r in w'.appended ==> r in w.appended || (IsGate(op) && CallOf(r) == op.call))
  }

  lemma StepWithinBounds(s: Suite, deviceId: string, batch: nat, w: World, op: Op)
    requires batch > 0
    ensures StepBounds(w, Step(s, deviceId, batch, w, op), op)
  {
    match op
    case DrainQueue(outcomes) => DrainWithinBounds(batch, w, outcomes);
    case Foreign(at, line) =>
      if Inserts(w, at, line) {
        ForeignUnread(w.lines, at, line);
      }
    case Corrupt(at) =>
      if Hits(w.lines, at) {
        CorruptReads(w.lines, at);
      }
    case Restart =>
    case _ => GateWithinBounds(s, deviceId, w, op);
  }

  lemma DrainWithinBounds(batch: nat, w: World, outcomes: seq<Outcome>)
    requires batch > 0
    ensures StepBounds(w, DrainStep(batch, w, outcomes), DrainQueue(outcomes))
  {
    DrainStepTakes(batch, w, outcomes);
  }

  lemma GateWithinBounds(s: Suite, deviceId: string, w: World, op: Op)
    requires IsGate(op)
    ensures StepBounds(w, Gated(s, deviceId, w, op), op)
  {
    if ChainState(w.lines, w.head).Some? {
      if Unterminated(w) {
        GluedGate(s, deviceId, w, op);
      } else {
        FreshGate(s, deviceId, w, op);
      }
    }
  }

  lemma WithoutRepeatsNothing(queue: seq<Record>, rest: seq<Record>, n: nat)
    requires NoRepeats(queue) && Without(queue, rest, n)
    ensures NoRepeats(rest)
  {
    forall i, j | 0 <= i < j < |rest|
      ensures rest[i] != rest[j]
    {
      assert rest[i] == queue[if i < n then i else i + 1] && rest[j] == queue[if j < n then j else j + 1];
    }
  }

  lemma DrainRepeatsNothing(batch: nat, w: World, outcomes: seq<Outcome>)
    requires batch > 0 && NoRepeats(Readable(w.lines))
    ensures NoRepeats(Readable(DrainStep(batch, w, outcomes).lines))
  {
    DrainStepTakes(batch, w, outcomes);
  }

  lemma GateRepeatsNothing(s: Suite, deviceId: string, w: World, ops: seq<Op>, op: Op)
    requires Accounted(w, ops) && DistinctCalls(ops + [op]) && IsGate(op)
    ensures NoRepeats(Readable(Gated(s, deviceId, w, op).lines))
  {
    if ChainState(w.lines, w.head).Some? {
      if Unterminated(w) {
        GluedGate(s, deviceId, w, op);
      } else {
        FreshGate(s, deviceId, w, op);
        NewCall(w, ops, op, NextRecord(s, deviceId, ChainState(w.lines, w.head).value, op.call));
      }
    }
  }

  lemma RepeatsNothing(s: Suite, deviceId: string, batch: nat, w: World, ops: seq<Op>, op: Op)
    requires batch > 0 && Accounted(w, ops) && DistinctCalls(ops + [op])
    ensures NoRepeats(Readable(Step(s, deviceId, batch, w, op).lines))
  {
    match op
    case DrainQueue(outcomes) => DrainRepeatsNothing(batch, w, outcomes);
    case Foreign(at, line) =>
      if Inserts(w, at, line) {
        ForeignUnread(w.lines, at, line);
      }
    case Corrupt(at) =>
      if Hits(w.lines, at) {
        CorruptReads(w.lines, at);
        WithoutRepeatsNothing(Readable(w.lines), Readable(w.lines[at := Junk]), |Readable(w.lines[..at])|);
      }
    case Restart =>
    case _ => GateRepeatsNothing(s, deviceId, w, ops, op);
  }

  lemma StaysAccounted(s: Suite, deviceId: string, batch: nat, w: World, ops: seq<Op>, op: Op)
    requires batch > 0 && Accounted(w, ops) && DistinctCalls(ops + [op])
    ensures Accounted(Step(s, deviceId, batch, w, op), ops + [op])
  {
    var w' := Step(s, deviceId, batch, w, op);
    RepeatsNothing(s, deviceId, batch, w, ops, op);
    StepWithinBounds(s, deviceId, batch, w, op);
    forall r | r in w'.appended
      ensures exists k :: 0 <= k < |ops + [op]| && IsGate((ops + [op])[k]) && (ops + [op])[k].call == CallOf(r)
    {
      if r in w.appended {
        var k :| 0 <= k < |ops| && IsGate(ops[k]) && ops[k].call == CallOf(r);
        assert (ops + [op])[k] == ops[k];
      } else {
        assert (ops + [op])[|ops|] == op;
      }
    }
  }

  /** A step that loses nothing keeps every record safe. */
  lemma StaysSafe(s: Suite, deviceId: string, batch: nat, w: World, op: Op)
    requires batch > 0 && AllSafe(w) && !Loses(s, w, op)
    ensures AllSafe(Step(s, deviceId, batch, w, op))
  {
    match op
    case DrainQueue(outcomes) =>
      DrainStepTakes(batch, w, outcomes);
      var w', queue := DrainStep(batch, w, outcomes), Readable(w.lines);
      var n :| 0 <= n <= |queue| && w'.accepted == w.accepted + queue[..n] && TailFrom(queue, Readable(w'.lines), n);
      TakenOrLeft(queue, Readable(w'.lines), n);
    case Foreign(at, line) =>
      if Inserts(w, at, line) {
        ForeignUnread(w.lines, at, line);
      }
    case Corrupt(at) =>
      if Hits(w.lines, at) {
        CorruptReads(w.lines, at);
        AllButOne(Readable(w.lines), |Readable(w.lines[..at])|);
      }
    case Restart =>
    case _ =>
      if ChainState(w.lines, w.head).Some? {
        if Unterminated(w) {
          GluedGate(s, deviceId, w, op);
          AllButLast(Readable(w.lines));
        } else {
          FreshGate(s, deviceId, w, op);
        }
      }
  }

  lemma TakenOrLeft(queue: seq<Record>, rest: seq<Record>, n: nat)
    requires n <= |queue| && TailFrom(queue, rest, n)
    ensures forall r :: r in queue ==> r in queue[..n] || r in rest
  {
    forall r | r in queue
      ensures r in queue[..n] || r in rest
    {
      var i :| 0 <= i < |queue| && queue[i] == r;
      if i < n {
        assert queue[..n][i] == r;
      } else {
        assert rest[i - (|queue| - |rest|)] == r;
      }
    }
  }

  lemma AllButLast(rs: seq<Record>)
    ensures rs != [] ==> forall r :: r in rs ==> r in rs[..|rs| - 1] || r == rs[|rs| - 1]
  {
    forall r | r in rs && r != rs[|rs| - 1]
      ensures r in rs[..|rs| - 1]
    {
      var i :| 0 <= i < |rs| && rs[i] == r;
      assert rs[..|rs| - 1][i] == r;
    }
  }

  lemma AllButOne(rs: seq<Record>, n: nat)
    requires n < |rs|
    ensures forall r :: r in rs ==> r in rs[..n] + rs[n + 1..] || r == rs[n]
  {
    forall r | r in rs && r != rs[n]
      ensures r in rs[..n] + rs[n + 1..]
    {
      var i :| 0 <= i < |rs| && rs[i] == r;
      assert i < n ==> rs[..n][i] == r;
      assert i > n ==> rs[n + 1..][i - n - 1] == r;
    }
  }

  /** A step that loses leaves a record that is neither read nor accepted. */
  lemma LossShows(s: Suite, deviceId: string, batch: nat, w: World, ops: seq<Op>, op: Op)
    requires batch > 0 && Accounted(w, ops) && DistinctCalls(ops + [op]) && Loses(s, w, op)
    ensures !AllSafe(Step(s, deviceId, batch, w, op))
  {
    var w' := Step(s, deviceId, batch, w, op);
    if op.Corrupt? {
      CorruptReads(w.lines, op.at);
      assert w.lines[op.at].record in w.appended;
      return;
    }
    GluedGate(s, deviceId, w, op);
    if op.GateTorn? {
      var e := w.lines[|w.lines| - 1].record;
      assert e in w.appended;
    } else {
      var r := NextRecord(s, deviceId, ChainState(w.lines, w.head).value, op.call);
      NewCall(w, ops, op, r);
      assert r in w'.appended && w'.accepted == w.accepted;
    }
  }

  /** What is lost stays lost. */
  lemma LostStaysLost(s: Suite, deviceId: string, batch: nat, w: World, ops: seq<Op>, op: Op)
    requires batch > 0 && Accounted(w, ops) && DistinctCalls(ops + [op]) && !AllSafe(w)
    ensures !AllSafe(Step(s, deviceId, batch, w, op))
  {
    var w' := Step(s, deviceId, batch, w, op);
    var r :| r in w.appended && r !in Readable(w.lines) && r !in w.accepted;
    StepWithinBounds(s, deviceId, batch, w, op);
    if IsGate(op) && CallOf(r) == op.call {
      NewCall(w, ops, op, r);
    }
    assert r in w'.appended && r !in Readable(w'.lines) && r !in w'.accepted;
  }

  /**
   Exactly when nothing is lost: after any run of distinct calls, every appended record can be read or has
   been accepted if and only if no gate wrote its claim behind an unterminated line, no torn write destroyed
   an unterminated record the server did not have yet, and no line of such a record went bad.
   */
  lemma {:induction false} NothingLostExactly(s: Suite, deviceId: string, batch: nat, ops: seq<Op>)
    requires batch > 0 && DistinctCalls(ops)
    ensures AllSafe(Run(s, deviceId, batch, ops)) <==> NeverLoses(s, deviceId, batch, ops)
    ensures Accounted(Run(s, deviceId, batch, ops), ops)
    decreases |ops|
  {
    if ops != [] {
      var n := |ops| - 1;
      var w := Run(s, deviceId, batch, ops[..n]);
      assert ops[..n] + [ops[n]] == ops;
      NothingLostExactly(s, deviceId, batch, ops[..n]);
      StaysAccounted(s, deviceId, batch, w, ops[..n], ops[n]);
      NeverLosesStep(s, deviceId, batch, ops);
      if !AllSafe(w) {
        LostStaysLost(s, deviceId, batch, w, ops[..n], ops[n]);
      } else if Loses(s, w, ops[n]) {
        LossShows(s, deviceId, batch, w, ops[..n], ops[n]);
      } else {
        StaysSafe(s, deviceId, batch, w, ops[n]);
      }
    }
  }

  lemma NeverLosesStep(s: Suite, deviceId: string, batch: nat, ops: seq<Op>)
    requires batch > 0 && ops != []
    ensures NeverLoses(s, deviceId, batch, ops) <==>
              NeverLoses(s, deviceId, batch, ops[..|ops| - 1]) && !LosesAt(s, deviceId, batch, ops, |ops| - 1)
  {
    var n := |ops| - 1;
    forall k | 0 <= k < n
      ensures LosesAt(s, deviceId, batch, ops[..n], k) <==> LosesAt(s, deviceId, batch, ops, k)
    {
      LosesPrefix(s, deviceId, batch, ops, n, k);
    }
  }

  lemma LosesPrefix(s: Suite, deviceId: string, batch: nat, ops: seq<Op>, n: nat, k: nat)
    requires batch > 0 && k < n <= |ops|
    ensures LosesAt(s, deviceId, batch, ops[..n], k) <==> LosesAt(s, deviceId, batch, ops, k)
  {
    assert ops[..n][k] == ops[k] && ops[..n][..k] == ops[..k];
  }

  // ---------------------------------------------------------------------------------------
  // Exactly once
  // ---------------------------------------------------------------------------------------

  /** No unreadable lines and no lost replies. */
  ghost predicate Orderly(ops: seq<Op>) {
    forall i :: 0 <= i < |ops| ==> OrderlyOp(ops[i])
  }

  ghost predicate OrderlyOp(op: Op) {
    && (op.Foreign? ==> !op.line.Junk?) && (op.DrainQueue? ==> NoLostReply(op.outcomes))
    && !op.GateTorn? && !op.Corrupt?
  }

  ghost predicate OnceInOrder(w: World) {
    w.accepted + Readable(w.lines) == w.appended && NoJunk(w.lines) && !w.open
  }

  /** Without junk or lost replies the server takes every record once, in the order it was appended. */
  lemma {:induction false} ExactlyOnce(s: Suite, deviceId: string, batch: nat, ops: seq<Op>)
    requires batch > 0 && Orderly(ops)
    ensures OnceInOrder(Run(s, deviceId, batch, ops))
    decreases |ops|
  {
    if ops != [] {
      ExactlyOnce(s, deviceId, batch, ops[..|ops| - 1]);
      StepExactlyOnce(s, deviceId, batch, Run(s, deviceId, batch, ops[..|ops| - 1]), ops[|ops| - 1]);
    }
  }

  lemma StepExactlyOnce(s: Suite, deviceId: string, batch: nat, w: World, op: Op)
    requires batch > 0 && OnceInOrder(w) && OrderlyOp(op)
    ensures OnceInOrder(Step(s, deviceId, batch, w, op))
  {
    match op
    case DrainQueue(outcomes) =>
      DrainExactlyOnce(batch, w.lines, outcomes);
      var d := Drain(batch, w.lines, Readable(w.lines), outcomes);
      Regroup(w.accepted, d.accepted, Readable(d.lines));
    case Foreign(at, line) =>
      if Inserts(w, at, line) {
        ForeignUnread(w.lines, at, line);
      }
    case Restart =>
    case Gate(_) => GateExactlyOnce(s, deviceId, w, op);
    case GateCrash(_, _) => GateExactlyOnce(s, deviceId, w, op);
  }

  lemma GateExactlyOnce(s: Suite, deviceId: string, w: World, op: Op)
    requires OnceInOrder(w) && (op.Gate? || op.GateCrash?)
    ensures OnceInOrder(Gated(s, deviceId, w, op))
  {
    if ChainState(w.lines, w.head).Some? {
      FreshGate(s, deviceId, w, op);
      Regroup(w.accepted, Readable(w.lines), [NextRecord(s, deviceId, ChainState(w.lines, w.head).value, op.call)]);
    }
  }

  // ---------------------------------------------------------------------------------------
  // The local chain
  // ---------------------------------------------------------------------------------------

  function PrevHash(records: seq<Record>, i: nat): Option<Digest>
    requires i <= |records|
  {
    if i == 0 then None else Some(records[i - 1].claimHash)
  }

  function ClaimOf(deviceId: string, r: Record): Claim {
    BuildOfflineClaim(deviceId, r.localSeq, r.prevLocal, r.occurredAt, r.action, r.payloadHash)
  }

  /** Record i is number i+1, points at its predecessor, and carries its own hashes and signature. */
  ghost predicate ChainedAt(s: Suite, deviceId: string, records: seq<Record>, i: nat)
    requires i < |records|
  {
    && records[i].localSeq == i + 1
    && records[i].prevLocal == PrevHash(records, i)
    && records[i].payloadHash == s.hashPayload(records[i].output)
    && records[i].claimHash == s.hashClaim(ClaimOf(deviceId, records[i]))
    && records[i].clientSignature == s.sign(records[i].claimHash)
  }

  ghost predicate OneChain(s: Suite, deviceId: string, records: seq<Record>) {
    forall i :: 0 <= i < |records| ==> ChainedAt(s, deviceId, records, i)
  }

  /** How the last claim was written: whether chain.json was completed after it, and whether its line still reads. */
  datatype Last = NoClaim | Claimed(headWritten: bool, readable: bool)

  function LastAfter(s: Suite, w: World, p: Last, op: Op): Last {
    if op.Corrupt? then
      if p.Claimed? && Hits(w.lines, op.at) && Readable(w.lines[op.at + 1..]) == [] then p.(readable := false) else p
    else if !IsGate(op) || ChainState(w.lines, w.head).None? then p
    else if KeepsClaim(w, op) then Claimed(op.Gate?, !Unterminated(w))
    else if p.Claimed? && Unterminated(w) && LastIsFragile(s, w.lines) then p.(readable := false)
    else p
  }

  /** The last claim of a run, from its operations. */
  function LastClaim(s: Suite, deviceId: string, batch: nat, ops: seq<Op>): Last
    requires batch > 0
  {
    if ops == [] then NoClaim
    else
      var n := |ops| - 1;
      LastAfter(s, Run(s, deviceId, batch, ops[..n]), LastClaim(s, deviceId, batch, ops[..n]), ops[n])
  }

  /**
   The next claim will follow the last: either its line is there to be read, or nothing is and chain.json
   was completed.
   */
  predicate TipKnown(lines: seq<Line>, p: Last) {
    p.NoClaim? || if Readable(lines) != [] then p.readable else p.headWritten
  }

  /** What chain.json holds once completed after the last of these claims. */
  function HeadOf(records: seq<Record>): HeadFile {
    if records == [] then NoHead
    else Head(records[|records| - 1].localSeq + 1, Some(records[|records| - 1].claimHash))
  }

  /** What the queue reads, against the claims made: older claims, then the last one if its line still reads. */
  ghost predicate ReadsClaims(queue: seq<Record>, claims: seq<Record>, p: Last) {
    && (p.NoClaim? <==> claims == [])
    && (p.NoClaim? ==> queue == [])
    && (forall i :: 0 <= i < |queue| - 1 ==> Older(queue[i], claims))
    && (p.Claimed? && queue != [] && p.readable ==> queue[|queue| - 1] == claims[|claims| - 1])
    && (p.Claimed? && queue != [] && !p.readable ==> Older(queue[|queue| - 1], claims))
  }

  /** One of the claims, but not the last. */
  ghost predicate Older(r: Record, claims: seq<Record>) {
    exists j :: 0 <= j < |claims| - 1 && claims[j] == r
  }

  /** chain.json is current, broken, or from the past. */
  ghost predicate HeadTracks(head: HeadFile, claims: seq<Record>, p: Last) {
    && (p.NoClaim? ==> head == NoHead)
    && (p.Claimed? && p.headWritten ==> head == HeadOf(claims))
    && (p.Claimed? && !p.headWritten ==> head.Broken? || exists m :: 0 <= m < |claims| && head == HeadOf(claims[..m]))
  }

  ghost predicate Tracked(w: World, p: Last) {
    ReadsClaims(Readable(w.lines), w.appended, p) && HeadTracks(w.head, w.appended, p)
  }

  lemma ReadsAfterClaim(queue: seq<Record>, claims: seq<Record>, p: Last, r: Record, headWritten: bool)
    requires ReadsClaims(queue, claims, p)
    ensures ReadsClaims(queue + [r], claims + [r], Claimed(headWritten, true))
    ensures ReadsClaims(queue, claims + [r], Claimed(headWritten, false))
    ensures queue != [] ==> ReadsClaims(queue[..|queue| - 1], claims + [r], Claimed(headWritten, false))
  {
    forall i | 0 <= i < |queue|
      ensures Older(queue[i], claims + [r])
    {
      if i < |queue| - 1 || !p.readable {
        assert Older(queue[i], claims);
        var j :| 0 <= j < |claims| - 1 && claims[j] == queue[i];
        assert (claims + [r])[j] == queue[i];
      } else {
        assert (claims + [r])[|claims| - 1] == queue[i];
      }
    }
  }

  lemma ReadsAfterDrop(queue: seq<Record>, rest: seq<Record>, claims: seq<Record>, p: Last, n: nat)
    requires ReadsClaims(queue, claims, p) && TailFrom(queue, rest, n)
    ensures ReadsClaims(rest, claims, p)
  {
    var start := |queue| - |rest|;
    forall i | 0 <= i < |rest| - 1
      ensures Older(rest[i], claims)
    {
      assert rest[i] == queue[start + i];
    }
  }

  lemma HeadAfterClaim(head: HeadFile, claims: seq<Record>, p: Last, op: Op, r: Record, readable: bool)
    requires HeadTracks(head, claims, p) && (p.NoClaim? <==> claims == []) && IsGate(op)
    ensures HeadTracks(HeadAfter(head, op, r), claims + [r], Claimed(op.Gate?, readable))
  {
    assert (claims + [r])[..|claims|] == claims;
    if p.Claimed? && !p.headWritten && !head.Broken? {
      var m :| 0 <= m < |claims| && head == HeadOf(claims[..m]);
      assert (claims + [r])[..m] == claims[..m];
    }
  }

  lemma GateTracked(s: Suite, deviceId: string, w: World, p: Last, op: Op)
    requires Tracked(w, p) && IsGate(op) && ChainState(w.lines, w.head).Some?
    ensures Tracked(Gated(s, deviceId, w, op), LastAfter(s, w, p, op))
  {
    var r := NextRecord(s, deviceId, ChainState(w.lines, w.head).value, op.call);
    if KeepsClaim(w, op) {
      HeadAfterClaim(w.head, w.appended, p, op, r, !Unterminated(w));
    }
    GateReads(s, deviceId, w, p, op);
  }

  lemma GateReads(s: Suite, deviceId: string, w: World, p: Last, op: Op)
    requires Tracked(w, p) && IsGate(op) && ChainState(w.lines, w.head).Some?
    ensures var w' := Gated(s, deviceId, w, op);
            ReadsClaims(Readable(w'.lines), w'.appended, LastAfter(s, w, p, op))
  {
    if Unterminated(w) {
      GluedGateReads(s, deviceId, w, p, op);
    } else {
      FreshGateReads(s, deviceId, w, p, op);
    }
  }

  lemma FreshGateReads(s: Suite, deviceId: string, w: World, p: Last, op: Op)
    requires Tracked(w, p) && IsGate(op) && ChainState(w.lines, w.head).Some? && !Unterminated(w)
    ensures var w' := Gated(s, deviceId, w, op);
            ReadsClaims(Readable(w'.lines), w'.appended, LastAfter(s, w, p, op))
  {
    if KeepsClaim(w, op) {
      var r := NextRecord(s, deviceId, ChainState(w.lines, w.head).value, op.call);
      ReadsAfterClaim(Readable(w.lines), w.appended, p, r, op.Gate?);
    }
    FreshGate(s, deviceId, w, op);
  }

  lemma GluedGateReads(s: Suite, deviceId: string, w: World, p: Last, op: Op)
    requires Tracked(w, p) && Glues(w, op)
    ensures var w' := Gated(s, deviceId, w, op);
            ReadsClaims(Readable(w'.lines), w'.appended, LastAfter(s, w, p, op))
  {
    if KeepsClaim(w, op) {
      var r := NextRecord(s, deviceId, ChainState(w.lines, w.head).value, op.call);
      ReadsAfterClaim(Readable(w.lines), w.appended, p, r, op.Gate?);
    }
    GluedGate(s, deviceId, w, op);
  }

  lemma DrainTracked(batch: nat, w: World, p: Last, outcomes: seq<Outcome>)
    requires batch > 0 && Tracked(w, p)
    ensures Tracked(DrainStep(batch, w, outcomes), p)
  {
    DrainStepTakes(batch, w, outcomes);
    var w', queue := DrainStep(batch, w, outcomes), Readable(w.lines);
    var n :| 0 <= n <= |queue| && w'.accepted == w.accepted + queue[..n] && TailFrom(queue, Readable(w'.lines), n);
    ReadsAfterDrop(queue, Readable(w'.lines), w.appended, p, n);
  }

  lemma ReadsAfterCorruption(queue: seq<Record>, rest: seq<Record>, claims: seq<Record>, p: Last, n: nat)
    requires ReadsClaims(queue, claims, p) && Without(queue, rest, n)
    ensures ReadsClaims(rest, claims, if n == |queue| - 1 && p.Claimed? then p.(readable := false) else p)
  {
    assert forall i :: 0 <= i < |rest| ==> rest[i] == if i < n then queue[i] else queue[i + 1];
  }

  lemma CorruptTracked(s: Suite, w: World, p: Last, at: nat)
    requires Tracked(w, p) && Hits(w.lines, at)
    ensures Tracked(w.(lines := w.lines[at := Junk]), LastAfter(s, w, p, Corrupt(at)))
  {
    CorruptReads(w.lines, at);
    ReadsAfterCorruption(Readable(w.lines), Readable(w.lines[at := Junk]), w.appended, p, |Readable(w.lines[..at])|);
  }

  lemma StepTracked(s: Suite, deviceId: string, batch: nat, w: World, p: Last, op: Op)
    requires batch > 0 && Tracked(w, p)
    ensures Tracked(Step(s, deviceId, batch, w, op), LastAfter(s, w, p, op))
  {
    match op
    case DrainQueue(outcomes) => DrainTracked(batch, w, p, outcomes);
    case Foreign(at, line) =>
      if Inserts(w, at, line) {
        ForeignUnread(w.lines, at, line);
      }
    case Corrupt(at) =>
      if Hits(w.lines, at) {
        CorruptTracked(s, w, p, at);
      }
    case Restart =>
    case _ =>
      if ChainState(w.lines, w.head).Some? {
        GateTracked(s, deviceId, w, p, op);
      }
  }

  lemma {:induction false} RunTracked(s: Suite, deviceId: string, batch: nat, ops: seq<Op>)
    requires batch > 0
    ensures Tracked(Run(s, deviceId, batch, ops), LastClaim(s, deviceId, batch, ops))
    decreases |ops|
  {
    if ops != [] {
      var n := |ops| - 1;
      RunTracked(s, deviceId, batch, ops[..n]);
      var w, p := Run(s, deviceId, batch, ops[..n]), LastClaim(s, deviceId, batch, ops[..n]);
      StepTracked(s, deviceId, batch, w, p, ops[n]);
    }
  }

  /** A record continues a chain exactly when it does so at its own position. */
  lemma ChainExtends(s: Suite, deviceId: string, records: seq<Record>, r: Record)
    requires OneChain(s, deviceId, records)
    ensures OneChain(s, deviceId, records + [r]) <==> ChainedAt(s, deviceId, records + [r], |records|)
  {
    forall i | 0 <= i < |records|
      ensures ChainedAt(s, deviceId, records + [r], i)
    {
      assert ChainedAt(s, deviceId, records, i);
    }
  }

  lemma ChainPrefix(s: Suite, deviceId: string, records: seq<Record>, n: nat)
    requires OneChain(s, deviceId, records) && n <= |records|
    ensures OneChain(s, deviceId, records[..n])
  {
    forall i | 0 <= i < n
      ensures ChainedAt(s, deviceId, records[..n], i)
    {
      assert ChainedAt(s, deviceId, records, i);
    }
  }

  /** The tip read off a queue and a head file, as a statement about plain sequences. */
  lemma TipIsRight(s: Suite, deviceId: string, queue: seq<Record>, head: HeadFile, claims: seq<Record>, p: Last)
    requires OneChain(s, deviceId, claims) && ReadsClaims(queue, claims, p) && HeadTracks(head, claims, p)
    ensures queue != [] ==>
              (queue[|queue| - 1].localSeq == |claims| <==> p.readable)
              && (p.readable ==> Some(queue[|queue| - 1].claimHash) == PrevHash(claims, |claims|))
    ensures queue == [] && !head.Broken? ==>
              (head == HeadOf(claims) <==> p.NoClaim? || p.headWritten)
    ensures claims != [] ==> HeadOf(claims) == Head(|claims| + 1, PrevHash(claims, |claims|))
    ensures head.Head? && head.nextSeq == |claims| + 1 ==> head == HeadOf(claims)
  {
    QueueTipIsRight(s, deviceId, queue, claims, p);
    HeadTipIsRight(s, deviceId, head, claims, p);
  }

  lemma QueueTipIsRight(s: Suite, deviceId: string, queue: seq<Record>, claims: seq<Record>, p: Last)
    requires OneChain(s, deviceId, claims) && ReadsClaims(queue, claims, p)
    ensures queue != [] ==>
              (queue[|queue| - 1].localSeq == |claims| <==> p.readable)
              && (p.readable ==> Some(queue[|queue| - 1].claimHash) == PrevHash(claims, |claims|))
  {
    if claims != [] {
      assert ChainedAt(s, deviceId, claims, |claims| - 1);
    }
    if queue != [] && !p.readable {
      var j :| 0 <= j < |claims| - 1 && claims[j] == queue[|queue| - 1];
      assert ChainedAt(s, deviceId, claims, j);
    }
  }

  lemma HeadTipIsRight(s: Suite, deviceId: string, head: HeadFile, claims: seq<Record>, p: Last)
    requires OneChain(s, deviceId, claims) && HeadTracks(head, claims, p) && (p.NoClaim? <==> claims == [])
    ensures !head.Broken? ==> (head == HeadOf(claims) <==> p.NoClaim? || p.headWritten)
    ensures claims != [] ==> HeadOf(claims) == Head(|claims| + 1, PrevHash(claims, |claims|))
    ensures head.Head? && head.nextSeq == |claims| + 1 ==> head == HeadOf(claims)
  {
    if claims != [] {
      assert ChainedAt(s, deviceId, claims, |claims| - 1);
    }
    if p.Claimed? && !p.headWritten && !head.Broken? {
      var m :| 0 <= m < |claims| && head == HeadOf(claims[..m]);
      if m > 0 {
        assert ChainedAt(s, deviceId, claims, m - 1);
      }
    }
  }

  /**
   The next claim continues the chain exactly when the last one is there to be read, or nothing is and
   chain.json is complete.
   */
  lemma NextClaimContinues(s: Suite, deviceId: string, w: World, p: Last, call: Call)
    requires OneChain(s, deviceId, w.appended) && Tracked(w, p) && ChainState(w.lines, w.head).Some?
    ensures var r := NextRecord(s, deviceId, ChainState(w.lines, w.head).value, call);
            OneChain(s, deviceId, w.appended + [r]) <==> TipKnown(w.lines, p)
  {
    var r := NextRecord(s, deviceId, ChainState(w.lines, w.head).value, call);
    ChainExtends(s, deviceId, w.appended, r);
    TipIsRight(s, deviceId, Readable(w.lines), w.head, w.appended, p);
  }

  /** This operation signs a claim. */
  predicate Signs(w: World, op: Op) {
    IsGate(op) && ChainState(w.lines, w.head).Some? && KeepsClaim(w, op)
  }

  /** Whenever a claim was signed, the last one before it could be found. */
  ghost predicate AlwaysKnewTip(s: Suite, deviceId: string, batch: nat, ops: seq<Op>)
    requires batch > 0
  {
    forall k :: 0 <= k < |ops| ==> KnewTipAt(s, deviceId, batch, ops, k)
  }

  ghost predicate KnewTipAt(s: Suite, deviceId: string, batch: nat, ops: seq<Op>, k: nat)
    requires batch > 0 && k < |ops|
  {
    var w := Run(s, deviceId, batch, ops[..k]);
    Signs(w, ops[k]) ==> TipKnown(w.lines, LastClaim(s, deviceId, batch, ops[..k]))
  }

  lemma KnewTipStep(s: Suite, deviceId: string, batch: nat, ops: seq<Op>)
    requires batch > 0 && ops != []
    ensures AlwaysKnewTip(s, deviceId, batch, ops) <==>
              AlwaysKnewTip(s, deviceId, batch, ops[..|ops| - 1]) && KnewTipAt(s, deviceId, batch, ops, |ops| - 1)
  {
    var n := |ops| - 1;
    forall k | 0 <= k < n
      ensures KnewTipAt(s, deviceId, batch, ops[..n], k) <==> KnewTipAt(s, deviceId, batch, ops, k)
    {
      KnewTipPrefix(s, deviceId, batch, ops, n, k);
    }
  }

  lemma KnewTipPrefix(s: Suite, deviceId: string, batch: nat, ops: seq<Op>, n: nat, k: nat)
    requires batch > 0 && k < n <= |ops|
    ensures KnewTipAt(s, deviceId, batch, ops[..n], k) <==> KnewTipAt(s, deviceId, batch, ops, k)
  {
    assert ops[..n][k] == ops[k] && ops[..n][..k] == ops[..k];
  }

  lemma ClaimStep(s: Suite, deviceId: string, w: World, p: Last, op: Op)
    requires IsGate(op) && Signs(w, op) && Tracked(w, p)
    ensures OneChain(s, deviceId, Gated(s, deviceId, w, op).appended) <==>
            OneChain(s, deviceId, w.appended) && TipKnown(w.lines, p)
  {
    var r := NextRecord(s, deviceId, ChainState(w.lines, w.head).value, op.call);
    var longer := w.appended + [r];
    assert longer[..|w.appended|] == w.appended;
    if OneChain(s, deviceId, w.appended) {
      NextClaimContinues(s, deviceId, w, p, op.call);
    } else if OneChain(s, deviceId, longer) {
      ChainPrefix(s, deviceId, longer, |w.appended|);
    }
  }

  lemma OtherStep(s: Suite, deviceId: string, batch: nat, w: World, op: Op)
    requires batch > 0 && !Signs(w, op)
    ensures Step(s, deviceId, batch, w, op).appended == w.appended
  {
  }

  /**
   The claims of a run form one chain 1,2,3,..., each pointing at the previous claim's hash, if and only
   if at every claim either there was none before; or the queue read something and the line of the last
   claim had not been written over or gone bad; or it read nothing and the last claim's gate had completed.
   */
  lemma {:induction false} ContiguousExactly(s: Suite, deviceId: string, batch: nat, ops: seq<Op>)
    requires batch > 0
    ensures OneChain(s, deviceId, Run(s, deviceId, batch, ops).appended) <==> AlwaysKnewTip(s, deviceId, batch, ops)
    decreases |ops|
  {
    if ops != [] {
      var n := |ops| - 1;
      var w := Run(s, deviceId, batch, ops[..n]);
      ContiguousExactly(s, deviceId, batch, ops[..n]);
      RunTracked(s, deviceId, batch, ops[..n]);
      KnewTipStep(s, deviceId, batch, ops);
      if Signs(w, ops[n]) {
        ClaimStep(s, deviceId, w, LastClaim(s, deviceId, batch, ops[..n]), ops[n]);
      } else {
        OtherStep(s, deviceId, batch, w, ops[n]);
      }
    }
  }

  /** No gate dies part way, and no line goes bad. */
  ghost predicate CrashFree(ops: seq<Op>) {
    forall i :: 0 <= i < |ops| ==> !ops[i].GateCrash? && !ops[i].GateTorn? && !ops[i].Corrupt?
  }

  lemma {:induction false} CrashFreeState(s: Suite, deviceId: string, batch: nat, ops: seq<Op>)
    requires batch > 0 && CrashFree(ops)
    ensures !Run(s, deviceId, batch, ops).open
    ensures var p := LastClaim(s, deviceId, batch, ops); p == NoClaim || p == Claimed(true, true)
    decreases |ops|
  {
    if ops != [] {
      CrashFreeState(s, deviceId, batch, ops[..|ops| - 1]);
    }
  }

  /** A run in which no gate dies part way and no line goes bad signs one contiguous chain and loses nothing. */
  lemma CrashFreeContiguous(s: Suite, deviceId: string, batch: nat, ops: seq<Op>)
    requires batch > 0 && CrashFree(ops)
    ensures AlwaysKnewTip(s, deviceId, batch, ops) && NeverSpoils(s, deviceId, batch, ops)
    ensures OneChain(s, deviceId, Run(s, deviceId, batch, ops).appended)
    ensures NothingLost(Run(s, deviceId, batch, ops))
  {
    forall k | 0 <= k < |ops|
      ensures KnewTipAt(s, deviceId, batch, ops, k)
      ensures !SpoilsAt(s, deviceId, batch, ops, k)
    {
      CrashFreeState(s, deviceId, batch, ops[..k]);
    }
    ContiguousExactly(s, deviceId, batch, ops);
    NoLoss(s, deviceId, batch, ops);
  }

  // ---------------------------------------------------------------------------------------
  // Two ways to fork
  // ---------------------------------------------------------------------------------------

  lemma RunSnoc(s: Suite, deviceId: string, batch: nat, ops: seq<Op>, op: Op)
    requires batch > 0
    ensures Run(s, deviceId, batch, ops + [op]) == Step(s, deviceId, batch, Run(s, deviceId, batch, ops), op)
  {
    assert (ops + [op])[..|ops|] == ops;
  }

  lemma FirstStep(s: Suite, deviceId: string, batch: nat, op: Op)
    requires batch > 0
    ensures Run(s, deviceId, batch, [op]) == Step(s, deviceId, batch, FRESH, op)
  {
    assert [op][..0] == [];
  }

  /** A stale head: die after the first append, drain, gate again. Two different claims are both number 1. */
  lemma StaleHeadForks(s: Suite, deviceId: string, first: Call, second: Call)
    requires first != second
    ensures var w := Run(s, deviceId, 100, [GateCrash(first, false), DrainQueue([Acknowledged]), Gate(second)]);
            && |w.appended| == 2 && w.appended[0] != w.appended[1]
            && w.appended[0].localSeq == w.appended[1].localSeq == 1
            && !OneChain(s, deviceId, w.appended)
  {
    var r1 := NextRecord(s, deviceId, (1, None), first);
    var r2 := NextRecord(s, deviceId, (1, None), second);
    FirstStep(s, deviceId, 100, GateCrash(first, false));
    RunSnoc(s, deviceId, 100, [GateCrash(first, false)], DrainQueue([Acknowledged]));
    RunSnoc(s, deviceId, 100, [GateCrash(first, false), DrainQueue([Acknowledged])], Gate(second));
    assert [GateCrash(first, false)] + [DrainQueue([Acknowledged])] ==
      [GateCrash(first, false), DrainQueue([Acknowledged])];
    assert [GateCrash(first, false), DrainQueue([Acknowledged])] + [Gate(second)] ==
      [GateCrash(first, false), DrainQueue([Acknowledged]), Gate(second)];
    var w1 := World([Entry(r1)], false, NoHead, [r1], []);
    assert Run(s, deviceId, 100, [GateCrash(first, false)]) == w1;
    DrainOne(r1);
    var w2 := World([], false, NoHead, [r1], [r1]);
    assert Step(s, deviceId, 100, w1, DrainQueue([Acknowledged])) == w2 by {
      OneLine(Entry(r1));
    }
    var w := Step(s, deviceId, 100, w2, Gate(second));
    assert w.appended == [r1, r2];
    assert CallOf(r1) != CallOf(r2);
    assert !ChainedAt(s, deviceId, w.appended, 1);
  }

  lemma DrainOne(r: Record)
    ensures Drain(100, [Entry(r)], [r], [Acknowledged]) == Drained([], [r], 1)
  {
    assert NonBlank([Entry(r)]) == [Entry(r)] by {
      assert [Entry(r)][1..] == [];
    }
    assert Dropped([Entry(r)], 1) == [];
    assert [r][1..] == [] && [r][..1] == [r];
    assert Drain(100, [], [], [Acknowledged][1..]) == Drained([], [], 0);
  }

  /**
   A torn write: with one claim queued, a second gate dies while appending, and two more complete. The first
   of those is written behind the torn line, cannot be read and never reaches the server; the second takes
   its number again.
   */
  lemma TornWriteForks(s: Suite, deviceId: string, calls: seq<Call>)
    requires |calls| == 4 && forall i, j :: 0 <= i < j < 4 ==> calls[i] != calls[j]
    ensures var ops := [Gate(calls[0]), GateTorn(calls[1], false), Gate(calls[2]), Gate(calls[3])];
            var w := Run(s, deviceId, 100, ops);
            && |w.appended| == 3 && w.appended[1] != w.appended[2]
            && w.appended[1].localSeq == w.appended[2].localSeq == 2
            && !OneChain(s, deviceId, w.appended)
            && w.appended[1] !in Readable(w.lines) && w.appended[1] !in w.accepted && !NothingLost(w)
  {
    var r1 := NextRecord(s, deviceId, (1, None), calls[0]);
    var tip := (2, Some(r1.claimHash));
    var r2, r3 := NextRecord(s, deviceId, tip, calls[2]), NextRecord(s, deviceId, tip, calls[3]);
    var ops := [Gate(calls[0]), GateTorn(calls[1], false), Gate(calls[2])];
    TornThenGate(s, deviceId, calls[0], calls[1], calls[2]);
    var w3 := Run(s, deviceId, 100, ops);
    RunSnoc(s, deviceId, 100, ops, Gate(calls[3]));
    FreshGate(s, deviceId, w3, Gate(calls[3]));
    assert ops + [Gate(calls[3])] == [Gate(calls[0]), GateTorn(calls[1], false), Gate(calls[2]), Gate(calls[3])];
    var w := Step(s, deviceId, 100, w3, Gate(calls[3]));
    assert w.appended == [r1, r2, r3] && Readable(w.lines) == [r1, r3] && w.accepted == [];
    assert CallOf(r2) != CallOf(r3) && CallOf(r2) != CallOf(r1);
    MiddleLost(s, deviceId, w, r1, r2, r3);
  }

  lemma MiddleLost(s: Suite, deviceId: string, w: World, r1: Record, r2: Record, r3: Record)
    requires w.appended == [r1, r2, r3] && Readable(w.lines) == [r1, r3] && w.accepted == []
    requires r1 != r2 && r2 != r3 && r3.localSeq == 2
    ensures !OneChain(s, deviceId, w.appended) && r2 !in Readable(w.lines) && !NothingLost(w)
  {
    assert !ChainedAt(s, deviceId, w.appended, 2);
    assert w.appended[1..][0] == r2;
  }

  lemma TornThenGate(s: Suite, deviceId: string, first: Call, torn: Call, second: Call)
    ensures var r1 := NextRecord(s, deviceId, (1, None), first);
            var r2 := NextRecord(s, deviceId, (2, Some(r1.claimHash)), second);
            var w := Run(s, deviceId, 100, [Gate(first), GateTorn(torn, false), Gate(second)]);
            && w == World([Entry(r1), Junk], false, HeadOf([r2]), [r1, r2], [])
            && Readable(w.lines) == [r1]
  {
    var ops := [Gate(first), GateTorn(torn, false)];
    TornStart(s, deviceId, first, torn);
    RunSnoc(s, deviceId, 100, ops, Gate(second));
    GluedClaim(s, deviceId, Run(s, deviceId, 100, ops), second);
    assert ops + [Gate(second)] == [Gate(first), GateTorn(torn, false), Gate(second)];
  }

  lemma TornStart(s: Suite, deviceId: string, first: Call, torn: Call)
    ensures var r := NextRecord(s, deviceId, (1, None), first);
            Run(s, deviceId, 100, [Gate(first), GateTorn(torn, false)]) ==
              World([Entry(r), Junk], true, HeadOf([r]), [r], [])
  {
    var r := NextRecord(s, deviceId, (1, None), first);
    FirstStep(s, deviceId, 100, Gate(first));
    RunSnoc(s, deviceId, 100, [Gate(first)], GateTorn(torn, false));
    assert [Gate(first)] + [GateTorn(torn, false)] == [Gate(first), GateTorn(torn, false)];
    var w := World([Entry(r)], false, HeadOf([r]), [r], []);
    assert Run(s, deviceId, 100, [Gate(first)]) == w;
    OneLine(Entry(r));
    assert Step(s, deviceId, 100, w, GateTorn(torn, false)).lines == [Entry(r), Junk];
  }

  lemma GluedClaim(s: Suite, deviceId: string, w: World, call: Call)
    requires |w.lines| == 2 && w.lines[0].Entry? && w.lines[1] == Junk && w.open
    ensures var e := w.lines[0].record;
            var r := NextRecord(s, deviceId, (e.localSeq + 1, Some(e.claimHash)), call);
            Step(s, deviceId, 100, w, Gate(call)) ==
              World(w.lines, false, HeadOf([r]), w.appended + [r], w.accepted) && Readable(w.lines) == [e]
  {
    TwoLines(w.lines[0], Junk);
    assert w.lines == [w.lines[0], Junk];
    assert w.lines[..1] + [Junk] == w.lines;
  }

  lemma TwoLines(a: Line, b: Line)
    ensures Readable([a, b]) == (if a.Entry? then [a.record] else []) + if b.Entry? then [b.record] else []
  {
    OneLine(a);
    ReadableSnoc([a], b);
    assert [a] + [b] == [a, b];
  }

  // ---------------------------------------------------------------------------------------
  // The store and the client
  // ---------------------------------------------------------------------------------------

  /** Post i carries the records from number i * batch on: a full batch, or all that is left. */
  ghost predicate PostedAt(batch: nat, queue: seq<Record>, posts: seq<seq<Record>>, i: nat)
    requires i < |posts|
  {
    var from := i * batch;
    && 0 < |posts[i]| <= batch && from + |posts[i]| <= |queue| && posts[i] == queue[from..from + |posts[i]|]
    && (|posts[i]| == batch || from + |posts[i]| == |queue|)
  }

  /** The posts cut the queue up in order, and each but the last was acknowledged. */
  ghost predicate PostedInBatches(batch: nat, queue: seq<Record>, posts: seq<seq<Record>>, outcomes: seq<Outcome>) {
    && (forall i :: 0 <= i < |posts| ==> PostedAt(batch, queue, posts, i))
    && (forall i :: 0 <= i < |posts| - 1 ==>
          |posts[i]| == batch && i < |outcomes| && outcomes[i].Acknowledged?)
  }

  /** The posts a drain of `pending` makes: one chunk after the other while they are acknowledged. */
  function Posts(batch: nat, pending: seq<Record>, outcomes: seq<Outcome>): seq<seq<Record>>
    requires batch > 0
    decreases |pending|
  {
    if pending == [] then []
    else
      var n := ChunkSize(batch, |pending|);
      [pending[..n]] + if outcomes != [] && outcomes[0].Acknowledged? then Posts(batch, pending[n..], outcomes[1..])
                       else []
  }

  /** Every post is a full batch of the queue in its turn, or all that is left of it. */
  lemma {:induction false} DrainPostsBatches(batch: nat, queue: seq<Record>, outcomes: seq<Outcome>)
    requires batch > 0
    ensures PostedInBatches(batch, queue, Posts(batch, queue, outcomes), outcomes)
    ensures queue != [] ==> Posts(batch, queue, outcomes) != []
    decreases |queue|
  {
    if queue != [] {
      var n := ChunkSize(batch, |queue|);
      var posts := Posts(batch, queue, outcomes);
      if outcomes != [] && outcomes[0].Acknowledged? {
        DrainPostsBatches(batch, queue[n..], outcomes[1..]);
        var later := Posts(batch, queue[n..], outcomes[1..]);
        forall i | 0 <= i < |posts|
          ensures PostedAt(batch, queue, posts, i)
          ensures i < |posts| - 1 ==> |posts[i]| == batch && i < |outcomes| && outcomes[i].Acknowledged?
        {
          if i > 0 {
            PostShifts(batch, queue, later, i - 1);
          }
        }
      }
    }
  }

  /** A post from the rest of the queue is a post from the queue, one batch further on. */
  lemma PostShifts(batch: nat, queue: seq<Record>, later: seq<seq<Record>>, i: nat)
    requires 0 < batch <= |queue| && i < |later| && PostedAt(batch, queue[batch..], later, i)
    ensures forall first :: PostedAt(batch, queue, [first] + later, i + 1)
  {
    assert (i + 1) * batch == i * batch + batch;
    forall first: seq<Record>
      ensures PostedAt(batch, queue, [first] + later, i + 1)
    {
      assert ([first] + later)[i + 1] == later[i];
    }
  }

  /** One state directory. `open` is what a write cut short leaves behind. */
  class OfflineStore {
    const s: Suite
    var lines: seq<Line>
    var open: bool
    var head: HeadFile

    constructor (s: Suite)
      ensures this.s == s && lines == [] && !open && head == NoHead
    {
      this.s := s;
      lines, open, head := [], false, NoHead;
    }

    /** Written in append mode, wherever the file ends. */
    method Append(record: Record)
      modifies this`lines, this`open
      ensures lines == Put(s, old(lines), old(open), Entry(record)) && !open
    {
      if open && lines != [] {
        lines := lines[|lines| - 1 := Glued(s, lines[|lines| - 1])];
      } else {
        lines := lines + [Entry(record)];
      }
      open := false;
    }

    method ReadAll() returns (out: seq<Record>)
      ensures out == Readable(lines)
    {
      out := [];
      for i := 0 to |lines|
        invariant out + Readable(lines[i..]) == Readable(lines)
      {
        assert lines[i..][1..] == lines[i + 1..];
        if lines[i].Entry? {
          Regroup(out, [lines[i].record], Readable(lines[i + 1..]));
          out := out + [lines[i].record];
        }
      }
    }

    /** The rest is written out again with every line terminated. */
    method Drop(count: int)
      modifies this`lines, this`open
      ensures lines == Dropped(old(lines), count) && open == (old(open) && count <= 0)
    {
      if count <= 0 {
        return;
      }
      var kept := NonBlank(lines);
      lines, open := if count <= |kept| then kept[count..] else [], false;
    }

    /** None stands for the exception an unparsable chain.json raises. */
    method ReadChainState() returns (tip: Option<(int, Option<Digest>)>)
      ensures tip == ChainState(lines, head)
    {
      var records := ReadAll();
      if records != [] {
        var last := records[|records| - 1];
        return Some((last.localSeq + 1, Some(last.claimHash)));
      }
      match head
      case NoHead => return Some((1, None));
      case Head(nextSeq, prevLocal) => return Some((nextSeq, prevLocal));
      case Broken => return None;
    }

    method RememberHead(nextSeq: int, prevLocal: Option<Digest>)
      modifies this`head
      ensures head == Head(nextSeq, prevLocal)
    {
      head := Head(nextSeq, prevLocal);
    }
  }

  /** What came of posting one output to the server. */
  datatype Reply = Answered | Misconfigured | Failed

  datatype GateResult = FromServer | ConfigurationProblem | Provisional | NotRecorded | Raised

  class AttestClient {
    const s: Suite
    const deviceId: string
    const offlineEnabled: bool
    const store: OfflineStore

    constructor (deviceId: string, offlineEnabled: bool, store: OfflineStore)
      ensures this.s == store.s && this.deviceId == deviceId && this.offlineEnabled == offlineEnabled
      ensures this.store == store
    {
      this.s, this.deviceId, this.offlineEnabled, this.store := store.s, deviceId, offlineEnabled, store;
    }

    ghost function WorldWith(appended: seq<Record>, accepted: seq<Record>): World
      reads store
    {
      World(store.lines, store.open, store.head, appended, accepted)
    }

    /**
     Judge locally, sign the next claim, queue it, remember the head. `judged` is the local status, None when
     judging from the cached rules raises (`Verdicts.SdkAnswer`). None is returned then, and when chain.json
     cannot be read.
     */
    method GateOffline(call: Call, judged: Option<string>, ghost appended: seq<Record>, ghost accepted: seq<Record>)
      returns (record: Option<Record>)
      requires store.s == s
      modifies store
      ensures record.Some? <==> judged.Some? && ChainState(old(store.lines), old(store.head)).Some?
      ensures record.None? ==> WorldWith(appended, accepted) == old(WorldWith(appended, accepted))
      ensures record.Some? ==>
        var r := record.value;
        && r.action == call.action && r.output == call.output && r.occurredAt == call.occurredAt
        && r.traceId == call.traceId && Some(r.localStatus) == judged && r.payloadHash == s.hashPayload(call.output)
        && r.claimHash == s.hashClaim(Claim(deviceId, r.localSeq, if r.prevLocal == None then "" else r.prevLocal.value,
                                            call.occurredAt, call.action, r.payloadHash))
        && r.clientSignature == s.sign(r.claimHash)
        && store.head == Head(r.localSeq + 1, Some(r.claimHash))
      ensures record.Some? ==>
              WorldWith(appended + [record.value], accepted) ==
              Step(s, deviceId, 100, old(WorldWith(appended, accepted)), Op.Gate(call.(status := judged.value)))
    {
      if judged.None? {
        return None;
      }
      var tip := store.ReadChainState();
      if tip.None? {
        return None;
      }
      var (localSeq, prevLocal) := tip.value;
      var payloadHash := s.hashPayload(call.output);
      var claim := BuildOfflineClaim(deviceId, localSeq, prevLocal, call.occurredAt, call.action, payloadHash);
      var claimHash := s.hashClaim(claim);
      var r := Record(call.action, call.output, call.occurredAt, localSeq, prevLocal, payloadHash,
                      s.sign(claimHash), claimHash, call.traceId, judged.value);
      store.Append(r);
      store.RememberHead(localSeq + 1, Some(claimHash));
      return Some(r);
    }

    /** `outcomes` are the replies the posts would get, in order; none left means unreachable. */
    method DrainOffline(batch: nat, outcomes: seq<Outcome>)
      returns (sent: nat, accepted: seq<Record>, ghost posts: seq<seq<Record>>)
      requires batch > 0
      modifies store`lines, store`open
      ensures posts == if offlineEnabled then Posts(batch, Readable(old(store.lines)), outcomes) else []
      ensures offlineEnabled ==>
        Drained(store.lines, accepted, sent) == Drain(batch, old(store.lines), Readable(old(store.lines)), outcomes)
      ensures store.open == (old(store.open) && sent == 0)
      ensures !offlineEnabled ==> store.lines == old(store.lines) && sent == 0 && accepted == []
    {
      sent, accepted, posts := 0, [], [];
      if !offlineEnabled {
        return;
      }
      var pending := store.ReadAll();
      ghost var queue := pending;
      ghost var whole := Drain(batch, store.lines, pending, outcomes);
      var replies := outcomes;
      while pending != []
        invariant var d := Drain(batch, store.lines, pending, replies);
                  whole == Drained(d.lines, accepted + d.accepted, sent + d.sent)
        invariant store.open == (old(store.open) && sent == 0)
        invariant posts + Posts(batch, pending, replies) == Posts(batch, queue, outcomes)
        decreases |pending|
      {
        var n := ChunkSize(batch, |pending|);
        var chunk := pending[..n];
        ghost var more := replies != [] && replies[0].Acknowledged?;
        Regroup(posts, [chunk], if more then Posts(batch, pending[n..], replies[1..]) else []);
        posts := posts + [chunk];
        pending := pending[n..];
        if replies == [] || replies[0].Unreachable? || replies[0].Rejected? {
          break;
        }
        if replies[0].ReplyLost? {
          accepted := accepted + chunk;
          break;
        }
        ghost var rest := Drain(batch, Dropped(store.lines, |chunk|), pending, replies[1..]);
        Regroup(accepted, chunk, rest.accepted);
        accepted := accepted + chunk;
        store.Drop(|chunk|);
        sent := sent + |chunk|;
        replies := replies[1..];
      }
      assert accepted + [] == accepted;
    }

    /** With offline mode on, this output would be queued if it could be judged and the chain's tip read. */
    ghost predicate WouldQueue(remediates: Option<int>, raiseOnError: bool, reply: Reply) {
      reply.Failed? && !raiseOnError && remediates.None? && offlineEnabled
    }

    /**
     Only a plain outage of an ordinary output is buffered; remediations and setup problems never are. Asked not
     to raise, the call raises all the same exactly when such an output cannot be judged from the cached rules or
     the tip of the chain cannot be read.
     */
    method GateOutput(call: Call, remediates: Option<int>, raiseOnError: bool, reply: Reply, judged: Option<string>,
                      drain: seq<Outcome>, ghost appended: seq<Record>, ghost accepted: seq<Record>)
      returns (r: GateResult, buffered: Option<Record>, handedOver: seq<Record>)
      requires store.s == s
      modifies store
      ensures buffered.Some? <==>
        && WouldQueue(remediates, raiseOnError, reply) && judged.Some?
        && ChainState(old(store.lines), old(store.head)).Some?
      ensures r == Raised <==>
        if raiseOnError then !reply.Answered?
        else WouldQueue(remediates, raiseOnError, reply)
             && (judged.None? || ChainState(old(store.lines), old(store.head)).None?)
      ensures (r == FromServer <==> reply.Answered?) && (r == Provisional <==> buffered.Some?)
      ensures r == ConfigurationProblem <==> reply.Misconfigured? && !raiseOnError
      ensures r == NotRecorded <==> reply.Failed? && !raiseOnError && (remediates.Some? || !offlineEnabled)
      ensures buffered.Some? ==>
        && handedOver == []
        && WorldWith(appended + [buffered.value], accepted) ==
           Step(s, deviceId, 100, old(WorldWith(appended, accepted)), Op.Gate(call.(status := judged.value)))
      ensures buffered.None? && !(reply.Answered? && offlineEnabled) ==>
        WorldWith(appended, accepted) == old(WorldWith(appended, accepted)) && handedOver == []
      ensures reply.Answered? && offlineEnabled ==>
        && WorldWith(appended, accepted + handedOver) ==
           Step(s, deviceId, 100, old(WorldWith(appended, accepted)), DrainQueue(drain))
    {
      buffered, handedOver := None, [];
      match reply
      case Misconfigured =>
        r := if raiseOnError then Raised else ConfigurationProblem;
      case Failed =>
        if raiseOnError {
          r := Raised;
        } else if remediates.Some? || !offlineEnabled {
          r := NotRecorded;
        } else {
          buffered := GateOffline(call, judged, appended, accepted);
          r := if buffered.Some? then Provisional else Raised;
        }
      case Answered =>
        var sent, taken, posts := DrainOffline(100, drain);
        r, handedOver := FromServer, taken;
    }
  }
}
