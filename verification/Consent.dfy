/**
 Consent-gated access (app/services/access_review.py, consent_events.py, payload_store.py).

 Payload encryption opens under one content key; wrapping a content key to a public key is a
 parameter. Recording a consent event may fail, and then the whole action is undone.
 */
module Consent {
  import opened Prelude

  type Hash = string
  type RecordId = (string, Hash)

  /** Key wrapping: `unwrap` is None when the private key does not fit. */
  datatype Wrapping = Wrapping(
    publicOf: string -> string,
    wrap: (string, string) -> string,
    unwrap: (string, string) -> Option<string>)

  datatype Status = Pending | Approved | Denied | Revoked

  /** Consent-trail events, as passed to the recorder; sorted lists of distinct hashes are sets. */
  datatype Event =
    | Filed(requestedBy: string, reason: string, scope: set<Hash>, required: int, expiresAt: int)
    | Approval(approver: string, approvals: nat, required: int, released: set<Hash>, statusAfter: Status)
    | Resolution(statusBefore: Status, statusAfter: Status)
    | AccessRead(payloadHash: Hash)

  /** `grants` has one row per record in scope, holding its released key if any; `trail` is None for
      requests older than the trail. */
  datatype Request = Request(
    org: string, status: Status, required: int, granteePrivate: string, expiresAt: int,
    grants: map<Hash, Option<string>>, approvers: seq<string>, trail: Option<seq<Event>>)

  datatype Payload = Payload(content: string, contentKey: string, supported: bool, erased: bool)

  datatype KeyRow = KeyRow(key: string, wrapped: bool)

  /** `readLog` is the history of grant reads that returned content. */
  datatype Desk = Desk(
    requests: seq<Request>, payloads: map<RecordId, Payload>, keys: map<RecordId, KeyRow>,
    readLog: seq<(nat, Hash)>)

  const EMPTY := Desk([], map[], map[], [])

  // ---------------------------------------------------------------------------------------
  // Reads
  // ---------------------------------------------------------------------------------------

  function Decrypt(p: Payload, key: string): Option<string> {
    if key == p.contentKey then Some(p.content) else None
  }

  /** What a read through a grant would return. */
  function GrantContent(w: Wrapping, d: Desk, id: nat, hash: Hash, now: int): Option<string> {
    if id >= |d.requests| || d.requests[id].status != Approved then None
    else
      var r := d.requests[id];
      if r.expiresAt <= now then None
      else if hash !in r.grants || r.grants[hash].None? then None
      else
        var key := w.unwrap(r.granteePrivate, r.grants[hash].value);
        if key.None? then None
        else if (r.org, hash) !in d.payloads || d.payloads[(r.org, hash)].erased then None
        else Decrypt(d.payloads[(r.org, hash)], key.value)
  }

  /** What Attest can read on its own, without any grant. */
  function PlainContent(d: Desk, id: RecordId): Option<string> {
    if id !in d.payloads || d.payloads[id].erased || !d.payloads[id].supported then None
    else if id !in d.keys || d.keys[id].wrapped then None
    else Decrypt(d.payloads[id], d.keys[id].key)
  }

  // ---------------------------------------------------------------------------------------
  // Operations
  // ---------------------------------------------------------------------------------------

  function Noted(r: Request, e: Event): Request {
    if r.trail.None? then r else r.(trail := Some(r.trail.value + [e]))
  }

  predicate NoDuplicates(scope: seq<Hash>) {
    forall i, j :: 0 <= i < j < |scope| ==> scope[i] != scope[j]
  }

  datatype Filing = Filing(
    org: string, requestedBy: string, reason: string, scope: seq<Hash>, required: int, ttl: int,
    granteePrivate: string, now: int, predatesTrail: bool)

  function NewRequest(f: Filing): Request {
    var scope := set i | 0 <= i < |f.scope| :: f.scope[i];
    var r := Request(f.org, Pending, Max(1, f.required), f.granteePrivate, f.now + f.ttl,
                     map h | h in scope :: None, [], if f.predatesTrail then None else Some([]));
    Noted(r, Filed(f.requestedBy, f.reason, scope, r.required, r.expiresAt))
  }

  /** Keys the org's private key opens, re-wrapped to the grantee. */
  function Regranted(w: Wrapping, keys: map<RecordId, KeyRow>, r: Request, orgPrivate: string): map<Hash, string> {
    map h | h in r.grants && (r.org, h) in keys && keys[(r.org, h)].wrapped
            && w.unwrap(orgPrivate, keys[(r.org, h)].key).Some?
      :: w.wrap(w.publicOf(r.granteePrivate), w.unwrap(orgPrivate, keys[(r.org, h)].key).value)
  }

  function Released(grants: map<Hash, Option<string>>, keys: map<Hash, string>): map<Hash, Option<string>> {
    map h | h in grants :: if h in keys then Some(keys[h]) else grants[h]
  }

  predicate AllReleased(grants: map<Hash, Option<string>>) {
    forall h :: h in grants ==> grants[h].Some?
  }

  predicate CanApprove(r: Request, approver: string) {
    r.status == Pending && approver !in r.approvers
  }

  /** Approval with the org key at hand: keys are released when the threshold is reached. */
  function ApprovedHere(w: Wrapping, keys: map<RecordId, KeyRow>, r: Request, approver: string,
                        orgPrivate: string): Request
  {
    var count := |r.approvers| + 1;
    var released := if count >= r.required then Regranted(w, keys, r, orgPrivate) else map[];
    var r' := r.(approvers := r.approvers + [approver], grants := Released(r.grants, released),
                 status := if count >= r.required then Approved else r.status);
    Noted(r', Approval(approver, count, r.required, released.Keys, r'.status))
  }

  /** Approval with keys the client re-wrapped: keys are stored at once, approval waits for all of them. */
  function ApprovedByClient(r: Request, approver: string, posted: map<Hash, string>): Request {
    var count := |r.approvers| + 1;
    var released := map h | h in posted && h in r.grants :: posted[h];
    var grants := Released(r.grants, released);
    var r' := r.(approvers := r.approvers + [approver], grants := grants,
                 status := if count >= r.required && AllReleased(grants) then Approved else r.status);
    Noted(r', Approval(approver, count, r.required, released.Keys, r'.status))
  }

  datatype Op =
    | File(filing: Filing)
    | Approve(id: nat, approver: string, orgPrivate: string)
    | ClientApprove(id: nat, approver: string, posted: map<Hash, string>)
    | Resolve(id: nat, status: Status)
    | ReadVia(id: nat, hash: Hash, now: int)
    | Store(record: RecordId, content: string, contentKey: string, orgPublic: Option<string>)
    | Erase(record: RecordId)

  function SetRequest(d: Desk, id: nat, r: Request): Desk
    requires id < |d.requests|
  {
    d.(requests := d.requests[id := r])
  }

  /** One operation whose consent event, if any, could be recorded. */
  function Step(w: Wrapping, d: Desk, op: Op): Desk {
    match op
    case File(f) => if NoDuplicates(f.scope) then d.(requests := d.requests + [NewRequest(f)]) else d
    case Approve(id, approver, orgPrivate) =>
      if id < |d.requests| && CanApprove(d.requests[id], approver)
      then SetRequest(d, id, ApprovedHere(w, d.keys, d.requests[id], approver, orgPrivate)) else d
    case ClientApprove(id, approver, posted) =>
      if id < |d.requests| && CanApprove(d.requests[id], approver)
      then SetRequest(d, id, ApprovedByClient(d.requests[id], approver, posted)) else d
    case Resolve(id, status) =>
      if id < |d.requests| && (status == Denied || status == Revoked) && d.requests[id].status != status
      then SetRequest(d, id, Noted(d.requests[id].(status := status), Resolution(d.requests[id].status, status))) else d
    case ReadVia(id, hash, now) =>
      if GrantContent(w, d, id, hash, now).Some?
      then SetRequest(d, id, Noted(d.requests[id], AccessRead(hash))).(readLog := d.readLog + [(id, hash)]) else d
    case Store(record, content, contentKey, orgPublic) =>
      if record in d.payloads then d
      else d.(payloads := d.payloads[record := Payload(content, contentKey, true, false)],
              keys := d.keys[record := if orgPublic.Some? then KeyRow(w.wrap(orgPublic.value, contentKey), true)
                                       else KeyRow(contentKey, false)])
    case Erase(record) =>
      if record !in d.keys then d
      else d.(keys := d.keys - {record},
              payloads := if record in d.payloads then d.payloads[record := d.payloads[record].(erased := true)]
                          else d.payloads)
  }

  /** Fail closed: if the consent event cannot be recorded, nothing happened. */
  function Attempt(w: Wrapping, d: Desk, op: Op, recorded: bool): Desk {
    if recorded then Step(w, d, op) else d
  }

  function Run(w: Wrapping, d: Desk, ops: seq<(Op, bool)>): Desk {
    if ops == [] then d
    else Attempt(w, Run(w, d, ops[..|ops| - 1]), ops[|ops| - 1].0, ops[|ops| - 1].1)
  }

  // ---------------------------------------------------------------------------------------
  // The trail
  // ---------------------------------------------------------------------------------------

  /** What an auditor rebuilds from a trail; `consistent` says each event's own figures fit the story. */
  datatype Summary = Summary(
    scope: set<Hash>, required: int, expiresAt: int, status: Status, approvers: seq<string>, released: set<Hash>,
    shown: seq<Hash>, consistent: bool)

  function Told(s: Summary, e: Event): Summary {
    match e
    case Filed(_, _, scope, required, expiresAt) => Summary(scope, required, expiresAt, Pending, [], {}, [], true)
    case Approval(approver, n, required, released, status) =>
      s.(approvers := s.approvers + [approver], status := status, released := s.released + released,
         consistent := s.consistent && n == |s.approvers| + 1 && required == s.required && s.status == Pending
                       && released <= s.scope && (status == Approved ==> n >= required))
    case Resolution(before, after) =>
      s.(status := after, consistent := s.consistent && before == s.status && before != after)
    case AccessRead(h) =>
      s.(shown := s.shown + [h], consistent := s.consistent && s.status == Approved && h in s.released)
  }

  function Story(trail: seq<Event>): Summary {
    if trail == [] then Summary({}, 0, 0, Pending, [], {}, [], false)
    else Told(Story(trail[..|trail| - 1]), trail[|trail| - 1])
  }

  /** The records read through one request, in order. */
  function ReadsOf(readLog: seq<(nat, Hash)>, id: nat): seq<Hash> {
    if readLog == [] then []
    else
      var last := readLog[|readLog| - 1];
      ReadsOf(readLog[..|readLog| - 1], id) + if last.0 == id then [last.1] else []
  }

  function ReleasedSet(grants: map<Hash, Option<string>>): set<Hash> {
    set h | h in grants && grants[h].Some?
  }

  // ---------------------------------------------------------------------------------------
  // The invariant
  // ---------------------------------------------------------------------------------------

  /** Approvers are distinct, and an approved request has enough of them. */
  ghost predicate RequestOk(r: Request) {
    && r.required >= 1
    && (forall i, j :: 0 <= i < j < |r.approvers| ==> r.approvers[i] != r.approvers[j])
    && (r.status == Approved ==> |r.approvers| >= r.required)
  }

  ghost predicate TrailOk(r: Request, shown: seq<Hash>) {
    r.trail.Some? ==>
      && r.trail.value != []
      && Story(r.trail.value) == Summary(r.grants.Keys, r.required, r.expiresAt, r.status, r.approvers,
                                         ReleasedSet(r.grants), shown, true)
  }

  ghost predicate Inv(d: Desk) {
    && (forall i :: 0 <= i < |d.requests| ==> RequestOk(d.requests[i]) && TrailOk(d.requests[i], ReadsOf(d.readLog, i)))
    && (forall k :: 0 <= k < |d.readLog| ==> d.readLog[k].0 < |d.requests|)
    && d.keys.Keys <= d.payloads.Keys
    && (forall id :: id in d.payloads && d.payloads[id].erased ==> id !in d.keys)
  }

  lemma StoryGrows(trail: seq<Event>, e: Event)
    ensures Story(trail + [e]) == Told(Story(trail), e)
  {
    assert (trail + [e])[..|trail|] == trail;
  }

  lemma {:induction false} NoReadsYet(readLog: seq<(nat, Hash)>, id: nat)
    requires forall k :: 0 <= k < |readLog| ==> readLog[k].0 < id
    ensures ReadsOf(readLog, id) == []
  {
    if readLog != [] {
      NoReadsYet(readLog[..|readLog| - 1], id);
    }
  }

  lemma NewRequestOk(f: Filing)
    requires NoDuplicates(f.scope)
    ensures RequestOk(NewRequest(f)) && TrailOk(NewRequest(f), [])
  {
    var r := NewRequest(f);
    if r.trail.Some? {
      var scope := set i | 0 <= i < |f.scope| :: f.scope[i];
      assert r.trail.value == [Filed(f.requestedBy, f.reason, scope, r.required, r.expiresAt)];
      assert r.grants.Keys == scope;
      assert ReleasedSet(r.grants) == {};
    }
  }

  lemma ReleasedGrows(grants: map<Hash, Option<string>>, keys: map<Hash, string>)
    requires keys.Keys <= grants.Keys
    ensures Released(grants, keys).Keys == grants.Keys
    ensures ReleasedSet(Released(grants, keys)) == ReleasedSet(grants) + keys.Keys
  {
  }

  lemma ApprovalOk(r: Request, r': Request, approver: string, keys: map<Hash, string>, shown: seq<Hash>)
    requires RequestOk(r) && TrailOk(r, shown) && CanApprove(r, approver) && keys.Keys <= r.grants.Keys
    requires r'.status == Pending || (r'.status == Approved && |r.approvers| + 1 >= r.required)
    requires var e := Approval(approver, |r.approvers| + 1, r.required, keys.Keys, r'.status);
             var noted := r.(approvers := r.approvers + [approver], grants := Released(r.grants, keys),
                             status := r'.status);
             r' == Noted(noted, e)
    ensures RequestOk(r') && TrailOk(r', shown)
  {
    ReleasedGrows(r.grants, keys);
    if r.trail.Some? {
      StoryGrows(r.trail.value, Approval(approver, |r.approvers| + 1, r.required, keys.Keys, r'.status));
    }
  }

  lemma ApprovedHereOk(w: Wrapping, keys: map<RecordId, KeyRow>, r: Request, approver: string, orgPrivate: string,
                       shown: seq<Hash>)
    requires RequestOk(r) && TrailOk(r, shown) && CanApprove(r, approver)
    ensures var r' := ApprovedHere(w, keys, r, approver, orgPrivate); RequestOk(r') && TrailOk(r', shown)
  {
    var released := if |r.approvers| + 1 >= r.required then Regranted(w, keys, r, orgPrivate) else map[];
    ApprovalOk(r, ApprovedHere(w, keys, r, approver, orgPrivate), approver, released, shown);
  }

  lemma ApprovedByClientOk(r: Request, approver: string, posted: map<Hash, string>, shown: seq<Hash>)
    requires RequestOk(r) && TrailOk(r, shown) && CanApprove(r, approver)
    ensures var r' := ApprovedByClient(r, approver, posted); RequestOk(r') && TrailOk(r', shown)
  {
    var released := map h | h in posted && h in r.grants :: posted[h];
    ApprovalOk(r, ApprovedByClient(r, approver, posted), approver, released, shown);
  }

  lemma ResolvedOk(r: Request, status: Status, shown: seq<Hash>)
    requires RequestOk(r) && TrailOk(r, shown) && (status == Denied || status == Revoked) && r.status != status
    ensures var r' := Noted(r.(status := status), Resolution(r.status, status)); RequestOk(r') && TrailOk(r', shown)
  {
    if r.trail.Some? {
      StoryGrows(r.trail.value, Resolution(r.status, status));
    }
  }

  lemma ReadOk(r: Request, hash: Hash, shown: seq<Hash>)
    requires RequestOk(r) && TrailOk(r, shown) && r.status == Approved && hash in r.grants && r.grants[hash].Some?
    ensures var r' := Noted(r, AccessRead(hash)); RequestOk(r') && TrailOk(r', shown + [hash])
  {
    if r.trail.Some? {
      StoryGrows(r.trail.value, AccessRead(hash));
    }
  }

  lemma ReplaceKeepsInv(d: Desk, id: nat, r: Request)
    requires Inv(d) && id < |d.requests| && RequestOk(r) && TrailOk(r, ReadsOf(d.readLog, id))
    ensures Inv(SetRequest(d, id, r))
  {
  }

  lemma ReadKeepsInv(d: Desk, id: nat, hash: Hash)
    requires Inv(d) && id < |d.requests| && d.requests[id].status == Approved
    requires hash in d.requests[id].grants && d.requests[id].grants[hash].Some?
    ensures Inv(SetRequest(d, id, Noted(d.requests[id], AccessRead(hash))).(readLog := d.readLog + [(id, hash)]))
  {
    var r, log := Noted(d.requests[id], AccessRead(hash)), d.readLog + [(id, hash)];
    forall i | 0 <= i < |d.requests|
      ensures RequestOk(d.requests[id := r][i]) && TrailOk(d.requests[id := r][i], ReadsOf(log, i))
    {
      OneMoreRead(d.readLog, (id, hash), i);
      if i == id {
        ReadOk(d.requests[id], hash, ReadsOf(d.readLog, id));
      }
    }
  }

  lemma OneMoreRead(readLog: seq<(nat, Hash)>, read: (nat, Hash), id: nat)
    ensures ReadsOf(readLog + [read], id) == ReadsOf(readLog, id) + if read.0 == id then [read.1] else []
  {
    assert (readLog + [read])[..|readLog|] == readLog;
  }

  lemma FileKeepsInv(d: Desk, f: Filing)
    requires Inv(d) && NoDuplicates(f.scope)
    ensures Inv(d.(requests := d.requests + [NewRequest(f)]))
  {
    NewRequestOk(f);
    NoReadsYet(d.readLog, |d.requests|);
  }

  lemma StorageKeepsInv(w: Wrapping, d: Desk, op: Op)
    requires Inv(d) && (op.Store? || op.Erase?)
    ensures Inv(Step(w, d, op))
  {
  }

  lemma {:induction false} StepKeepsInv(w: Wrapping, d: Desk, op: Op)
    requires Inv(d)
    ensures Inv(Step(w, d, op))
  {
    match op
    case File(f) =>
      if NoDuplicates(f.scope) {
        FileKeepsInv(d, f);
      }
    case Approve(id, approver, orgPrivate) =>
      if id < |d.requests| && CanApprove(d.requests[id], approver) {
        ApprovedHereOk(w, d.keys, d.requests[id], approver, orgPrivate, ReadsOf(d.readLog, id));
        ReplaceKeepsInv(d, id, ApprovedHere(w, d.keys, d.requests[id], approver, orgPrivate));
      }
    case ClientApprove(id, approver, posted) =>
      if id < |d.requests| && CanApprove(d.requests[id], approver) {
        ApprovedByClientOk(d.requests[id], approver, posted, ReadsOf(d.readLog, id));
        ReplaceKeepsInv(d, id, ApprovedByClient(d.requests[id], approver, posted));
      }
    case Resolve(id, status) =>
      if id < |d.requests| && (status == Denied || status == Revoked) && d.requests[id].status != status {
        ResolvedOk(d.requests[id], status, ReadsOf(d.readLog, id));
        ReplaceKeepsInv(d, id, Noted(d.requests[id].(status := status), Resolution(d.requests[id].status, status)));
      }
    case ReadVia(id, hash, now) =>
      if GrantContent(w, d, id, hash, now).Some? {
        ReadKeepsInv(d, id, hash);
      }
    case Store(_, _, _, _) => StorageKeepsInv(w, d, op);
    case Erase(_) => StorageKeepsInv(w, d, op);
  }

  lemma {:induction false} RunKeepsInv(w: Wrapping, d: Desk, ops: seq<(Op, bool)>)
    requires Inv(d)
    ensures Inv(Run(w, d, ops))
    decreases |ops|
  {
    if ops != [] {
      RunKeepsInv(w, d, ops[..|ops| - 1]);
      StepKeepsInv(w, Run(w, d, ops[..|ops| - 1]), ops[|ops| - 1].0);
    }
  }

  // ---------------------------------------------------------------------------------------
  // Consent safety
  // ---------------------------------------------------------------------------------------

  /** Content comes back through a grant only with M distinct approvals, in time, in scope, key released. */
  lemma ReadNeedsConsent(w: Wrapping, ops: seq<(Op, bool)>, id: nat, hash: Hash, now: int)
    ensures var d := Run(w, EMPTY, ops);
            GrantContent(w, d, id, hash, now).Some? ==>
              && id < |d.requests|
              && var r := d.requests[id];
                 && r.status == Approved && now < r.expiresAt
                 && 1 <= r.required <= |r.approvers|
                 && (forall i, j :: 0 <= i < j < |r.approvers| ==> r.approvers[i] != r.approvers[j])
                 && hash in r.grants && r.grants[hash].Some?
                 && (r.org, hash) in d.payloads && !d.payloads[(r.org, hash)].erased
                 && GrantContent(w, d, id, hash, now).value == d.payloads[(r.org, hash)].content
  {
    RunKeepsInv(w, EMPTY, ops);
  }

  /**
   Content comes back exactly when the request is approved and in time, a key was released for the record, the
   grantee's private key opens it, the payload is there and not erased, and the key is the one it was stored under.
   */
  lemma GrantReadsExactly(w: Wrapping, d: Desk, id: nat, hash: Hash, now: int)
    ensures GrantContent(w, d, id, hash, now).Some? <==>
            && id < |d.requests|
            && var r := d.requests[id];
               && r.status == Approved && now < r.expiresAt && hash in r.grants && r.grants[hash].Some?
               && (r.org, hash) in d.payloads && !d.payloads[(r.org, hash)].erased
               && w.unwrap(r.granteePrivate, r.grants[hash].value) == Some(d.payloads[(r.org, hash)].contentKey)
  {
  }

  ghost predicate Closed(d: Desk, id: nat) {
    id < |d.requests| && (d.requests[id].status == Denied || d.requests[id].status == Revoked)
  }

  lemma {:induction false} StaysClosed(w: Wrapping, d: Desk, id: nat, ops: seq<(Op, bool)>)
    requires Closed(d, id)
    ensures Closed(Run(w, d, ops), id)
    decreases |ops|
  {
    if ops != [] {
      StaysClosed(w, d, id, ops[..|ops| - 1]);
    }
  }

  /** After denial or revocation, no later read through that request succeeds, whatever happens next. */
  lemma NoReadAfterClosing(w: Wrapping, d: Desk, id: nat, status: Status, ops: seq<(Op, bool)>, hash: Hash, now: int)
    requires id < |d.requests| && (status == Denied || status == Revoked)
    ensures GrantContent(w, Run(w, Step(w, d, Resolve(id, status)), ops), id, hash, now).None?
  {
    StaysClosed(w, Step(w, d, Resolve(id, status)), id, ops);
  }

  ghost predicate Gone(d: Desk, record: RecordId) {
    record in d.payloads && d.payloads[record].erased
  }

  lemma {:induction false} StaysGone(w: Wrapping, d: Desk, record: RecordId, ops: seq<(Op, bool)>)
    requires Gone(d, record)
    ensures Gone(Run(w, d, ops), record)
    decreases |ops|
  {
    if ops != [] {
      StaysGone(w, d, record, ops[..|ops| - 1]);
    }
  }

  /**
   After erasure no read by any path ever succeeds again, through requests old or new, although grant
   rows keep their wrapped keys and the same content may be recorded again.
   */
  lemma NoReadAfterErasure(w: Wrapping, before: seq<(Op, bool)>, record: RecordId, after: seq<(Op, bool)>, id: nat,
                           now: int)
    requires record in Run(w, EMPTY, before).keys
    ensures var erased := Step(w, Run(w, EMPTY, before), Erase(record));
            var d := Run(w, erased, after);
            && erased.requests == Run(w, EMPTY, before).requests
            && PlainContent(d, record).None?
            && (id < |d.requests| && d.requests[id].org == record.0 ==> GrantContent(w, d, id, record.1, now).None?)
  {
    RunKeepsInv(w, EMPTY, before);
    StaysGone(w, Step(w, Run(w, EMPTY, before), Erase(record)), record, after);
  }

  // ---------------------------------------------------------------------------------------
  // The trail is sufficient
  // ---------------------------------------------------------------------------------------

  /**
   For every request with a trail, in every reachable state, the trail alone rebuilds scope, threshold, expiry,
   status, approvers, the released records and the records whose content was returned, in order.
   */
  lemma {:induction false} TrailSufficient(w: Wrapping, ops: seq<(Op, bool)>, id: nat)
    requires id < |Run(w, EMPTY, ops).requests| && Run(w, EMPTY, ops).requests[id].trail.Some?
    ensures var d := Run(w, EMPTY, ops);
            var r := d.requests[id];
            Story(r.trail.value) ==
              Summary(r.grants.Keys, r.required, r.expiresAt, r.status, r.approvers, ReleasedSet(r.grants),
                      ReadsOf(d.readLog, id), true)
  {
    RunKeepsInv(w, EMPTY, ops);
  }

  /**
   Once this approver's click cannot count, it never will again: requests do not reopen, approvals are not
   withdrawn.
   */
  ghost predicate Spent(d: Desk, id: nat, approver: string) {
    id < |d.requests| && !CanApprove(d.requests[id], approver)
  }

  lemma StepStaysSpent(w: Wrapping, d: Desk, op: Op, id: nat, approver: string)
    requires Spent(d, id, approver)
    ensures Spent(Step(w, d, op), id, approver)
  {
  }

  lemma {:induction false} StaysSpent(w: Wrapping, d: Desk, ops: seq<(Op, bool)>, id: nat, approver: string)
    requires Spent(d, id, approver)
    ensures Spent(Run(w, d, ops), id, approver)
    decreases |ops|
  {
    if ops != [] {
      var before := Run(w, d, ops[..|ops| - 1]);
      StaysSpent(w, d, ops[..|ops| - 1], id, approver);
      StepStaysSpent(w, before, ops[|ops| - 1].0, id, approver);
    }
  }

  /**
   Repeat clicks add nothing: after an approver's first click on either path, and whatever happens in
   between, clicking again on either path changes neither the request nor its trail.
   */
  lemma {:induction false} RepeatsAddNothing(w: Wrapping, d: Desk, first: Op, ops: seq<(Op, bool)>, again: Op)
    requires first.Approve? || first.ClientApprove?
    requires again.Approve? || again.ClientApprove?
    requires again.id == first.id && again.approver == first.approver
    ensures var later := Run(w, Step(w, d, first), ops);
            first.id < |d.requests| ==> Step(w, later, again) == later
  {
    if first.id < |d.requests| {
      FirstClickSpends(w, d, first);
      StaysSpent(w, Step(w, d, first), ops, first.id, first.approver);
    }
  }

  lemma FirstClickSpends(w: Wrapping, d: Desk, first: Op)
    requires (first.Approve? || first.ClientApprove?) && first.id < |d.requests|
    ensures Spent(Step(w, d, first), first.id, first.approver)
  {
  }

  /** Nor does resolving to the status a request already has. */
  lemma ResolvingAgain(w: Wrapping, d: Desk, id: nat, status: Status)
    ensures var once := Step(w, d, Resolve(id, status)); Step(w, once, Resolve(id, status)) == once
  {
  }

  /** The released key does open the record: approval by the key's owner makes the in-scope read work. */
  lemma ApprovalOpensScope(w: Wrapping, d: Desk, id: nat, approver: string, orgPrivate: string, hash: Hash, now: int)
    requires forall k, m :: w.unwrap(k, w.wrap(w.publicOf(k), m)) == Some(m)
    requires id < |d.requests| && CanApprove(d.requests[id], approver)
    requires |d.requests[id].approvers| + 1 >= d.requests[id].required && now < d.requests[id].expiresAt
    requires hash in d.requests[id].grants
    requires var record := (d.requests[id].org, hash);
             && record in d.payloads && !d.payloads[record].erased && record in d.keys
             && d.keys[record] == KeyRow(w.wrap(w.publicOf(orgPrivate), d.payloads[record].contentKey), true)
    ensures GrantContent(w, Step(w, d, Approve(id, approver, orgPrivate)), id, hash, now) ==
            Some(d.payloads[(d.requests[id].org, hash)].content)
  {
    var r := d.requests[id];
    var record := (r.org, hash);
    assert w.unwrap(orgPrivate, d.keys[record].key) == Some(d.payloads[record].contentKey);
    assert hash in Regranted(w, d.keys, r, orgPrivate);
    assert w.unwrap(r.granteePrivate, Regranted(w, d.keys, r, orgPrivate)[hash]) == Some(d.payloads[record].contentKey);
  }

  // ---------------------------------------------------------------------------------------
  // What a filing fixes
  // ---------------------------------------------------------------------------------------

  /** The request carries what was filed: threshold, deadline, scope, organisation, grantee, and who asked why. */
  ghost predicate CarriesFiling(r: Request, f: Filing) {
    && r.org == f.org && r.granteePrivate == f.granteePrivate
    && r.required == (if f.required < 1 then 1 else f.required) && r.expiresAt == f.now + f.ttl
    && (forall h :: h in r.grants <==> h in f.scope)
    && (r.trail.None? <==> f.predatesTrail)
    && (r.trail.Some? ==> r.trail.value != [] && r.trail.value[0].Filed?
                          && r.trail.value[0].requestedBy == f.requestedBy && r.trail.value[0].reason == f.reason)
  }

  /** A recorded filing without repeats adds one request that carries it, pending and with nothing released. */
  lemma FilingStarts(w: Wrapping, d: Desk, f: Filing)
    requires NoDuplicates(f.scope)
    ensures var d', n := Step(w, d, File(f)), |d.requests|;
            && |d'.requests| == n + 1 && d'.requests[..n] == d.requests
            && d'.payloads == d.payloads && d'.keys == d.keys && d'.readLog == d.readLog
            && var r := d'.requests[n];
               && CarriesFiling(r, f) && r.status == Pending && r.approvers == []
               && forall h :: h in r.grants ==> r.grants[h].None?
  {
  }

  lemma FilingStaysStep(w: Wrapping, d: Desk, op: Op, id: nat, f: Filing)
    requires id < |d.requests| && CarriesFiling(d.requests[id], f)
    ensures id < |Step(w, d, op).requests| && CarriesFiling(Step(w, d, op).requests[id], f)
  {
  }

  /** Operation k of the run files a request and is recorded. */
  predicate FiledAt(ops: seq<(Op, bool)>, k: nat) {
    k < |ops| && ops[k].1 && ops[k].0.File? && NoDuplicates(ops[k].0.filing.scope)
  }

  /** The number of the request filed by operation k. */
  function FiledId(w: Wrapping, ops: seq<(Op, bool)>, k: nat): nat
    requires k < |ops|
  {
    |Run(w, EMPTY, ops[..k]).requests|
  }

  /** This operation is that approver's click on that request, on either path. */
  predicate ClickOn(op: Op, id: nat, approver: string) {
    (op.Approve? || op.ClientApprove?) && op.id == id && op.approver == approver
  }

  /** The approver clicked, on the record, after operation k. */
  ghost predicate Clicked(ops: seq<(Op, bool)>, k: nat, id: nat, approver: string) {
    exists j :: k < j < |ops| && ops[j].1 && ClickOn(ops[j].0, id, approver)
  }

  /** What the request filed by operation k still is, and who is behind its approvals. */
  ghost predicate FiledAndClicked(w: Wrapping, ops: seq<(Op, bool)>, k: nat)
    requires FiledAt(ops, k)
  {
    var d, id := Run(w, EMPTY, ops), FiledId(w, ops, k);
    && id < |d.requests| && CarriesFiling(d.requests[id], ops[k].0.filing)
    && forall a :: a in d.requests[id].approvers ==> Clicked(ops, k, id, a)
  }

  lemma NewApproverClicked(w: Wrapping, d: Desk, op: Op, id: nat, approver: string)
    requires id < |d.requests|
    ensures id < |Step(w, d, op).requests|
    ensures approver in Step(w, d, op).requests[id].approvers ==>
              approver in d.requests[id].approvers || ClickOn(op, id, approver)
  {
  }

  lemma ClickedLonger(ops: seq<(Op, bool)>, op: (Op, bool), k: nat, id: nat, approver: string)
    requires k < |ops|
    requires Clicked(ops, k, id, approver) || (op.1 && ClickOn(op.0, id, approver))
    ensures Clicked(ops + [op], k, id, approver)
  {
    if Clicked(ops, k, id, approver) {
      var j :| k < j < |ops| && ops[j].1 && ClickOn(ops[j].0, id, approver);
      assert (ops + [op])[j] == ops[j];
    } else {
      assert (ops + [op])[|ops|] == op;
    }
  }

  /**
   A request is what was filed, for as long as the run goes on: threshold, deadline, scope, organisation and
   grantee never move, and every approver on it clicked on the record since it was filed.
   */
  lemma {:induction false} FilingKept(w: Wrapping, ops: seq<(Op, bool)>, k: nat)
    requires FiledAt(ops, k)
    ensures FiledAndClicked(w, ops, k)
    decreases |ops|
  {
    var n := |ops| - 1;
    var before := Run(w, EMPTY, ops[..n]);
    var id := FiledId(w, ops, k);
    if k == n {
      FilingStarts(w, before, ops[k].0.filing);
    } else {
      FilingKept(w, ops[..n], k);
      assert ops[..n][..k] == ops[..k] && ops[..n] + [ops[n]] == ops;
      FilingStaysStep(w, before, ops[n].0, id, ops[k].0.filing);
      forall a | a in Run(w, EMPTY, ops).requests[id].approvers
        ensures Clicked(ops, k, id, a)
      {
        NewApproverClicked(w, before, ops[n].0, id, a);
        ClickedLonger(ops[..n], ops[n], k, id, a);
      }
    }
  }

  /** At least n different people clicked on this request. */
  ghost predicate EnoughClicked(ops: seq<(Op, bool)>, k: nat, id: nat, n: int) {
    exists who: seq<string> :: |who| >= n && (forall i, j :: 0 <= i < j < |who| ==> who[i] != who[j])
                               && forall i :: 0 <= i < |who| ==> Clicked(ops, k, id, who[i])
  }

  /**
   From filing to reading: content comes back through the request that operation k filed only for a record it
   named, of the organisation it named, before the deadline it set, and after at least as many different people
   as it asked for, and at least one, clicked on it.
   */
  lemma FilingGuardsReads(w: Wrapping, ops: seq<(Op, bool)>, k: nat, hash: Hash, now: int)
    requires FiledAt(ops, k) && GrantContent(w, Run(w, EMPTY, ops), FiledId(w, ops, k), hash, now).Some?
    ensures var f, d := ops[k].0.filing, Run(w, EMPTY, ops);
            && hash in f.scope && now < f.now + f.ttl && (f.org, hash) in d.payloads
            && EnoughClicked(ops, k, FiledId(w, ops, k), f.required) && EnoughClicked(ops, k, FiledId(w, ops, k), 1)
            && GrantContent(w, d, FiledId(w, ops, k), hash, now) == Some(d.payloads[(f.org, hash)].content)
  {
    FilingKept(w, ops, k);
    ReadNeedsConsent(w, ops, FiledId(w, ops, k), hash, now);
    var who := Run(w, EMPTY, ops).requests[FiledId(w, ops, k)].approvers;
    assert forall i :: 0 <= i < |who| ==> Clicked(ops, k, FiledId(w, ops, k), who[i]);
  }

  // ---------------------------------------------------------------------------------------
  // What a click does
  // ---------------------------------------------------------------------------------------

  /** A click changes approvers, keys, status and trail of one request, and nothing else. */
  ghost predicate OnlyClicked(d: Desk, d': Desk, id: nat, approver: string)
    requires id < |d.requests|
  {
    && |d'.requests| == |d.requests| && d' == d.(requests := d.requests[id := d'.requests[id]])
    && var r, r' := d.requests[id], d'.requests[id];
       && r' == r.(approvers := r.approvers + [approver], grants := r'.grants, status := r'.status, trail := r'.trail)
       && r'.grants.Keys == r.grants.Keys
  }

  /** The org's private key opens the stored key of this record. */
  predicate Opens(w: Wrapping, d: Desk, record: RecordId, orgPrivate: string) {
    record in d.keys && d.keys[record].wrapped && w.unwrap(orgPrivate, d.keys[record].key).Some?
  }

  /**
   Approval with the org key: a click counts on a pending request by someone new. Below the threshold it
   releases nothing; at the threshold it approves and releases exactly the keys that open.
   */
  lemma ApprovalExactly(w: Wrapping, d: Desk, id: nat, approver: string, orgPrivate: string)
    requires id < |d.requests|
    ensures var d', r := Step(w, d, Approve(id, approver, orgPrivate)), d.requests[id];
            if r.status != Pending || approver in r.approvers then d' == d
            else
              && OnlyClicked(d, d', id, approver)
              && var r' := d'.requests[id];
                 if |r.approvers| + 1 < r.required then r'.status == Pending && r'.grants == r.grants
                 else
                   && r'.status == Approved
                   && forall h :: h in r.grants ==>
                        r'.grants[h] ==
                          if Opens(w, d, (r.org, h), orgPrivate)
                          then Some(w.wrap(w.publicOf(r.granteePrivate),
                                           w.unwrap(orgPrivate, d.keys[(r.org, h)].key).value))
                          else r.grants[h]
  {
    var r := d.requests[id];
    if r.status == Pending && approver !in r.approvers && |r.approvers| + 1 < r.required {
      assert Released(r.grants, map[]) == r.grants;
    }
  }

  /** Approval by the client: posted keys of records in scope are kept; it waits for enough clicks and every key. */
  lemma ClientApprovalExactly(w: Wrapping, d: Desk, id: nat, approver: string, posted: map<Hash, string>)
    requires id < |d.requests|
    ensures var d', r := Step(w, d, ClientApprove(id, approver, posted)), d.requests[id];
            if r.status != Pending || approver in r.approvers then d' == d
            else
              && OnlyClicked(d, d', id, approver)
              && var r' := d'.requests[id];
                 && (forall h :: h in r.grants ==>
                       r'.grants[h] == if h in posted then Some(posted[h]) else r.grants[h])
                 && r'.status == if |r.approvers| + 1 >= r.required
                                    && (forall h :: h in r.grants ==> r.grants[h].Some? || h in posted)
                                 then Approved else Pending
  {
  }

  // ---------------------------------------------------------------------------------------
  // What is stored
  // ---------------------------------------------------------------------------------------

  predicate StoresAt(ops: seq<(Op, bool)>, k: nat, record: RecordId) {
    k < |ops| && ops[k].1 && ops[k].0.Store? && ops[k].0.record == record
  }

  /** Operation k is the first to store this record. */
  ghost predicate FirstStore(ops: seq<(Op, bool)>, k: nat, record: RecordId) {
    StoresAt(ops, k, record) && forall j :: 0 <= j < k ==> !StoresAt(ops, j, record)
  }

  ghost predicate ErasedSince(ops: seq<(Op, bool)>, k: nat, record: RecordId) {
    exists j :: k < j < |ops| && ops[j].1 && ops[j].0 == Erase(record)
  }

  /** The desk holds what this operation stored: its key too, wrapped if the organisation has one, unless erased. */
  ghost predicate HoldsStored(w: Wrapping, d: Desk, op: Op, erased: bool)
    requires op.Store?
  {
    && op.record in d.payloads
    && d.payloads[op.record] == Payload(op.content, op.contentKey, true, erased)
    && (op.record in d.keys <==> !erased)
    && (!erased ==> d.keys[op.record].wrapped == op.orgPublic.Some?
                    && d.keys[op.record].key == if op.orgPublic.None? then op.contentKey
                                                else w.wrap(op.orgPublic.value, op.contentKey))
  }

  /** The record is held as its first storing says, or not at all. */
  ghost predicate HeldAsStored(w: Wrapping, ops: seq<(Op, bool)>, record: RecordId) {
    var d := Run(w, EMPTY, ops);
    && (forall k: nat :: FirstStore(ops, k, record) ==> HoldsStored(w, d, ops[k].0, ErasedSince(ops, k, record)))
    && ((forall k: nat :: !StoresAt(ops, k, record)) ==> record !in d.payloads && record !in d.keys)
  }

  lemma StoreStep(w: Wrapping, d: Desk, op: Op, stored: Op, erased: bool)
    requires stored.Store? && HoldsStored(w, d, stored, erased)
    ensures HoldsStored(w, Step(w, d, op), stored, erased || op == Erase(stored.record))
  {
  }

  lemma ErasedSinceStep(ops: seq<(Op, bool)>, k: nat, record: RecordId)
    requires k < |ops| - 1
    ensures var n := |ops| - 1;
            ErasedSince(ops, k, record) <==>
              ErasedSince(ops[..n], k, record) || (ops[n].1 && ops[n].0 == Erase(record))
  {
    var n := |ops| - 1;
    if ErasedSince(ops[..n], k, record) {
      var j :| k < j < n && ops[..n][j].1 && ops[..n][j].0 == Erase(record);
      assert ops[j] == ops[..n][j];
    }
    if ErasedSince(ops, k, record) {
      var j :| k < j < |ops| && ops[j].1 && ops[j].0 == Erase(record);
      assert j < n ==> ops[..n][j] == ops[j];
    }
  }

  lemma NewlyStored(w: Wrapping, d: Desk, op: Op, record: RecordId)
    requires record !in d.payloads && record !in d.keys
    ensures var d' := Step(w, d, op);
            if op.Store? && op.record == record then HoldsStored(w, d', op, false)
            else record !in d'.payloads && record !in d'.keys
  {
  }

  /**
   Over every run, a record is held exactly as its first recorded storing gave it: same content, the content key
   wrapped to the organisation's key if it has one, whatever is stored under its hash later. Its key is there,
   and the payload unmarked, until it is erased.
   */
  lemma {:induction false} StoredExactly(w: Wrapping, ops: seq<(Op, bool)>, record: RecordId)
    ensures HeldAsStored(w, ops, record)
    decreases |ops|
  {
    if ops != [] {
      var n := |ops| - 1;
      var d := Run(w, EMPTY, ops[..n]);
      StoredExactly(w, ops[..n], record);
      assert forall j: nat :: j < n ==> StoresAt(ops[..n], j, record) == StoresAt(ops, j, record);
      forall k: nat | FirstStore(ops, k, record)
        ensures HoldsStored(w, Run(w, EMPTY, ops), ops[k].0, ErasedSince(ops, k, record))
      {
        if k < n {
          assert FirstStore(ops[..n], k, record);
          ErasedSinceStep(ops, k, record);
          StoreStep(w, d, ops[n].0, ops[k].0, ErasedSince(ops[..n], k, record));
        } else {
          NewlyStored(w, d, ops[n].0, record);
        }
      }
      if forall k: nat :: !StoresAt(ops, k, record) {
        assert !StoresAt(ops, n, record);
        NewlyStored(w, d, ops[n].0, record);
      }
    }
  }

  /** Attest reads a record on its own exactly while it is unerased and was stored without an organisation key. */
  lemma PlainReadExactly(w: Wrapping, ops: seq<(Op, bool)>, k: nat, record: RecordId)
    requires FirstStore(ops, k, record)
    ensures PlainContent(Run(w, EMPTY, ops), record) ==
            if ops[k].0.orgPublic.None? && !ErasedSince(ops, k, record) then Some(ops[k].0.content) else None
  {
    StoredExactly(w, ops, record);
  }

  // ---------------------------------------------------------------------------------------
  // The service
  // ---------------------------------------------------------------------------------------

  datatype ReviewError = NotFound | InvalidStatus | DuplicateScope | NotRecorded

  class ConsentDesk {
    const w: Wrapping
    var requests: seq<Request>
    var payloads: map<RecordId, Payload>
    var keys: map<RecordId, KeyRow>
    ghost var readLog: seq<(nat, Hash)>

    ghost function View(): Desk
      reads this
    {
      Desk(requests, payloads, keys, readLog)
    }

    constructor (w: Wrapping)
      ensures this.w == w && View() == EMPTY
    {
      this.w := w;
      requests, payloads, keys, readLog := [], map[], map[], [];
    }

    method CreateAccessRequest(f: Filing, recorded: bool) returns (r: Result<nat, ReviewError>)
      modifies this`requests
      ensures View() == Attempt(w, old(View()), File(f), recorded)
      ensures r == Err(DuplicateScope) <==> exists i, j :: 0 <= i < j < |f.scope| && f.scope[i] == f.scope[j]
      ensures r.Ok? <==> NoDuplicates(f.scope) && recorded
      ensures r.Ok? ==> r.value == |old(requests)| == |requests| - 1 && CarriesFiling(requests[r.value], f)
    {
      if !NoDuplicates(f.scope) {
        return Err(DuplicateScope);
      }
      var rows: map<Hash, Option<string>> := map[];
      for i := 0 to |f.scope|
        invariant rows.Keys == set k | 0 <= k < i :: f.scope[k]
        invariant forall h :: h in rows ==> rows[h].None?
      {
        rows := rows[f.scope[i] := None];
      }
      var request := Request(f.org, Pending, Max(1, f.required), f.granteePrivate, f.now + f.ttl, rows, [],
                             if f.predatesTrail then None else Some([]));
      if !recorded {
        return Err(NotRecorded);
      }
      assert rows == NewRequest(f).grants;
      var filed := Filed(f.requestedBy, f.reason, rows.Keys, request.required, request.expiresAt);
      requests := requests + [Noted(request, filed)];
      return Ok(|requests| - 1);
    }

    method ReleaseKeys(request: Request, orgPrivate: string) returns (released: map<Hash, string>)
      ensures released == Regranted(w, keys, request, orgPrivate)
    {
      released := map[];
      var todo := request.grants.Keys;
      while todo != {}
        invariant todo <= request.grants.Keys
        invariant released == map h | h in Regranted(w, keys, request, orgPrivate) && h !in todo
                                    :: Regranted(w, keys, request, orgPrivate)[h]
        decreases |todo|
      {
        var h :| h in todo;
        todo := todo - {h};
        if (request.org, h) in keys && keys[(request.org, h)].wrapped {
          var dek := w.unwrap(orgPrivate, keys[(request.org, h)].key);
          if dek.Some? {
            released := released[h := w.wrap(w.publicOf(request.granteePrivate), dek.value)];
          }
        }
      }
    }

    method ApproveAccessRequest(id: nat, approver: string, orgPrivate: string, recorded: bool)
      returns (r: Result<Request, ReviewError>)
      modifies this`requests
      ensures id >= |old(requests)| ==> r == Err(NotFound)
      ensures View() == Attempt(w, old(View()), Approve(id, approver, orgPrivate), recorded)
      ensures r.Ok? ==> id < |requests| && r.value == requests[id]
      ensures id < |old(requests)| ==> (r.Err? <==> CanApprove(old(requests)[id], approver) && !recorded)
    {
      if id >= |requests| {
        return Err(NotFound);
      }
      var request := requests[id];
      if request.status != Pending || approver in request.approvers {
        return Ok(request);
      }
      var count := |request.approvers| + 1;
      var released: map<Hash, string> := map[];
      if count >= request.required {
        released := ReleaseKeys(request, orgPrivate);
      }
      var updated := request.(
        approvers := request.approvers + [approver],
        grants := Released(request.grants, released),
        status := if count >= request.required then Approved else Pending);
      if !recorded {
        return Err(NotRecorded);
      }
      updated := Noted(updated, Approval(approver, count, request.required, released.Keys, updated.status));
      requests := requests[id := updated];
      return Ok(updated);
    }

    method RecordClientApproval(id: nat, approver: string, posted: map<Hash, string>, recorded: bool)
      returns (r: Result<Request, ReviewError>)
      modifies this`requests
      ensures id >= |old(requests)| ==> r == Err(NotFound)
      ensures View() == Attempt(w, old(View()), ClientApprove(id, approver, posted), recorded)
      ensures r.Ok? ==> id < |requests| && r.value == requests[id]
      ensures id < |old(requests)| ==> (r.Err? <==> CanApprove(old(requests)[id], approver) && !recorded)
    {
      if id >= |requests| {
        return Err(NotFound);
      }
      var request := requests[id];
      if request.status != Pending || approver in request.approvers {
        return Ok(request);
      }
      var grants, releasedNow := StorePosted(request.grants, posted);
      var count := |request.approvers| + 1;
      var updated := request.(
        approvers := request.approvers + [approver],
        grants := grants,
        status := if count >= request.required && AllReleased(grants) then Approved else Pending);
      if !recorded {
        return Err(NotRecorded);
      }
      updated := Noted(updated, Approval(approver, count, request.required, releasedNow, updated.status));
      requests := requests[id := updated];
      return Ok(updated);
    }

    static method StorePosted(rows: map<Hash, Option<string>>, posted: map<Hash, string>)
      returns (grants: map<Hash, Option<string>>, releasedNow: set<Hash>)
      ensures var released := map h | h in posted && h in rows :: posted[h];
              grants == Released(rows, released) && releasedNow == released.Keys
    {
      grants, releasedNow := rows, {};
      var todo := posted.Keys;
      while todo != {}
        invariant todo <= posted.Keys
        invariant grants.Keys == rows.Keys
        invariant releasedNow == set h | h in posted && h in rows && h !in todo
        invariant forall h :: h in rows ==> grants[h] == if h in releasedNow then Some(posted[h]) else rows[h]
        decreases |todo|
      {
        var h :| h in todo;
        todo := todo - {h};
        if h in rows {
          grants := grants[h := Some(posted[h])];
          releasedNow := releasedNow + {h};
        }
      }
    }

    method ResolveAccessRequest(id: nat, status: Status, recorded: bool) returns (r: Result<Request, ReviewError>)
      modifies this`requests
      ensures status != Denied && status != Revoked ==> r == Err(InvalidStatus)
      ensures View() == Attempt(w, old(View()), Resolve(id, status), recorded)
      ensures r.Ok? ==> id < |requests| && r.value == requests[id] && r.value.status == status
    {
      if status != Denied && status != Revoked {
        return Err(InvalidStatus);
      }
      if id >= |requests| {
        return Err(NotFound);
      }
      var request := requests[id];
      if request.status == status {
        return Ok(request);
      }
      if !recorded {
        return Err(NotRecorded);
      }
      var updated := Noted(request.(status := status), Resolution(request.status, status));
      requests := requests[id := updated];
      return Ok(updated);
    }

    /** No unrecorded access: content comes back only if the read was appended to the trail. */
    method ReadViaGrant(id: nat, hash: Hash, now: int, recorded: bool) returns (content: Option<string>)
      modifies this`requests, this`readLog
      ensures View() == Attempt(w, old(View()), ReadVia(id, hash, now), recorded)
      ensures content == if recorded then GrantContent(w, old(View()), id, hash, now) else None
    {
      if id >= |requests| || requests[id].status != Approved {
        return None;
      }
      var request := requests[id];
      if request.expiresAt <= now {
        return None;
      }
      if hash !in request.grants || request.grants[hash].None? {
        return None;
      }
      var dek := w.unwrap(request.granteePrivate, request.grants[hash].value);
      if dek.None? {
        return None;
      }
      var record := (request.org, hash);
      if record !in payloads || payloads[record].erased {
        return None;
      }
      content := Decrypt(payloads[record], dek.value);
      if content.None? || !recorded {
        return None;
      }
      requests := requests[id := Noted(request, AccessRead(hash))];
      readLog := readLog + [(id, hash)];
    }

    method StoreEncryptedPayload(record: RecordId, content: string, contentKey: string, orgPublic: Option<string>)
      modifies this`payloads, this`keys
      ensures View() == Step(w, old(View()), Store(record, content, contentKey, orgPublic))
    {
      if record in payloads {
        return;
      }
      var row := KeyRow(contentKey, false);
      if orgPublic.Some? {
        row := KeyRow(w.wrap(orgPublic.value, contentKey), true);
      }
      payloads := payloads[record := Payload(content, contentKey, true, false)];
      keys := keys[record := row];
    }

    method CryptoShredPayload(record: RecordId) returns (done: bool)
      modifies this`payloads, this`keys
      ensures View() == Step(w, old(View()), Erase(record)) && done == (record in old(keys))
    {
      if record !in keys {
        return false;
      }
      keys := keys - {record};
      if record in payloads && !payloads[record].erased {
        payloads := payloads[record := payloads[record].(erased := true)];
      }
      assert record in payloads ==> payloads == old(payloads)[record := old(payloads)[record].(erased := true)];
      done := true;
    }
  }
}
