/**
 The output gate and the flagged -> fixed -> cured link (app/services/gate.py, app/services/precheck.py).

 A trace is its owner and the number of events recorded on it. What the policy engine says about an
 output is an input here; Policy.dfy says what it can be.
 */
module Gate {
  import opened Prelude
  import opened Policy
  import opened Verdicts

  /** Index row of one policy decision; `status` is None for decisions made outside the gate. */
  datatype Summary = Summary(
    org: string, traceId: string, seqNo: int, status: Option<Status>, outputSeq: Option<int>,
    remediationOf: Option<int>, remediatedBy: Option<int>)

  datatype State = State(owner: map<string, string>, tip: map<string, nat>, summaries: seq<Summary>)

  const EMPTY := State(map[], map[], [])

  /** What evaluating an output came to. */
  datatype Evaluation =
    | NoPolicy
    | FailClosed
    | Judged(allowed: bool, tier: Tier, anyFinding: bool)

  datatype GateCall = GateCall(
    org: string, traceId: string, supplied: bool, action: string, remediates: Option<int>, evaluation: Evaluation)

  datatype GateError =
    | NeedsTrace | NotADecision | NothingToRemediate | TraceAccessDenied | InvalidEventType | OutOfOrder
    | NoActivePolicy

  datatype GateReply = GateReply(status: Status, decisionSeq: Option<int>, outputSeq: int)

  function Tip(s: State, traceId: string): nat {
    if traceId in s.tip then s.tip[traceId] else 0
  }

  /** The decision row named by (org, trace, seq). */
  function Find(summaries: seq<Summary>, org: string, traceId: string, seqNo: int): (r: Option<nat>)
    ensures r.Some? ==> r.value < |summaries| && Names(summaries[r.value], org, traceId, seqNo)
    ensures r.None? ==> forall i :: 0 <= i < |summaries| ==> !Names(summaries[i], org, traceId, seqNo)
  {
    if summaries == [] then None
    else
      var n := |summaries| - 1;
      if Names(summaries[n], org, traceId, seqNo) then Some(n) else Find(summaries[..n], org, traceId, seqNo)
  }

  predicate Names(x: Summary, org: string, traceId: string, seqNo: int) {
    x.org == org && x.traceId == traceId && x.seqNo == seqNo
  }

  /** A remediation must name a flagged or blocked decision of the caller's, in the supplied trace. */
  function Remediated(s: State, c: GateCall): Result<Option<nat>, GateError> {
    if c.remediates.None? then Ok(None)
    else if !c.supplied then Err(NeedsTrace)
    else
      var i := Find(s.summaries, c.org, c.traceId, c.remediates.value);
      if i.None? then Err(NotADecision)
      else if s.summaries[i.value].status != Some(Flagged) && s.summaries[i.value].status != Some(Blocked)
      then Err(NothingToRemediate)
      else Ok(i)
  }

  function Extended(s: State, org: string, traceId: string, count: nat): State {
    s.(owner := s.owner[traceId := org], tip := s.tip[traceId := Tip(s, traceId) + count])
  }

  /** Decision t marked as cured by the decision numbered `fix`. */
  function Marked(rows: seq<Summary>, t: nat, fix: int): seq<Summary>
    requires t < |rows|
  {
    rows[t := rows[t].(remediatedBy := Some(fix))]
  }

  /** The state after a gate call, and what the caller is told. */
  function Gated(s: State, c: GateCall): Result<(State, GateReply), GateError> {
    var target := Remediated(s, c);
    if target.Err? then Err(target.error)
    else if c.traceId in s.owner && s.owner[c.traceId] != c.org then Err(TraceAccessDenied)
    else if IsBlank(c.action) then Err(InvalidEventType)
    else
      var n := Tip(s, c.traceId);
      match c.evaluation
      case NoPolicy => Ok((Extended(s, c.org, c.traceId, 1), GateReply(Unevaluated, None, n + 1)))
      case FailClosed => Ok((Extended(s, c.org, c.traceId, 2), GateReply(Blocked, Some(n + 1), n + 2)))
      case Judged(allowed, tier, anyFinding) =>
        var status := DeriveStatus(allowed, tier, anyFinding);
        var row := Summary(c.org, c.traceId, n + 1, Some(status), Some(n + 2), c.remediates, None);
        var rows := if target.value.Some? && status == Compliant then Marked(s.summaries, target.value.value, n + 1)
                    else s.summaries;
        Ok((Extended(s, c.org, c.traceId, 2).(summaries := rows + [row]), GateReply(status, Some(n + 1), n + 2)))
  }

  /** A direct precheck: the caller numbers the event, and no verdict is stamped on the row. */
  function Prechecked(s: State, org: string, traceId: string, seqNo: int,
                      evaluation: Evaluation): Result<State, GateError> {
    if evaluation.NoPolicy? then Err(NoActivePolicy)
    else if traceId in s.owner && s.owner[traceId] != org then Err(TraceAccessDenied)
    else if seqNo != Tip(s, traceId) + 1 then Err(OutOfOrder)
    else if evaluation.FailClosed? then Ok(Extended(s, org, traceId, 1))
    else
      var row := Summary(org, traceId, seqNo, None, None, None, None);
      Ok(Extended(s, org, traceId, 1).(summaries := s.summaries + [row]))
  }

  datatype Op =
    | RunGate(call: GateCall)
    | Precheck(org: string, traceId: string, seqNo: int, evaluation: Evaluation)
    | OtherEvent(org: string, traceId: string)

  function Step(s: State, op: Op): State {
    match op
    case RunGate(c) => if Gated(s, c).Ok? then Gated(s, c).value.0 else s
    case Precheck(org, traceId, seqNo, e) =>
      if Prechecked(s, org, traceId, seqNo, e).Ok? then Prechecked(s, org, traceId, seqNo, e).value else s
    case OtherEvent(org, traceId) =>
      if traceId in s.owner && s.owner[traceId] != org then s else Extended(s, org, traceId, 1)
  }

  function Run(ops: seq<Op>): State {
    if ops == [] then EMPTY else Step(Run(ops[..|ops| - 1]), ops[|ops| - 1])
  }

  // ---------------------------------------------------------------------------------------
  // The loop invariant
  // ---------------------------------------------------------------------------------------

  ghost predicate Placed(s: State, x: Summary) {
    && x.traceId in s.owner && s.owner[x.traceId] == x.org
    && 1 <= x.seqNo <= Tip(s, x.traceId)
  }

  ghost predicate Numbered(rows: seq<Summary>) {
    forall i, j :: 0 <= i < j < |rows| && rows[i].traceId == rows[j].traceId ==> rows[i].seqNo < rows[j].seqNo
  }

  /** y cures x: a later compliant decision, same org and trace, that points back at x. */
  predicate Cures(y: Summary, x: Summary) {
    && y.org == x.org && y.traceId == x.traceId && x.seqNo < y.seqNo
    && y.status == Some(Compliant) && y.remediationOf == Some(x.seqNo)
  }

  ghost predicate CuredOk(rows: seq<Summary>, i: nat)
    requires i < |rows|
  {
    rows[i].remediatedBy.Some? ==>
      && (rows[i].status == Some(Flagged) || rows[i].status == Some(Blocked))
      && exists k :: 0 <= k < |rows| && rows[k].seqNo == rows[i].remediatedBy.value && Cures(rows[k], rows[i])
  }

  ghost predicate Inv(s: State) {
    && (forall i :: 0 <= i < |s.summaries| ==> Placed(s, s.summaries[i]))
    && Numbered(s.summaries)
    && (forall i :: 0 <= i < |s.summaries| ==> CuredOk(s.summaries, i))
  }

  /** Appending a row keeps every cure in place. */
  lemma AppendKeepsCures(rows: seq<Summary>, row: Summary)
    requires forall i :: 0 <= i < |rows| ==> CuredOk(rows, i)
    requires row.remediatedBy.None?
    ensures forall i :: 0 <= i < |rows + [row]| ==> CuredOk(rows + [row], i)
  {
    forall i | 0 <= i < |rows + [row]|
      ensures CuredOk(rows + [row], i)
    {
      if i < |rows| && rows[i].remediatedBy.Some? {
        assert CuredOk(rows, i);
        var k :| 0 <= k < |rows| && rows[k].seqNo == rows[i].remediatedBy.value && Cures(rows[k], rows[i]);
        assert (rows + [row])[k] == rows[k];
      }
    }
  }

  /** Marking t as cured by the row just appended. */
  lemma CureKeepsCures(rows: seq<Summary>, t: nat, row: Summary)
    requires forall i :: 0 <= i < |rows| ==> CuredOk(rows, i)
    requires t < |rows| && row.remediatedBy.None? && Cures(row, rows[t])
    requires rows[t].status == Some(Flagged) || rows[t].status == Some(Blocked)
    ensures var after := rows[t := rows[t].(remediatedBy := Some(row.seqNo))] + [row];
            forall i :: 0 <= i < |after| ==> CuredOk(after, i)
  {
    var after := rows[t := rows[t].(remediatedBy := Some(row.seqNo))] + [row];
    forall i | 0 <= i < |after|
      ensures CuredOk(after, i)
    {
      if i == t {
        assert after[|rows|] == row && Cures(after[|rows|], after[i]);
      } else if i < |rows| && rows[i].remediatedBy.Some? {
        assert CuredOk(rows, i);
        var k :| 0 <= k < |rows| && rows[k].seqNo == rows[i].remediatedBy.value && Cures(rows[k], rows[i]);
        assert after[k].seqNo == rows[k].seqNo && Cures(after[k], after[i]);
      }
    }
  }

  lemma GateKeepsCures(s: State, c: GateCall)
    requires Inv(s) && Gated(s, c).Ok?
    ensures var rows := Gated(s, c).value.0.summaries; forall i :: 0 <= i < |rows| ==> CuredOk(rows, i)
  {
    if c.evaluation.Judged? {
      var e := c.evaluation;
      var n := Tip(s, c.traceId);
      var status := DeriveStatus(e.allowed, e.tier, e.anyFinding);
      var row := Summary(c.org, c.traceId, n + 1, Some(status), Some(n + 2), c.remediates, None);
      var target := Remediated(s, c).value;
      if target.Some? && status == Compliant {
        CureKeepsCures(s.summaries, target.value, row);
      } else {
        AppendKeepsCures(s.summaries, row);
      }
    }
  }

  /** Rows after a gate call: those before, but for cure marks, and perhaps one numbered past the tip. */
  lemma GateAppends(s: State, c: GateCall)
    requires Gated(s, c).Ok?
    ensures var rows, rows' := s.summaries, Gated(s, c).value.0.summaries;
            && |rows| <= |rows'| <= |rows| + 1
            && (forall i :: 0 <= i < |rows| ==> SameButCure(rows[i], rows'[i]))
            && (|rows'| > |rows| ==>
                  rows'[|rows|].org == c.org && rows'[|rows|].traceId == c.traceId
                  && rows'[|rows|].seqNo == Tip(s, c.traceId) + 1)
  {
  }

  lemma GateKeepsPlaced(s: State, c: GateCall, i: nat)
    requires Inv(s) && Gated(s, c).Ok? && i < |s.summaries|
    ensures forall x :: SameButCure(s.summaries[i], x) ==> Placed(Gated(s, c).value.0, x)
  {
    assert Placed(s, s.summaries[i]);
  }

  lemma GateKeepsPlaces(s: State, c: GateCall)
    requires Inv(s) && Gated(s, c).Ok?
    ensures var s' := Gated(s, c).value.0;
            (forall i :: 0 <= i < |s'.summaries| ==> Placed(s', s'.summaries[i])) && Numbered(s'.summaries)
  {
    var s' := Gated(s, c).value.0;
    GateAppends(s, c);
    forall i | 0 <= i < |s'.summaries|
      ensures Placed(s', s'.summaries[i])
    {
      if i < |s.summaries| {
        GateKeepsPlaced(s, c, i);
      }
    }
    AppendedNumbered(s, s'.summaries);
  }

  lemma AppendedNumbered(s: State, rows: seq<Summary>)
    requires Inv(s) && |s.summaries| <= |rows| <= |s.summaries| + 1
    requires forall i :: 0 <= i < |s.summaries| ==> SameButCure(s.summaries[i], rows[i])
    requires |rows| > |s.summaries| ==> rows[|s.summaries|].seqNo > Tip(s, rows[|s.summaries|].traceId)
    ensures Numbered(rows)
  {
    forall i, j | 0 <= i < j < |rows| && rows[i].traceId == rows[j].traceId
      ensures rows[i].seqNo < rows[j].seqNo
    {
      assert Placed(s, s.summaries[i]) && SameButCure(s.summaries[i], rows[i]);
    }
  }

  lemma GateKeepsInv(s: State, c: GateCall)
    requires Inv(s) && Gated(s, c).Ok?
    ensures Inv(Gated(s, c).value.0)
  {
    GateKeepsCures(s, c);
    GateKeepsPlaces(s, c);
  }

  lemma StepKeepsInv(s: State, op: Op)
    requires Inv(s)
    ensures Inv(Step(s, op))
  {
    match op
    case RunGate(c) =>
      if Gated(s, c).Ok? {
        GateKeepsInv(s, c);
      }
    case Precheck(org, traceId, seqNo, e) =>
      AppendKeepsCures(s.summaries, Summary(org, traceId, seqNo, None, None, None, None));
    case OtherEvent(org, traceId) =>
  }

  lemma {:induction false} ReachableInv(ops: seq<Op>)
    ensures Inv(Run(ops))
    decreases |ops|
  {
    if ops != [] {
      ReachableInv(ops[..|ops| - 1]);
      StepKeepsInv(Run(ops[..|ops| - 1]), ops[|ops| - 1]);
    }
  }

  lemma NamedOnce(rows: seq<Summary>, i: nat, j: nat)
    requires Numbered(rows) && i < |rows| && j < |rows|
    requires rows[i].traceId == rows[j].traceId && rows[i].seqNo == rows[j].seqNo
    ensures i == j
  {
  }

  /**
   In every reachable state, a decision marked remediated by k was flagged or blocked, and k names exactly
   one decision: strictly later, compliant, same org and trace, pointing back at it.
   */
  lemma RemediationLoop(ops: seq<Op>, i: nat)
    requires i < |Run(ops).summaries| && Run(ops).summaries[i].remediatedBy.Some?
    ensures var rows := Run(ops).summaries;
            && (rows[i].status == Some(Flagged) || rows[i].status == Some(Blocked))
            && exists k ::
                 && 0 <= k < |rows| && rows[k].seqNo == rows[i].remediatedBy.value && Cures(rows[k], rows[i])
                 && forall j :: 0 <= j < |rows| && Names(rows[j], rows[i].org, rows[i].traceId, rows[k].seqNo) ==>
                   j == k
  {
    ReachableInv(ops);
    var rows := Run(ops).summaries;
    assert CuredOk(rows, i);
    var k :| 0 <= k < |rows| && rows[k].seqNo == rows[i].remediatedBy.value && Cures(rows[k], rows[i]);
    forall j | 0 <= j < |rows| && Names(rows[j], rows[i].org, rows[i].traceId, rows[k].seqNo)
      ensures j == k
    {
      NamedOnce(rows, j, k);
    }
  }

  /** Row i as it will stay: everything but the cure mark. */
  ghost predicate SameButCure(x: Summary, y: Summary) {
    x.(remediatedBy := None) == y.(remediatedBy := None)
  }

  /**
   Nothing else moves: existing rows keep everything but their cure mark, and a mark changes in a step only
   if that step is a gate call that named the row, was judged compliant, and whose decision the mark names.
   */
  lemma OnlyCompliantFixCloses(s: State, op: Op, i: nat)
    requires Inv(s) && i < |s.summaries|
    ensures i < |Step(s, op).summaries| && SameButCure(s.summaries[i], Step(s, op).summaries[i])
    ensures Step(s, op).summaries[i] != s.summaries[i] ==>
      && op.RunGate? && op.call.evaluation.Judged?
      && DeriveStatus(op.call.evaluation.allowed, op.call.evaluation.tier, op.call.evaluation.anyFinding) == Compliant
      && Names(s.summaries[i], op.call.org, op.call.traceId, s.summaries[i].seqNo)
      && op.call.remediates == Some(s.summaries[i].seqNo)
      && Step(s, op).summaries[i].remediatedBy == Some(Tip(s, op.call.traceId) + 1)
  {
  }

  /** The other direction: a compliant fix of a flagged decision does close it. */
  lemma CompliantFixCloses(s: State, c: GateCall, i: nat)
    requires Inv(s) && i < |s.summaries| && c.supplied && !IsBlank(c.action)
    requires c.remediates == Some(s.summaries[i].seqNo)
    requires Names(s.summaries[i], c.org, c.traceId, s.summaries[i].seqNo)
    requires s.summaries[i].status == Some(Flagged) || s.summaries[i].status == Some(Blocked)
    requires c.evaluation.Judged?
    requires DeriveStatus(c.evaluation.allowed, c.evaluation.tier, c.evaluation.anyFinding) == Compliant
    ensures Gated(s, c).Ok?
    ensures Step(s, RunGate(c)).summaries[i].remediatedBy == Some(Tip(s, c.traceId) + 1)
  {
    var f := Find(s.summaries, c.org, c.traceId, c.remediates.value);
    assert f.Some?;
    NamedOnce(s.summaries, f.value, i);
    assert Placed(s, s.summaries[i]);
  }

  /** A gate call that names this flagged or blocked decision as its target and is itself judged compliant. */
  predicate Fixes(x: Summary, op: Op) {
    && op.RunGate? && op.call.supplied && !IsBlank(op.call.action) && op.call.remediates == Some(x.seqNo)
    && Names(x, op.call.org, op.call.traceId, x.seqNo)
    && (x.status == Some(Flagged) || x.status == Some(Blocked))
    && op.call.evaluation.Judged?
    && DeriveStatus(op.call.evaluation.allowed, op.call.evaluation.tier, op.call.evaluation.anyFinding) == Compliant
  }

  lemma FixStep(s: State, op: Op, i: nat)
    requires Inv(s) && i < |s.summaries|
    ensures i < |Step(s, op).summaries| && SameButCure(s.summaries[i], Step(s, op).summaries[i])
    ensures Step(s, op).summaries[i].remediatedBy.Some? <==>
            s.summaries[i].remediatedBy.Some? || Fixes(s.summaries[i], op)
  {
    OnlyCompliantFixCloses(s, op, i);
    if Fixes(s.summaries[i], op) {
      CompliantFixCloses(s, op.call, i);
    }
  }

  /** Row x has become `now` over the operations `more`. */
  ghost predicate Became(x: Summary, now: Summary, more: seq<Op>) {
    && SameButCure(x, now)
    && (now.remediatedBy.Some? <==> x.remediatedBy.Some? || exists k :: 0 <= k < |more| && Fixes(x, more[k]))
  }

  lemma BecameStep(x: Summary, mid: Summary, now: Summary, more: seq<Op>, op: Op)
    requires Became(x, mid, more) && SameButCure(mid, now)
    requires now.remediatedBy.Some? <==> mid.remediatedBy.Some? || Fixes(mid, op)
    ensures Became(x, now, more + [op])
  {
    assert Fixes(mid, op) == Fixes(x, op);
    assert (more + [op])[|more|] == op;
    assert forall k :: 0 <= k < |more| ==> (more + [op])[k] == more[k];
  }

  lemma RunSnoc(ops: seq<Op>, op: Op)
    ensures Run(ops + [op]) == Step(Run(ops), op)
  {
    assert (ops + [op])[..|ops|] == ops;
  }

  /**
   Over whole runs: nothing about a decision ever changes but its cure mark, and it carries one if and only if
   some gate call since then named it and was itself judged compliant. Failed fixes leave it open.
   */
  lemma {:induction false} FlagClosesExactly(ops: seq<Op>, more: seq<Op>, i: nat)
    requires i < |Run(ops).summaries|
    ensures i < |Run(ops + more).summaries| && Became(Run(ops).summaries[i], Run(ops + more).summaries[i], more)
    decreases |more|
  {
    if more == [] {
      assert ops + more == ops;
    } else {
      var n := |more| - 1;
      var s := Run(ops + more[..n]);
      FlagClosesExactly(ops, more[..n], i);
      ReachableInv(ops + more[..n]);
      FixStep(s, more[n], i);
      BecameStep(Run(ops).summaries[i], s.summaries[i], Step(s, more[n]).summaries[i], more[..n], more[n]);
      RunSnoc(ops + more[..n], more[n]);
      assert more[..n] + [more[n]] == more;
      assert ops + more == ops + more[..n] + [more[n]];
    }
  }

  // ---------------------------------------------------------------------------------------
  // What the caller is told
  // ---------------------------------------------------------------------------------------

  /** Blocked when refused or when the engine failed closed, flagged for a serious tier or any finding. */
  predicate AnswersEvaluation(e: Evaluation, status: Status) {
    && (status == Unevaluated <==> e.NoPolicy?)
    && (status == Blocked <==> e.FailClosed? || (e.Judged? && !e.allowed))
    && (status == Flagged <==> e.Judged? && e.allowed && (e.tier == Orange || e.tier == Red || e.anyFinding))
    && (status == Compliant <==> e.Judged? && e.allowed && (e.tier == Green || e.tier == Yellow) && !e.anyFinding)
  }

  /** The row of a decision says what the caller was told. */
  predicate RecordsReply(row: Summary, c: GateCall, reply: GateReply) {
    && row.org == c.org && row.traceId == c.traceId && Some(row.seqNo) == reply.decisionSeq
    && row.status == Some(reply.status) && row.outputSeq == Some(reply.outputSeq) && row.remediationOf == c.remediates
  }

  /** What an answered call leaves: one event more without a policy, else two, and the row of a judged output. */
  ghost predicate Leaves(s: State, c: GateCall, s': State, reply: GateReply) {
    var before := if c.traceId in s.tip then s.tip[c.traceId] else 0;
    && s'.owner == s.owner[c.traceId := c.org]
    && reply.outputSeq == (if c.evaluation.NoPolicy? then before + 1 else before + 2)
    && reply.decisionSeq == (if c.evaluation.NoPolicy? then None else Some(before + 1))
    && reply.outputSeq >= 0 && s'.tip == s.tip[c.traceId := reply.outputSeq]
    && (!c.evaluation.Judged? ==> s'.summaries == s.summaries)
    && (c.evaluation.Judged? ==>
          |s'.summaries| == |s.summaries| + 1 && RecordsReply(s'.summaries[|s.summaries|], c, reply))
  }

  /** The reply fits the evaluation, numbers the events that were recorded, and is what the decision's row says. */
  lemma ReplyExactly(s: State, c: GateCall)
    ensures Gated(s, c).Ok? ==>
      && AnswersEvaluation(c.evaluation, Gated(s, c).value.1.status)
      && Leaves(s, c, Gated(s, c).value.0, Gated(s, c).value.1)
  {
  }

  /** The decision a call may remediate: named by it, the caller's, and flagged or blocked. */
  ghost predicate MayRemediate(s: State, c: GateCall) {
    c.supplied && exists i :: 0 <= i < |s.summaries| && RemediableRow(s.summaries[i], c)
  }

  predicate RemediableRow(row: Summary, c: GateCall) {
    && row.org == c.org && row.traceId == c.traceId && c.remediates == Some(row.seqNo)
    && (row.status == Some(Flagged) || row.status == Some(Blocked))
  }

  /** In every reachable state: which calls are answered, and the error of each of the others. */
  lemma AnsweredExactly(ops: seq<Op>, c: GateCall)
    ensures var s := Run(ops);
            var foreign := c.traceId in s.owner && s.owner[c.traceId] != c.org;
            var target := c.remediates.None? || MayRemediate(s, c);
            && (Gated(s, c).Ok? <==> target && !foreign && !IsBlank(c.action))
            && (Gated(s, c) == Err(NeedsTrace) <==> c.remediates.Some? && !c.supplied)
            && (Gated(s, c) == Err(NothingToRemediate) || Gated(s, c) == Err(NotADecision) <==>
                  c.remediates.Some? && c.supplied && !MayRemediate(s, c))
            && (Gated(s, c) == Err(TraceAccessDenied) <==> target && foreign)
            && (Gated(s, c) == Err(InvalidEventType) <==> target && !foreign && IsBlank(c.action))
  {
    ReachableInv(ops);
    var s := Run(ops);
    if c.remediates.Some? && c.supplied {
      var f := Find(s.summaries, c.org, c.traceId, c.remediates.value);
      forall i | 0 <= i < |s.summaries| && RemediableRow(s.summaries[i], c)
        ensures f == Some(i)
      {
        assert Names(s.summaries[i], c.org, c.traceId, c.remediates.value);
        NamedOnce(s.summaries, f.value, i);
      }
      if f.Some? && (s.summaries[f.value].status == Some(Flagged) || s.summaries[f.value].status == Some(Blocked)) {
        assert RemediableRow(s.summaries[f.value], c);
      }
    }
  }

  /**
   What the caller is told fits the evaluation, in any state, and stays on record: whatever follows, the row of a
   judged output carries the very status and output number of the reply.
   */
  lemma ReplyStaysRecorded(ops: seq<Op>, c: GateCall, more: seq<Op>)
    requires Gated(Run(ops), c).Ok?
    ensures var reply, i := Gated(Run(ops), c).value.1, |Run(ops).summaries|;
            && AnswersEvaluation(c.evaluation, reply.status)
            && (c.evaluation.Judged? ==>
                  && i < |Run(ops + [RunGate(c)] + more).summaries|
                  && RecordsReply(Run(ops + [RunGate(c)] + more).summaries[i], c, reply))
  {
    RunSnoc(ops, RunGate(c));
    if c.evaluation.Judged? {
      FlagClosesExactly(ops + [RunGate(c)], more, |Run(ops).summaries|);
    }
  }

  // ---------------------------------------------------------------------------------------
  // The service
  // ---------------------------------------------------------------------------------------

  class GateService {
    var owner: map<string, string>
    var tip: map<string, nat>
    var summaries: seq<Summary>

    ghost function View(): State
      reads this
    {
      State(owner, tip, summaries)
    }

    constructor ()
      ensures View() == EMPTY
    {
      owner, tip, summaries := map[], map[], [];
    }

    method ValidateRemediates(c: GateCall) returns (r: Result<nat, GateError>)
      requires c.remediates.Some?
      ensures match Remediated(View(), c)
              case Ok(i) => i.Some? && r == Ok(i.value)
              case Err(e) => r == Err(e)
    {
      if !c.supplied {
        return Err(NeedsTrace);
      }
      var i := Find(summaries, c.org, c.traceId, c.remediates.value);
      if i.None? {
        return Err(NotADecision);
      }
      var status := summaries[i.value].status;
      if status != Some(Flagged) && status != Some(Blocked) {
        return Err(NothingToRemediate);
      }
      return Ok(i.value);
    }

    /** Append one event to the trace and return its number. */
    method RecordEvent(traceId: string) returns (seqNo: nat)
      modifies this`tip
      ensures seqNo == Tip(old(View()), traceId) + 1 && tip == old(tip)[traceId := seqNo]
    {
      seqNo := (if traceId in tip then tip[traceId] else 0) + 1;
      tip := tip[traceId := seqNo];
    }

    method RunGate(c: GateCall) returns (r: Result<GateReply, GateError>)
      modifies this
      ensures match Gated(old(View()), c)
              case Ok(done) => View() == done.0 && r == Ok(done.1)
              case Err(e) => View() == old(View()) && r == Err(e)
      ensures r.Ok? ==> AnswersEvaluation(c.evaluation, r.value.status) && Leaves(old(View()), c, View(), r.value)
    {
      ReplyExactly(View(), c);
      var target: Option<nat> := None;
      if c.remediates.Some? {
        var v := ValidateRemediates(c);
        if v.Err? {
          return Err(v.error);
        }
        target := Some(v.value);
      }
      if c.traceId in owner && owner[c.traceId] != c.org {
        return Err(TraceAccessDenied);
      }
      // The output's event is refused after the decision's was recorded, and the transaction undone.
      if IsBlank(c.action) {
        return Err(InvalidEventType);
      }
      owner := owner[c.traceId := c.org];
      if c.evaluation.NoPolicy? {
        var only := RecordEvent(c.traceId);
        return Ok(GateReply(Unevaluated, None, only));
      }
      if c.evaluation.FailClosed? {
        var refusal := RecordEvent(c.traceId);
        var output := RecordEvent(c.traceId);
        return Ok(GateReply(Blocked, Some(refusal), output));
      }
      var reply := RecordVerdict(c, target);
      return Ok(reply);
    }

    /** Record a judged output: decision event and row, output event, verdict stamped, cure closed. */
    method RecordVerdict(c: GateCall, target: Option<nat>) returns (reply: GateReply)
      requires c.evaluation.Judged? && (target.Some? ==> target.value < |summaries|)
      modifies this`tip, this`summaries
      ensures var n := Tip(old(View()), c.traceId);
              var status := DeriveStatus(c.evaluation.allowed, c.evaluation.tier, c.evaluation.anyFinding);
              var rows := if target.Some? && status == Compliant then Marked(old(summaries), target.value, n + 1)
                          else old(summaries);
              && reply == GateReply(status, Some(n + 1), n + 2)
              && tip == old(tip)[c.traceId := n + 2]
              && summaries == rows + [Summary(c.org, c.traceId, n + 1, Some(status), Some(n + 2), c.remediates, None)]
    {
      var decisionSeq := RecordEvent(c.traceId);
      var row := |summaries|;
      summaries := summaries + [Summary(c.org, c.traceId, decisionSeq, None, None, c.remediates, None)];
      var outputSeq := RecordEvent(c.traceId);
      var status := DeriveStatus(c.evaluation.allowed, c.evaluation.tier, c.evaluation.anyFinding);
      summaries := summaries[row := summaries[row].(status := Some(status), outputSeq := Some(outputSeq))];
      if target.Some? && status == Compliant {
        summaries := summaries[target.value := summaries[target.value].(remediatedBy := Some(decisionSeq))];
      }
      reply := GateReply(status, Some(decisionSeq), outputSeq);
    }
  }
}
