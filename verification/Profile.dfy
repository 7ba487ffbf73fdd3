/**
 Institution profiles and the rulebooks they imply (app/services/org_profile.py,
 app/services/regulation_packs.py).

 Lists the source sorts and de-duplicates are sets here. The catalogue of pack rows is fixed while
 profiles change; a pack code may have several rows, one per published version.
 */
module Profile {
  import opened Prelude

  /** One published pack version: where it applies. `latest` rows are numbered higher. */
  datatype PackRow = PackRow(code: string, jurisdictions: set<string>, sectors: set<string>)

  datatype Declared = Declared(jurisdictions: set<string>, sectors: set<string>)

  datatype ChangeStatus = Pending | Approved | Denied

  datatype ChangeRequest = ChangeRequest(proposal: Declared, removed: set<string>, status: ChangeStatus)

  /** Known jurisdiction and sector codes, and the pack rows in order of publication. */
  datatype Catalogue = Catalogue(jurisdictions: set<string>, sectors: set<string>, packs: seq<PackRow>)

  /** `subscribed` holds pack row ids. */
  datatype Org = Org(profile: Option<Declared>, subscribed: set<nat>, requests: seq<ChangeRequest>)

  const NEW_ORG := Org(None, {}, [])

  // ---------------------------------------------------------------------------------------
  // What a profile implies
  // ---------------------------------------------------------------------------------------

  /** Both the jurisdiction and the sector must be reached; "*" reaches everyone. */
  predicate PackApplies(p: PackRow, d: Declared) {
    && ("*" in p.jurisdictions || p.jurisdictions * d.jurisdictions != {})
    && ("*" in p.sectors || p.sectors * d.sectors != {})
  }

  function Derived(c: Catalogue, d: Declared): set<string> {
    set i: nat | i < |c.packs| && PackApplies(c.packs[i], d) :: c.packs[i].code
  }

  function DerivedFor(c: Catalogue, o: Org): set<string> {
    if o.profile.None? then {} else Derived(c, o.profile.value)
  }

  /** Subscribed row ids exist in the catalogue. */
  ghost predicate Known(c: Catalogue, subscribed: set<nat>) {
    forall i :: i in subscribed ==> i < |c.packs|
  }

  function AppliedCodes(c: Catalogue, subscribed: set<nat>): set<string> {
    set i: nat | i in subscribed && i < |c.packs| :: c.packs[i].code
  }

  /** Newest row of a code. */
  function LatestRow(packs: seq<PackRow>, code: string): (r: Option<nat>)
    ensures r.Some? ==> r.value < |packs| && packs[r.value].code == code
    ensures r.Some? ==> forall i :: r.value < i < |packs| ==> packs[i].code != code
    ensures r.None? ==> forall i :: 0 <= i < |packs| ==> packs[i].code != code
  {
    if packs == [] then None
    else
      var n := |packs| - 1;
      if packs[n].code == code then Some(n) else LatestRow(packs[..n], code)
  }

  function RowsOf(c: Catalogue, subscribed: set<nat>, code: string): set<nat> {
    set i: nat | i in subscribed && i < |c.packs| && c.packs[i].code == code
  }

  // ---------------------------------------------------------------------------------------
  // Reconciling
  // ---------------------------------------------------------------------------------------

  /** A required code keeps its rows; one with none gets its newest row. */
  ghost predicate KeptAt(c: Catalogue, before: set<nat>, after: set<nat>, code: string) {
    RowsOf(c, after, code) ==
      if RowsOf(c, before, code) == {} && LatestRow(c.packs, code).Some?
      then {LatestRow(c.packs, code).value} else RowsOf(c, before, code)
  }

  /** Of a code no longer required exactly one row is deleted: the one its entry was keyed by. */
  ghost predicate DroppedAt(c: Catalogue, before: set<nat>, after: set<nat>, code: string) {
    if RowsOf(c, before, code) == {} then RowsOf(c, after, code) == {}
    else exists i :: i in RowsOf(c, before, code) && RowsOf(c, after, code) == RowsOf(c, before, code) - {i}
  }

  /** What reconciling may leave. */
  ghost predicate Reconciled(c: Catalogue, before: set<nat>, required: set<string>, after: set<nat>) {
    && (forall code :: code in required ==> KeptAt(c, before, after, code))
    && (forall code :: code !in required ==> DroppedAt(c, before, after, code))
    && Known(c, after)
  }

  /** No later version of this pack was published. */
  ghost predicate IsNewest(c: Catalogue, row: nat) {
    row < |c.packs| && forall i :: row < i < |c.packs| ==> c.packs[i].code != c.packs[row].code
  }

  ghost predicate OneRowDeleted(c: Catalogue, before: set<nat>, after: set<nat>, code: string) {
    exists row :: row in before && row < |c.packs| && c.packs[row].code == code && row !in after
                  && forall i :: i in before && i < |c.packs| && c.packs[i].code == code && i != row ==> i in after
  }

  /** Row by row: a required code keeps its rows, a row that is new is the newest of its code, and one row goes. */
  lemma ReconciledRows(c: Catalogue, before: set<nat>, required: set<string>, after: set<nat>)
    requires Known(c, before) && Reconciled(c, before, required, after)
    ensures forall row :: row in before && c.packs[row].code in required ==> row in after
    ensures forall row :: row in after && row !in before ==>
      c.packs[row].code in required - AppliedCodes(c, before) && IsNewest(c, row)
    ensures forall code :: code in AppliedCodes(c, before) - required ==> OneRowDeleted(c, before, after, code)
  {
    forall row | row in before || row in after
      ensures row in before && c.packs[row].code in required ==> row in after
      ensures row in after && row !in before ==>
        c.packs[row].code in required - AppliedCodes(c, before) && IsNewest(c, row)
    {
      var code := c.packs[row].code;
      AppliedIffRows(c, before, code);
      assert row in before <==> row in RowsOf(c, before, code);
      assert row in after <==> row in RowsOf(c, after, code);
      assert if code in required then KeptAt(c, before, after, code) else DroppedAt(c, before, after, code);
    }
    forall code | code in AppliedCodes(c, before) - required
      ensures OneRowDeleted(c, before, after, code)
    {
      AppliedIffRows(c, before, code);
      assert DroppedAt(c, before, after, code);
      var row :| row in RowsOf(c, before, code) && RowsOf(c, after, code) == RowsOf(c, before, code) - {row};
      forall i | i in before && i < |c.packs| && c.packs[i].code == code && i != row
        ensures i in after
      {
        assert i in RowsOf(c, after, code);
      }
      assert row !in RowsOf(c, after, code);
    }
  }

  /** One subscription row per code. */
  ghost predicate OneRowPerCode(c: Catalogue, subscribed: set<nat>) {
    forall i, j :: i in subscribed && j in subscribed && i < |c.packs| && j < |c.packs| ==>
      c.packs[i].code == c.packs[j].code ==> i == j
  }

  lemma AppliedIffRows(c: Catalogue, subscribed: set<nat>, code: string)
    ensures code in AppliedCodes(c, subscribed) <==> RowsOf(c, subscribed, code) != {}
  {
    if code in AppliedCodes(c, subscribed) {
      var i :| i in subscribed && i < |c.packs| && c.packs[i].code == code;
      assert i in RowsOf(c, subscribed, code);
    }
    if RowsOf(c, subscribed, code) != {} {
      var i :| i in RowsOf(c, subscribed, code);
      assert c.packs[i].code in AppliedCodes(c, subscribed);
    }
  }

  /**
   After reconciling, the applied codes are the required ones exactly when no code that fell away had more
   than one subscription row.
   */
  lemma ReconcileExactly(c: Catalogue, before: set<nat>, required: set<string>, after: set<nat>)
    requires Reconciled(c, before, required, after)
    requires forall code :: code in required ==> exists i :: 0 <= i < |c.packs| && c.packs[i].code == code
    ensures AppliedCodes(c, after) == required <==> forall code :: code !in required ==> |RowsOf(c, before, code)| <= 1
  {
    forall code: string
      ensures code in required ==> code in AppliedCodes(c, after)
      ensures code !in required ==> (code in AppliedCodes(c, after) <==> |RowsOf(c, before, code)| > 1)
    {
      AppliedIffRows(c, after, code);
      if code in required {
        assert KeptAt(c, before, after, code);
      } else {
        assert DroppedAt(c, before, after, code);
        RemovedRows(c, before, code, after);
      }
    }
  }

  /**
   How a code comes to have two rows, and what then goes wrong: an organisation carries a pack, a new version
   of it is published, and an operator applies the pack again. When nothing requires the code any more,
   reconciling deletes one row and the pack stays applied.
   */
  lemma TwoRowsSurvive(old1: PackRow, new2: PackRow, after: set<nat>)
    requires old1.code == new2.code
    requires var before := Catalogue({}, {}, [old1]);
             var now := Catalogue({}, {}, [old1, new2]);
             var first := WithRow({}, LatestRow(before.packs, old1.code));
             var both := WithRow(first, LatestRow(now.packs, old1.code));
             Reconciled(now, both, {}, after)
    ensures old1.code in AppliedCodes(Catalogue({}, {}, [old1, new2]), after)
  {
    var c := Catalogue({}, {}, [old1, new2]);
    var both := WithRow(WithRow({}, LatestRow([old1], old1.code)), LatestRow(c.packs, old1.code));
    assert both == {0, 1};
    assert RowsOf(c, both, old1.code) == {0, 1};
    assert DroppedAt(c, both, after, old1.code);
    RemovedRows(c, both, old1.code, after);
    AppliedIffRows(c, after, old1.code);
  }

  lemma RemovedRows(c: Catalogue, before: set<nat>, code: string, after: set<nat>)
    requires DroppedAt(c, before, after, code)
    ensures RowsOf(c, after, code) != {} <==> |RowsOf(c, before, code)| > 1
  {
    var rows := RowsOf(c, before, code);
    if rows != {} {
      var i :| i in rows && RowsOf(c, after, code) == rows - {i};
      assert |rows - {i}| == |rows| - 1;
    }
  }

  lemma SingleRowCount(c: Catalogue, subscribed: set<nat>, code: string)
    requires OneRowPerCode(c, subscribed)
    ensures |RowsOf(c, subscribed, code)| <= 1
  {
    var rows := RowsOf(c, subscribed, code);
    if rows != {} {
      var i :| i in rows;
      assert rows == {i};
    }
  }

  lemma SingleRow(c: Catalogue, subscribed: set<nat>, code: string)
    requires OneRowPerCode(c, subscribed)
    ensures forall i, j :: i in RowsOf(c, subscribed, code) && j in RowsOf(c, subscribed, code) ==> i == j
  {
  }

  lemma ReconcileKeepsSingleRows(c: Catalogue, before: set<nat>, required: set<string>, after: set<nat>)
    requires Reconciled(c, before, required, after) && OneRowPerCode(c, before)
    ensures OneRowPerCode(c, after)
  {
    forall i, j | i in after && j in after && i < |c.packs| && j < |c.packs| && c.packs[i].code == c.packs[j].code
      ensures i == j
    {
      var code := c.packs[i].code;
      assert i in RowsOf(c, after, code) && j in RowsOf(c, after, code);
      assert if code in required then KeptAt(c, before, after, code) else DroppedAt(c, before, after, code);
      SingleRow(c, before, code);
    }
  }

  // ---------------------------------------------------------------------------------------
  // Operations
  // ---------------------------------------------------------------------------------------

  datatype ProfileError = UnknownCode | EmptyProfile | ReasonRequired | RequestNotFound

  /** Stripped, non-empty codes, all of them known; "internal" is not a jurisdiction one can declare. */
  function Validated(c: Catalogue, d: Declared): Result<Declared, ProfileError> {
    if !(d.jurisdictions <= c.jurisdictions - {"internal"}) || !(d.sectors <= c.sectors) then Err(UnknownCode)
    else if d.jurisdictions == {} || d.sectors == {} then Err(EmptyProfile)
    else Ok(d)
  }

  function Removed(o: Org, d: Declared): set<string> {
    if o.profile.None? then {}
    else (o.profile.value.jurisdictions - d.jurisdictions) + (o.profile.value.sectors - d.sectors)
  }

  /** The profile is replaced and the applied rulebooks reconciled with it. */
  ghost predicate Applied(c: Catalogue, o: Org, d: Declared, o': Org) {
    && o'.profile == Some(d) && o'.requests == o.requests
    && Reconciled(c, o.subscribed, Derived(c, d), o'.subscribed)
  }

  datatype Op = SetProfile(declared: Declared, reason: string) | Decide(request: nat, approve: bool)

  ghost predicate ProfileSet(c: Catalogue, o: Org, d: Declared, reason: string, o': Org) {
    var v := Validated(c, d);
    if v.Err? then o' == o
    else if Removed(o, d) != {} then
      if IsBlank(reason) then o' == o
      else o' == o.(requests := o.requests + [ChangeRequest(d, Removed(o, d), Pending)])
    else Applied(c, o, d, o')
  }

  ghost predicate Decided(c: Catalogue, o: Org, i: nat, approve: bool, o': Org) {
    if i >= |o.requests| || o.requests[i].status != Pending then o' == o
    else
      var marked := o.(requests := o.requests[i := o.requests[i].(status := if approve then Approved else Denied)]);
      if approve then Applied(c, marked, o.requests[i].proposal, o') else o' == marked
  }

  ghost predicate Next(c: Catalogue, o: Org, op: Op, o': Org) {
    match op
    case SetProfile(d, reason) => ProfileSet(c, o, d, reason, o')
    case Decide(i, approve) => Decided(c, o, i, approve, o')
  }

  ghost predicate Trace(c: Catalogue, os: seq<Org>, ops: seq<Op>) {
    && |os| == |ops| + 1 && os[0] == NEW_ORG
    && forall k :: 0 <= k < |ops| ==> NextAt(c, os, ops, k)
  }

  ghost predicate NextAt(c: Catalogue, os: seq<Org>, ops: seq<Op>, k: nat)
    requires k < |ops| && |os| == |ops| + 1
  {
    Next(c, os[k], ops[k], os[k + 1])
  }

  // ---------------------------------------------------------------------------------------
  // Obligations are not shed
  // ---------------------------------------------------------------------------------------

  ghost predicate Within(d: Declared, e: Declared) {
    d.jurisdictions <= e.jurisdictions && d.sectors <= e.sectors
  }

  /** Declaring more never implies fewer rulebooks. */
  lemma DerivedMonotone(c: Catalogue, d: Declared, e: Declared)
    requires Within(d, e)
    ensures Derived(c, d) <= Derived(c, e)
  {
    forall code | code in Derived(c, d)
      ensures code in Derived(c, e)
    {
      var i :| 0 <= i < |c.packs| && PackApplies(c.packs[i], d) && c.packs[i].code == code;
      assert PackApplies(c.packs[i], e) by {
        assert c.packs[i].jurisdictions * d.jurisdictions <= c.packs[i].jurisdictions * e.jurisdictions;
        assert c.packs[i].sectors * d.sectors <= c.packs[i].sectors * e.sectors;
      }
    }
  }

  ghost predicate Inv(c: Catalogue, o: Org) {
    && Known(c, o.subscribed) && OneRowPerCode(c, o.subscribed)
    && AppliedCodes(c, o.subscribed) == DerivedFor(c, o)
  }

  lemma AppliedKeepsInv(c: Catalogue, o: Org, d: Declared, o': Org)
    requires Inv(c, o) && Applied(c, o, d, o')
    ensures Inv(c, o')
  {
    ReconcileKeepsSingleRows(c, o.subscribed, Derived(c, d), o'.subscribed);
    forall code: string
      ensures |RowsOf(c, o.subscribed, code)| <= 1
    {
      SingleRowCount(c, o.subscribed, code);
    }
    forall code | code in Derived(c, d)
      ensures exists i :: 0 <= i < |c.packs| && c.packs[i].code == code
    {
      var i :| 0 <= i < |c.packs| && PackApplies(c.packs[i], d) && c.packs[i].code == code;
    }
    ReconcileExactly(c, o.subscribed, Derived(c, d), o'.subscribed);
  }

  lemma {:induction false} ReachableInv(c: Catalogue, os: seq<Org>, ops: seq<Op>, k: nat)
    requires Trace(c, os, ops) && k < |os|
    ensures Inv(c, os[k])
    decreases k
  {
    if k > 0 {
      ReachableInv(c, os, ops, k - 1);
      var o, o' := os[k - 1], os[k];
      assert NextAt(c, os, ops, k - 1);
      if o'.profile != o.profile || o'.subscribed != o.subscribed {
        StepIsApplied(c, o, ops[k - 1], o');
        AppliedKeepsInv(c, o.(requests := o'.requests), o'.profile.value, o');
      }
    }
  }

  lemma StepIsApplied(c: Catalogue, o: Org, op: Op, o': Org)
    requires Next(c, o, op, o') && (o'.profile != o.profile || o'.subscribed != o.subscribed)
    ensures o'.profile.Some? && Applied(c, o.(requests := o'.requests), o'.profile.value, o')
  {
  }

  /** An approval of a pending request. */
  predicate Approves(o: Org, op: Op) {
    op.Decide? && op.approve && op.request < |o.requests| && o.requests[op.request].status == Pending
  }

  /** The institution's declared jurisdictions, sectors and derived rulebooks did not shrink. */
  ghost predicate NothingShed(c: Catalogue, o: Org, o': Org) {
    && (o.profile.Some? ==> o'.profile.Some? && Within(o.profile.value, o'.profile.value))
    && DerivedFor(c, o) <= DerivedFor(c, o')
    && AppliedCodes(c, o.subscribed) <= AppliedCodes(c, o'.subscribed)
  }

  lemma NothingRemoved(s: set<string>, t: set<string>)
    ensures s - t == {} <==> s <= t
  {
    forall x | x in s
      ensures x in t || x in s - t
    {
    }
  }

  lemma UpdateGrows(c: Catalogue, o: Org, op: Op, o': Org)
    requires Next(c, o, op, o') && (op.SetProfile? || !op.approve) && Inv(c, o) && Inv(c, o')
    ensures NothingShed(c, o, o')
  {
    if o'.profile != o.profile && o.profile.Some? {
      var d := op.declared;
      assert Removed(o, d) == {};
      NothingRemoved(o.profile.value.jurisdictions, d.jurisdictions);
      NothingRemoved(o.profile.value.sectors, d.sectors);
      DerivedMonotone(c, o.profile.value, d);
    }
  }

  /**
   Over every run: after each step the applied rulebooks are exactly the derived ones; customer updates and
   denials never shed a jurisdiction, a sector or a rulebook; and an approval leads to exactly what the
   approved request's stored proposal derives.
   */
  lemma ObligationsNotShed(c: Catalogue, os: seq<Org>, ops: seq<Op>, k: nat)
    requires Trace(c, os, ops) && k < |ops|
    ensures AppliedCodes(c, os[k + 1].subscribed) == DerivedFor(c, os[k + 1])
    ensures ops[k].SetProfile? || !ops[k].approve ==> NothingShed(c, os[k], os[k + 1])
    ensures var o, o' := os[k], os[k + 1];
            Approves(o, ops[k]) ==>
              && o'.profile == Some(o.requests[ops[k].request].proposal)
              && AppliedCodes(c, o'.subscribed) == Derived(c, o.requests[ops[k].request].proposal)
    ensures !NothingShed(c, os[k], os[k + 1]) ==>
              Approves(os[k], ops[k])
  {
    ReachableInv(c, os, ops, k);
    ReachableInv(c, os, ops, k + 1);
    var o, o' := os[k], os[k + 1];
    assert NextAt(c, os, ops, k);
    if ops[k].SetProfile? || !ops[k].approve {
      UpdateGrows(c, o, ops[k], o');
    }
  }

  /**
   In every reachable state a rulebook is applied exactly when a profile is declared and some published version
   of it reaches the profile on both axes: it is open to every jurisdiction or to one of the profile's, and to
   every sector or to one of the profile's.
   */
  lemma AppliedReachesExactly(c: Catalogue, os: seq<Org>, ops: seq<Op>, k: nat, code: string)
    requires Trace(c, os, ops) && k < |os|
    ensures (exists row :: row in os[k].subscribed && row < |c.packs| && c.packs[row].code == code) <==>
            && os[k].profile.Some?
            && exists i :: 0 <= i < |c.packs| && c.packs[i].code == code
                 && ("*" in c.packs[i].jurisdictions
                     || exists j :: j in c.packs[i].jurisdictions && j in os[k].profile.value.jurisdictions)
                 && ("*" in c.packs[i].sectors
                     || exists s :: s in c.packs[i].sectors && s in os[k].profile.value.sectors)
  {
    ReachableInv(c, os, ops, k);
    assert code in AppliedCodes(c, os[k].subscribed) <==>
           exists row :: row in os[k].subscribed && row < |c.packs| && c.packs[row].code == code;
    if os[k].profile.Some? {
      var d := os[k].profile.value;
      forall i | 0 <= i < |c.packs|
        ensures PackApplies(c.packs[i], d) <==>
                && ("*" in c.packs[i].jurisdictions
                    || exists j :: j in c.packs[i].jurisdictions && j in d.jurisdictions)
                && ("*" in c.packs[i].sectors || exists s :: s in c.packs[i].sectors && s in d.sectors)
      {
        PackAppliesExactly(c.packs[i], d);
      }
    }
  }

  lemma SharesCode(a: set<string>, b: set<string>)
    ensures a * b != {} <==> exists x :: x in a && x in b
  {
    if exists x :: x in a && x in b {
      var x :| x in a && x in b;
      assert x in a * b;
    } else {
      assert a * b == {};
    }
  }

  lemma PackAppliesExactly(p: PackRow, d: Declared)
    ensures PackApplies(p, d) <==>
            && ("*" in p.jurisdictions || exists j :: j in p.jurisdictions && j in d.jurisdictions)
            && ("*" in p.sectors || exists s :: s in p.sectors && s in d.sectors)
  {
    SharesCode(p.jurisdictions, d.jurisdictions);
    SharesCode(p.sectors, d.sectors);
  }

  /** Known codes on both axes, at least one on each, and not the internal jurisdiction. */
  ghost predicate Acceptable(c: Catalogue, d: Declared) {
    && (forall j :: j in d.jurisdictions ==> j in c.jurisdictions && j != "internal")
    && (forall s :: s in d.sectors ==> s in c.sectors)
    && (exists j :: j in d.jurisdictions) && (exists s :: s in d.sectors)
  }

  /** Over every run: what is declared, and what requests propose, is always acceptable. */
  lemma {:induction false} ProfilesAcceptable(c: Catalogue, os: seq<Org>, ops: seq<Op>, k: nat)
    requires Trace(c, os, ops) && k < |os|
    ensures os[k].profile.Some? ==> Acceptable(c, os[k].profile.value)
    ensures forall i :: 0 <= i < |os[k].requests| ==> Acceptable(c, os[k].requests[i].proposal)
    decreases k
  {
    if k > 0 {
      ProfilesAcceptable(c, os, ops, k - 1);
      assert NextAt(c, os, ops, k - 1);
      if ops[k - 1].SetProfile? {
        ValidatedExactly(c, ops[k - 1].declared);
      }
    }
  }

  lemma SomeMember(s: set<string>)
    ensures s != {} <==> exists x :: x in s
  {
    if s != {} {
      var x :| x in s;
    }
  }

  lemma ValidatedExactly(c: Catalogue, d: Declared)
    ensures Validated(c, d).Ok? <==> Acceptable(c, d)
    ensures Validated(c, d) == Err(UnknownCode) <==>
            || (exists j :: j in d.jurisdictions && (j !in c.jurisdictions || j == "internal"))
            || (exists s :: s in d.sectors && s !in c.sectors)
  {
    SomeMember(d.jurisdictions);
    SomeMember(d.sectors);
  }

  /**
   An approval sheds nothing exactly when the stored proposal still covers the profile as it stands at the
   moment of approval, however it looked when the request was raised.
   */
  lemma ApprovalShedsExactly(c: Catalogue, os: seq<Org>, ops: seq<Op>, k: nat)
    requires Trace(c, os, ops) && k < |ops| && Approves(os[k], ops[k])
    ensures NothingShed(c, os[k], os[k + 1]) <==>
            os[k].profile.None? || Within(os[k].profile.value, os[k].requests[ops[k].request].proposal)
  {
    ReachableInv(c, os, ops, k);
    ReachableInv(c, os, ops, k + 1);
    var o, o' := os[k], os[k + 1];
    assert NextAt(c, os, ops, k);
    if o.profile.Some? && Within(o.profile.value, o'.profile.value) {
      DerivedMonotone(c, o.profile.value, o'.profile.value);
    }
  }

  /** A request approved late applies what it proposed then, shedding what was declared since. */
  lemma LateApprovalSheds(c: Catalogue, os: seq<Org>, ops: seq<Op>)
    requires {"A", "B", "C"} <= c.jurisdictions && {"s"} <= c.sectors
    requires ops == [SetProfile(Declared({"A", "B"}, {"s"}), ""), SetProfile(Declared({"A"}, {"s"}), "leaving B"),
                     SetProfile(Declared({"A", "B", "C"}, {"s"}), ""), Decide(0, true)]
    requires Trace(c, os, ops)
    ensures os[3].profile == Some(Declared({"A", "B", "C"}, {"s"})) && os[4].profile == Some(Declared({"A"}, {"s"}))
  {
    assert NextAt(c, os, ops, 0);
    assert os[1].profile == Some(Declared({"A", "B"}, {"s"}));
    assert NextAt(c, os, ops, 1);
    assert "B" in Removed(os[1], Declared({"A"}, {"s"}));
    assert "leaving B"[0] == 'l';
    assert !IsBlank("leaving B");
    var less := Declared({"A"}, {"s"});
    assert os[2] == os[1].(requests := [ChangeRequest(less, Removed(os[1], less), Pending)]);
    assert NextAt(c, os, ops, 2);
    assert NextAt(c, os, ops, 3);
  }

  // ---------------------------------------------------------------------------------------
  // The two reconciling loops, one code at a time
  // ---------------------------------------------------------------------------------------

  /** With the codes `done` subscribed on top of `before`. */
  ghost predicate AddedAt(c: Catalogue, before: set<nat>, done: set<string>, after: set<nat>, code: string) {
    RowsOf(c, after, code) ==
      if code in done && LatestRow(c.packs, code).Some? then RowsOf(c, before, code) + {LatestRow(c.packs, code).value}
      else RowsOf(c, before, code)
  }

  /** With one row of each code in `done` deleted from `before`. */
  ghost predicate LeftAt(c: Catalogue, before: set<nat>, done: set<string>, after: set<nat>, code: string) {
    if code in done then
      exists i :: i in RowsOf(c, before, code) && RowsOf(c, after, code) == RowsOf(c, before, code) - {i}
    else RowsOf(c, after, code) == RowsOf(c, before, code)
  }

  ghost predicate AllAdded(c: Catalogue, before: set<nat>, done: set<string>, after: set<nat>) {
    forall code :: AddedAt(c, before, done, after, code)
  }

  function WithRow(rows: set<nat>, row: Option<nat>): set<nat> {
    if row.Some? then rows + {row.value} else rows
  }

  lemma AddedStep(c: Catalogue, before: set<nat>, done: set<string>, now: set<nat>, code: string, other: string)
    requires AddedAt(c, before, done, now, other) && code !in done
    ensures var row := LatestRow(c.packs, code);
            AddedAt(c, before, done + {code}, WithRow(now, row), other)
  {
    var row := LatestRow(c.packs, code);
    if row.Some? {
      assert RowsOf(c, now + {row.value}, other) ==
        if other == code then RowsOf(c, now, other) + {row.value} else RowsOf(c, now, other);
    }
  }

  lemma AddedStepAll(c: Catalogue, before: set<nat>, done: set<string>, now: set<nat>, code: string)
    requires code !in done && AllAdded(c, before, done, now)
    ensures AllAdded(c, before, done + {code}, WithRow(now, LatestRow(c.packs, code)))
  {
    forall other: string
      ensures AddedAt(c, before, done + {code}, WithRow(now, LatestRow(c.packs, code)), other)
    {
      AddedStep(c, before, done, now, code, other);
    }
  }

  lemma LeftStep(c: Catalogue, before: set<nat>, done: set<string>, now: set<nat>, code: string, row: nat,
                 other: string)
    requires LeftAt(c, before, done, now, other) && code !in done && row in RowsOf(c, now, code)
    ensures LeftAt(c, before, done + {code}, now - {row}, other)
  {
    assert RowsOf(c, now - {row}, other) == RowsOf(c, now, other) - {row};
    if other != code {
      assert RowsOf(c, now - {row}, other) == RowsOf(c, now, other);
    }
  }

  // ---------------------------------------------------------------------------------------
  // The service
  // ---------------------------------------------------------------------------------------

  class ProfileService {
    const c: Catalogue
    var profile: Option<Declared>
    var subscribed: set<nat>
    var requests: seq<ChangeRequest>

    ghost function View(): Org
      reads this
    {
      Org(profile, subscribed, requests)
    }

    constructor (c: Catalogue)
      ensures this.c == c && View() == NEW_ORG
    {
      this.c := c;
      profile, subscribed, requests := None, {}, [];
    }

    method MandatoryCodes() returns (codes: set<string>)
      ensures codes == DerivedFor(c, View())
      ensures forall code :: code in codes <==>
        && profile.Some?
        && exists i :: 0 <= i < |c.packs| && c.packs[i].code == code
             && ("*" in c.packs[i].jurisdictions
                 || exists j :: j in c.packs[i].jurisdictions && j in profile.value.jurisdictions)
             && ("*" in c.packs[i].sectors
                 || exists s :: s in c.packs[i].sectors && s in profile.value.sectors)
    {
      codes := {};
      if profile.None? {
        return;
      }
      for i := 0 to |c.packs|
        invariant codes == set k: nat | k < i && PackApplies(c.packs[k], profile.value) :: c.packs[k].code
      {
        if PackApplies(c.packs[i], profile.value) {
          codes := codes + {c.packs[i].code};
        }
      }
      forall i | 0 <= i < |c.packs|
        ensures PackApplies(c.packs[i], profile.value) <==>
                && ("*" in c.packs[i].jurisdictions
                    || exists j :: j in c.packs[i].jurisdictions && j in profile.value.jurisdictions)
                && ("*" in c.packs[i].sectors
                    || exists s :: s in c.packs[i].sectors && s in profile.value.sectors)
      {
        PackAppliesExactly(c.packs[i], profile.value);
      }
    }

    /** Subscribe what is missing, then drop one row of each code no longer required. */
    method ReconcilePacks() returns (added: set<string>, removed: set<string>)
      requires Known(c, subscribed)
      modifies this`subscribed
      ensures Reconciled(c, old(subscribed), DerivedFor(c, View()), subscribed)
      ensures added == DerivedFor(c, View()) - AppliedCodes(c, old(subscribed))
      ensures removed == AppliedCodes(c, old(subscribed)) - DerivedFor(c, View())
      ensures forall row :: row in old(subscribed) && c.packs[row].code !in removed ==> row in subscribed
      ensures forall row :: row in subscribed && row !in old(subscribed) ==>
        c.packs[row].code in added && IsNewest(c, row)
      ensures forall code :: code in removed ==> OneRowDeleted(c, old(subscribed), subscribed, code)
    {
      var required := MandatoryCodes();
      var current := AppliedCodes(c, subscribed);
      added, removed := required - current, current - required;
      forall code: string
        ensures code in current <==> RowsOf(c, old(subscribed), code) != {}
      {
        AppliedIffRows(c, old(subscribed), code);
      }
      AddMissing(added);
      ghost var mid := subscribed;
      forall code | code in removed
        ensures RowsOf(c, mid, code) == RowsOf(c, old(subscribed), code)
      {
        assert AddedAt(c, old(subscribed), added, mid, code);
      }
      DropOneEach(removed);
      forall code: string
        ensures code in required ==> KeptAt(c, old(subscribed), subscribed, code)
        ensures code !in required ==> DroppedAt(c, old(subscribed), subscribed, code)
      {
        assert AddedAt(c, old(subscribed), added, mid, code);
        assert LeftAt(c, mid, removed, subscribed, code);
      }
      ReconciledRows(c, old(subscribed), required, subscribed);
    }

    /** Apply the newest version of a pack; false for an unknown code. */
    method SubscribeOrg(code: string) returns (known: bool)
      modifies this`subscribed
      ensures known <==> exists i :: 0 <= i < |c.packs| && c.packs[i].code == code
      ensures subscribed == WithRow(old(subscribed), LatestRow(c.packs, code))
      ensures known ==> exists i: nat ::
        i < |c.packs| && c.packs[i].code == code && IsNewest(c, i) && subscribed == old(subscribed) + {i}
    {
      var row := LatestRow(c.packs, code);
      known := row.Some?;
      if row.Some? {
        subscribed := subscribed + {row.value};
      }
    }

    method AddMissing(added: set<string>)
      requires Known(c, subscribed)
      modifies this`subscribed
      ensures Known(c, subscribed)
      ensures AllAdded(c, old(subscribed), added, subscribed)
    {
      var todo, done := added, {};
      while todo != {}
        invariant todo + done == added && todo !! done && Known(c, subscribed)
        invariant AllAdded(c, old(subscribed), done, subscribed)
        decreases |todo|
      {
        var code :| code in todo;
        AddedStepAll(c, old(subscribed), done, subscribed, code);
        todo, done := todo - {code}, done + {code};
        var known := SubscribeOrg(code);
      }
      assert done == added;
    }

    method DropOneEach(removed: set<string>)
      requires Known(c, subscribed)
      requires forall code :: code in removed ==> RowsOf(c, subscribed, code) != {}
      modifies this`subscribed
      ensures Known(c, subscribed)
      ensures forall code :: LeftAt(c, old(subscribed), removed, subscribed, code)
    {
      var todo := removed;
      while todo != {}
        invariant todo <= removed && Known(c, subscribed)
        invariant forall code :: LeftAt(c, old(subscribed), removed - todo, subscribed, code)
        decreases |todo|
      {
        var code :| code in todo;
        assert LeftAt(c, old(subscribed), removed - todo, subscribed, code);
        var row :| row in RowsOf(c, subscribed, code);
        forall other: string
          ensures LeftAt(c, old(subscribed), removed - (todo - {code}), subscribed - {row}, other)
        {
          LeftStep(c, old(subscribed), removed - todo, subscribed, code, row, other);
          assert removed - (todo - {code}) == (removed - todo) + {code};
        }
        subscribed, todo := subscribed - {row}, todo - {code};
      }
      assert removed - todo == removed;
    }

    method ApplyProfile(d: Declared)
      requires Known(c, subscribed)
      modifies this`profile, this`subscribed
      ensures Applied(c, old(View()), d, View())
    {
      profile := Some(d);
      var added, removed := ReconcilePacks();
    }

    method SetOrgProfile(d: Declared, reason: string) returns (r: Result<Option<nat>, ProfileError>)
      requires Known(c, subscribed)
      modifies this
      ensures Next(c, old(View()), SetProfile(d, reason), View())
      ensures r.Err? <==> Validated(c, d).Err? || (Removed(old(View()), d) != {} && IsBlank(reason))
      ensures r.Ok? && Removed(old(View()), d) == {} ==> r.value == None
      ensures r.Ok? && Removed(old(View()), d) != {} ==> r.value == Some(|old(requests)|)
      ensures r.Err? && r.error != ReasonRequired <==> !Acceptable(c, d)
      ensures r == Err(UnknownCode) <==>
        || (exists j :: j in d.jurisdictions && (j !in c.jurisdictions || j == "internal"))
        || (exists s :: s in d.sectors && s !in c.sectors)
      ensures r == Ok(None) ==>
        && profile == Some(d) && requests == old(requests)
        && (old(profile).Some? ==> Within(old(profile).value, d))
      ensures r.Ok? && r.value.Some? ==>
        && old(profile).Some? && !Within(old(profile).value, d) && !IsBlank(reason)
        && profile == old(profile) && subscribed == old(subscribed) && |requests| == |old(requests)| + 1
        && requests[..|old(requests)|] == old(requests)
        && var filed := requests[|old(requests)|];
           && filed.proposal == d && filed.status == Pending
           && forall x :: x in filed.removed <==>
                || (x in old(profile).value.jurisdictions && x !in d.jurisdictions)
                || (x in old(profile).value.sectors && x !in d.sectors)
    {
      ValidatedExactly(c, d);
      var v := Validated(c, d);
      if v.Err? {
        return Err(v.error);
      }
      var removed := if profile.None? then {}
                     else (profile.value.jurisdictions - d.jurisdictions) + (profile.value.sectors - d.sectors);
      if profile.Some? {
        NothingRemoved(profile.value.jurisdictions, d.jurisdictions);
        NothingRemoved(profile.value.sectors, d.sectors);
      }
      if removed != {} {
        if IsBlank(reason) {
          return Err(ReasonRequired);
        }
        requests := requests + [ChangeRequest(d, removed, Pending)];
        return Ok(Some(|requests| - 1));
      }
      ApplyProfile(d);
      return Ok(None);
    }

    method DecideChangeRequest(i: nat, approve: bool) returns (r: Result<ChangeRequest, ProfileError>)
      requires Known(c, subscribed)
      modifies this
      ensures Next(c, old(View()), Decide(i, approve), View())
      ensures r.Err? <==> i >= |old(requests)|
      ensures r.Ok? ==> i < |requests| && r.value == requests[i]
      ensures r.Ok? && old(requests)[i].status != Pending ==> View() == old(View())
      ensures r.Ok? && old(requests)[i].status == Pending ==>
        && requests == old(requests)[i := old(requests)[i].(status := if approve then Approved else Denied)]
        && (approve ==> profile == Some(old(requests)[i].proposal))
        && (!approve ==> profile == old(profile) && subscribed == old(subscribed))
    {
      if i >= |requests| {
        return Err(RequestNotFound);
      }
      if requests[i].status != Pending {
        return Ok(requests[i]);
      }
      requests := requests[i := requests[i].(status := if approve then Approved else Denied)];
      if approve {
        ApplyProfile(requests[i].proposal);
      }
      return Ok(requests[i]);
    }
  }
}
