/**
 Packs and verdicts (app/services/policy/packs.py, evaluator.py, app/services/verdict.py): what a scan of the
 institution's own rules and the packs in force come to, and what can block.
 */
module Verdicts {
  import opened Prelude
  import opened StableSort
  import opened Policy

  // ---------------------------------------------------------------------------------------
  // Regulation packs
  // ---------------------------------------------------------------------------------------

  /** A pack's rules; in place of a list there may be something to iterate over, or not even that. */
  datatype PackRules = Listed(rules: seq<RawRule>) | Unlisted(iterable: bool)

  datatype Pack = Pack(code: string, jurisdiction: string, rules: PackRules)

  datatype Finding = Finding(packCode: string, jurisdiction: string, ruleId: Option<string>, tier: Tier)

  /** Malformed or raising pack rules are skipped, never fatal. */
  function RuleFindings(x: Subject, p: Pack, rules: seq<RawRule>): seq<Finding> {
    if rules == [] then []
    else
      var n := |rules| - 1;
      RuleFindings(x, p, rules[..n]) +
      (if Meeting(x, 0, rules[n]).Found?
       then [Finding(p.code, p.jurisdiction, rules[n].id, Meeting(x, 0, rules[n]).hit.tier)] else [])
  }

  function PackFindings(x: Subject, p: Pack): seq<Finding> {
    if p.rules.Listed? then RuleFindings(x, p, p.rules.rules) else []
  }

  function AllFindings(x: Subject, packs: seq<Pack>): seq<Finding> {
    if packs == [] then []
    else AllFindings(x, packs[..|packs| - 1]) + PackFindings(x, packs[|packs| - 1])
  }

  function Untag(s: seq<(nat, Finding)>): (r: seq<Finding>)
    ensures |r| == |s| && forall i :: 0 <= i < |r| ==> r[i] == s[i].1
  {
    seq(|s|, i requires 0 <= i < |s| => s[i].1)
  }

  function FindingRank(f: Finding): int {
    Rank(f.tier)
  }

  /** Findings, strictest first. */
  function Findings(x: Subject, packs: seq<Pack>): seq<Finding> {
    Untag(Sort(FindingRank, AllFindings(x, packs)))
  }

  method EvaluatePacks(x: Subject, packs: seq<Pack>) returns (findings: seq<Finding>)
    ensures findings == Findings(x, packs)
    ensures StrictestFirst(findings)
    ensures forall f :: f in findings <==> exists p, r :: p in packs && FoundBy(x, p, r, f)
  {
    var found := CollectFindings(x, packs);
    findings := Untag(Sort(FindingRank, found));
    FindingsExactly(x, packs);
    FindingsStrictestFirst(x, packs);
  }

  method CollectFindings(x: Subject, packs: seq<Pack>) returns (found: seq<Finding>)
    ensures found == AllFindings(x, packs)
  {
    found := [];
    for k := 0 to |packs|
      invariant found == AllFindings(x, packs[..k])
    {
      var pack := packs[k];
      assert packs[..k + 1][..k] == packs[..k];
      if pack.rules.Listed? {
        var rules := pack.rules.rules;
        ghost var before := found;
        for i := 0 to |rules|
          invariant found == before + RuleFindings(x, pack, rules[..i])
        {
          assert rules[..i + 1][..i] == rules[..i];
          var met := Meeting(x, 0, rules[i]);
          if met.Found? {
            found := found + [Finding(pack.code, pack.jurisdiction, rules[i].id, met.hit.tier)];
          }
        }
        assert rules[..|rules|] == rules;
      }
    }
    assert packs[..|packs|] == packs;
  }

  ghost predicate StrictestFirst(fs: seq<Finding>) {
    forall i, j :: 0 <= i < j < |fs| ==> Rank(fs[i].tier) >= Rank(fs[j].tier)
  }

  lemma FindingsStrictestFirst(x: Subject, packs: seq<Pack>)
    ensures StrictestFirst(Findings(x, packs))
  {
    var found := AllFindings(x, packs);
    var fs, tagged := Findings(x, packs), Sort(FindingRank, found);
    SortIsStable(FindingRank, found);
    forall i, j | 0 <= i < j < |fs|
      ensures Rank(fs[i].tier) >= Rank(fs[j].tier)
    {
      assert Before(FindingRank, tagged[i], tagged[j]);
    }
  }

  lemma {:induction false} AllFindingsMembers(x: Subject, packs: seq<Pack>, f: Finding)
    ensures f in AllFindings(x, packs) <==> exists p :: p in packs && f in PackFindings(x, p)
  {
    if packs != [] {
      var n := |packs| - 1;
      AllFindingsMembers(x, packs[..n], f);
      assert packs == packs[..n] + [packs[n]];
    }
  }

  lemma FindingsMembers(x: Subject, packs: seq<Pack>)
    ensures forall f :: f in Findings(x, packs) <==> exists p :: p in packs && f in PackFindings(x, p)
  {
    var all := AllFindings(x, packs);
    SortIsStable(FindingRank, all);
    forall f
      ensures f in Findings(x, packs) <==> exists p :: p in packs && f in PackFindings(x, p)
    {
      AllFindingsMembers(x, packs, f);
      UntagMembers(all, Sort(FindingRank, all), f);
    }
  }

  /** Rule r of pack p is well-formed and matches the subject. */
  ghost predicate PackMatches(x: Subject, p: Pack, r: RawRule) {
    p.rules.Listed? && r in p.rules.rules && Meeting(x, 0, r).Found?
  }

  ghost predicate AnyPackMatches(x: Subject, packs: seq<Pack>) {
    exists p, r :: p in packs && PackMatches(x, p, r)
  }

  /** The finding rule r of pack p gives on this subject. */
  ghost predicate FoundBy(x: Subject, p: Pack, r: RawRule, f: Finding) {
    PackMatches(x, p, r) && f == Finding(p.code, p.jurisdiction, r.id, Meeting(x, 0, r).hit.tier)
  }

  lemma {:induction false} RuleFindingsMembers(x: Subject, p: Pack, rules: seq<RawRule>, f: Finding)
    ensures f in RuleFindings(x, p, rules) <==>
            exists r :: r in rules && Meeting(x, 0, r).Found?
                        && f == Finding(p.code, p.jurisdiction, r.id, Meeting(x, 0, r).hit.tier)
  {
    if rules != [] {
      var n := |rules| - 1;
      RuleFindingsMembers(x, p, rules[..n], f);
      assert rules == rules[..n] + [rules[n]];
    }
  }

  /** The findings are those of the well-formed pack rules that match, each under its pack's name, and no others. */
  lemma FindingsExactly(x: Subject, packs: seq<Pack>)
    ensures forall f :: f in Findings(x, packs) <==> exists p, r :: p in packs && FoundBy(x, p, r, f)
    ensures Findings(x, packs) != [] <==> AnyPackMatches(x, packs)
  {
    FindingsMembers(x, packs);
    forall f, p
      ensures f in PackFindings(x, p) <==> exists r :: FoundBy(x, p, r, f)
    {
      if p.rules.Listed? {
        RuleFindingsMembers(x, p, p.rules.rules, f);
        assert forall r :: FoundBy(x, p, r, f) <==>
          r in p.rules.rules && Meeting(x, 0, r).Found?
          && f == Finding(p.code, p.jurisdiction, r.id, Meeting(x, 0, r).hit.tier);
      }
    }
    if Findings(x, packs) != [] {
      assert Findings(x, packs)[0] in Findings(x, packs);
    }
    forall p, r | p in packs && PackMatches(x, p, r)
      ensures Findings(x, packs) != []
    {
      var f := Finding(p.code, p.jurisdiction, r.id, Meeting(x, 0, r).hit.tier);
      assert FoundBy(x, p, r, f) && f in Findings(x, packs);
    }
  }

  lemma UntagMembers(all: seq<Finding>, tagged: seq<(nat, Finding)>, f: Finding)
    requires Tags(all, tagged)
    ensures f in Untag(tagged) <==> f in all
  {
    if f in all {
      var i :| 0 <= i < |all| && all[i] == f;
      assert (i, all[i]) in tagged;
      var k :| 0 <= k < |tagged| && tagged[k] == (i, all[i]);
      assert Untag(tagged)[k] == f;
    }
  }

  function FindingTiers(fs: seq<Finding>): (r: seq<Tier>)
    ensures |r| == |fs| && forall i :: 0 <= i < |r| ==> r[i] == fs[i].tier
  {
    seq(|fs|, i requires 0 <= i < |fs| => fs[i].tier)
  }

  function CombinedTier(base: Tier, findings: seq<Finding>): (t: Tier)
    ensures IsStrictest(t, base, FindingTiers(findings))
  {
    if findings == [] then base
    else
      var n := |findings| - 1;
      var rest := CombinedTier(base, findings[..n]);
      assert FindingTiers(findings[..n]) == FindingTiers(findings)[..n];
      assert FindingTiers(findings)[n] in FindingTiers(findings);
      MaxTier(rest, findings[n].tier)
  }

  method CombineTiers(base: Tier, findings: seq<Finding>) returns (tier: Tier)
    ensures tier == CombinedTier(base, findings)
  {
    tier := base;
    for k := 0 to |findings|
      invariant tier == CombinedTier(base, findings[..k])
    {
      assert findings[..k + 1][..k] == findings[..k];
      tier := MaxTier(tier, findings[k].tier);
    }
    assert findings[..|findings|] == findings;
  }

  // ---------------------------------------------------------------------------------------
  // Verdicts
  // ---------------------------------------------------------------------------------------

  datatype Status = Compliant | Flagged | Blocked | Unevaluated

  datatype Verdict = Verdict(status: Status, allowed: bool, tier: Option<Tier>)

  function DeriveStatus(allowed: bool, t: Tier, anyFinding: bool): Status {
    if !allowed then Blocked else if t == Orange || t == Red || anyFinding then Flagged else Compliant
  }

  /** Server verdict; None when rule matching itself raised, which fails the request. */
  function ServerVerdict(x: Subject, s: Scan, failMode: string, packs: seq<Pack>): Option<Verdict> {
    match s
    case Crash => None
    case EngineError =>
      if failMode == "deny_on_error" then Some(Verdict(Blocked, false, Some(Red)))
      else
        var findings := Findings(x, packs);
        var t := CombinedTier(Yellow, findings);
        Some(Verdict(DeriveStatus(true, t, findings != []), true, Some(t)))
    case _ =>
      var own := ServerOwn(Floor(x.features), s, failMode);
      var findings := Findings(x, packs);
      var t := CombinedTier(own.tier, findings);
      Some(Verdict(DeriveStatus(own.allowed, t, findings != []), own.allowed, Some(t)))
  }

  /** SDK verdict from a cached bundle that is not empty; None when a malformed policy raises. */
  function SdkVerdict(x: Subject, s: Scan, failMode: string, packs: seq<Pack>): Option<Verdict> {
    if s.Crash? || s.EngineError? then None
    else
      var own := SdkOwn(Floor(x.features), s, failMode);
      var findings := Findings(x, packs);
      var t := CombinedTier(own.tier, findings);
      Some(Verdict(DeriveStatus(own.allowed, t, findings != []), own.allowed, Some(t)))
  }

  /** Recorded without having been judged. */
  const UNEVALUATED := Verdict(Unevaluated, true, None)

  /** The institution's active policy. An empty document counts as one on the server, and as none in the SDK. */
  datatype ActivePolicy = NoPolicy | EmptyDocument | Document(rules: RulesDoc)

  function RulesOf(policy: ActivePolicy): RulesDoc {
    if policy.Document? then policy.rules else Missing
  }

  /** What the server's gate answers; None when it raises. */
  function ServerAnswer(x: Subject, policy: ActivePolicy, s: Scan, failMode: string, packs: seq<Pack>)
    : Option<Verdict>
  {
    if policy.NoPolicy? then Some(UNEVALUATED) else ServerVerdict(x, s, failMode, packs)
  }

  /** The SDK can walk through every pack it has cached. */
  predicate Iterable(packs: seq<Pack>) {
    forall p :: p in packs ==> p.rules != Unlisted(false)
  }

  /** What the SDK answers from its cached copy of the policy and the packs; None when it raises. */
  function SdkAnswer(x: Subject, policy: ActivePolicy, s: Scan, failMode: string, packs: seq<Pack>)
    : Option<Verdict>
  {
    if !policy.Document? && packs == [] then Some(UNEVALUATED)
    else if !Iterable(packs) then None
    else SdkVerdict(x, s, failMode, packs)
  }

  // ---------------------------------------------------------------------------------------
  // What can block
  // ---------------------------------------------------------------------------------------

  /** There is a deciding rule, and what it found blocks. */
  ghost predicate OwnRuleBlocks(x: Subject, rules: seq<RawRule>, failMode: string) {
    exists i :: 0 <= i < |rules| && Decides(x, rules, i) && Meeting(x, i, rules[i]).Found?
                && HitBlocks(Floor(x.features), Meeting(x, i, rules[i]).hit, failMode)
  }

  /** Well-formed as far as this subject is concerned: no rule is malformed and no match raises. */
  ghost predicate WellFormed(x: Subject, rules: seq<RawRule>) {
    forall i :: 0 <= i < |rules| ==> Meeting(x, i, rules[i]).NoRule? || Meeting(x, i, rules[i]).Found?
  }

  lemma DecidesOnce(x: Subject, rules: seq<RawRule>, i: nat, j: nat)
    requires i < |rules| && j < |rules| && Decides(x, rules, i) && Decides(x, rules, j)
    ensures i == j
  {
  }

  /** The deciding rule denies, or flags at a red effective tier outside allow_with_flag. */
  predicate HitBlocks(floor: Tier, h: RuleHit, failMode: string) {
    h.decision == Deny || (h.decision == Flag && (floor == Red || h.tier == Red) && failMode != "allow_with_flag")
  }

  lemma HitBlocksExactly(x: Subject, h: RuleHit, failMode: string, packs: seq<Pack>)
    ensures ServerVerdict(x, Found(h), failMode, packs).Some?
    ensures ServerVerdict(x, Found(h), failMode, packs).value.allowed <==> !HitBlocks(Floor(x.features), h, failMode)
    ensures ServerVerdict(x, Found(h), failMode, packs).value.status == Blocked <==>
      HitBlocks(Floor(x.features), h, failMode)
  {
  }

  /** Only the institution's own deciding rule blocks, whatever packs are in force. */
  lemma BlockedExactly(x: Subject, rules: seq<RawRule>, s: Scan, failMode: string, packs: seq<Pack>)
    requires WellFormed(x, rules) && IsScan(x, Rules(rules), s)
    ensures ServerVerdict(x, s, failMode, packs).Some?
    ensures ServerVerdict(x, s, failMode, packs).value.status == Blocked <==> OwnRuleBlocks(x, rules, failMode)
    ensures ServerVerdict(x, s, failMode, packs).value.allowed <==> !OwnRuleBlocks(x, rules, failMode)
  {
    if exists i :: 0 <= i < |rules| && !Meeting(x, i, rules[i]).NoRule? {
      var i :| 0 <= i < |rules| && Decides(x, rules, i) && s == Meeting(x, i, rules[i]);
      HitBlocksExactly(x, s.hit, failMode, packs);
      forall j | 0 <= j < |rules| && Decides(x, rules, j)
        ensures j == i
      {
        DecidesOnce(x, rules, i, j);
      }
      assert OwnRuleBlocks(x, rules, failMode) <==> HitBlocks(Floor(x.features), s.hit, failMode);
    }
  }

  /** For any policy document at all: packs never change what is allowed, only raise the tier. */
  lemma PacksOnlyAdvise(x: Subject, s: Scan, failMode: string, packs: seq<Pack>, more: seq<Pack>)
    requires !s.Crash?
    ensures var few, many := ServerVerdict(x, s, failMode, packs), ServerVerdict(x, s, failMode, packs + more);
            && few.Some? && many.Some? && few.value.allowed == many.value.allowed
            && few.value.tier.Some? && many.value.tier.Some?
            && Rank(few.value.tier.value) <= Rank(many.value.tier.value)
            && (few.value.status == Blocked <==> many.value.status == Blocked)
            && (many.value.status == Compliant ==> few.value.status == Compliant)
  {
    MoreFindings(x, packs, more);
    SubsetTier(if Usable(s) then ServerOwn(Floor(x.features), s, failMode).tier else Yellow,
               Findings(x, packs), Findings(x, packs + more));
  }

  lemma MoreFindings(x: Subject, packs: seq<Pack>, more: seq<Pack>)
    ensures forall f :: f in Findings(x, packs) ==> f in Findings(x, packs + more)
  {
    FindingsMembers(x, packs);
    FindingsMembers(x, packs + more);
    forall p | p in packs
      ensures p in packs + more
    {
    }
  }

  lemma SubsetTier(base: Tier, fs: seq<Finding>, gs: seq<Finding>)
    requires forall f :: f in fs ==> f in gs
    ensures Rank(CombinedTier(base, fs)) <= Rank(CombinedTier(base, gs))
    ensures fs != [] ==> gs != []
  {
    if fs != [] {
      assert fs[0] in fs;
    }
    if CombinedTier(base, fs) != base {
      var i :| 0 <= i < |fs| && FindingTiers(fs)[i] == CombinedTier(base, fs);
      assert fs[i] in fs;
      var j :| 0 <= j < |gs| && gs[j] == fs[i];
      assert FindingTiers(gs)[j] == fs[i].tier;
    }
  }

  /** The order packs are listed in does not matter to the verdict. */
  lemma PackOrderIrrelevant(x: Subject, s: Scan, failMode: string, packs: seq<Pack>, shuffled: seq<Pack>)
    requires multiset(packs) == multiset(shuffled)
    ensures ServerVerdict(x, s, failMode, packs) == ServerVerdict(x, s, failMode, shuffled)
  {
    SameFindings(x, packs, shuffled);
    SameMembersSameTier(if Usable(s) then ServerOwn(Floor(x.features), s, failMode).tier else Yellow,
                        Findings(x, packs), Findings(x, shuffled));
  }

  lemma SameMembersSameTier(base: Tier, fs: seq<Finding>, gs: seq<Finding>)
    requires forall f :: f in fs <==> f in gs
    ensures CombinedTier(base, fs) == CombinedTier(base, gs) && (fs == [] <==> gs == [])
  {
    SubsetTier(base, fs, gs);
    SubsetTier(base, gs, fs);
  }

  lemma SameFindings(x: Subject, packs: seq<Pack>, shuffled: seq<Pack>)
    requires multiset(packs) == multiset(shuffled)
    ensures forall f :: f in Findings(x, packs) <==> f in Findings(x, shuffled)
  {
    FindingsMembers(x, packs);
    FindingsMembers(x, shuffled);
    forall p: Pack
      ensures p in packs <==> p in shuffled
    {
      assert p in packs <==> p in multiset(packs);
      assert p in shuffled <==> p in multiset(shuffled);
    }
  }

  /** The reported tier is the strictest of the layer floor, the deciding rule and every pack finding. */
  lemma TierIsStrictest(x: Subject, s: Scan, failMode: string, packs: seq<Pack>)
    requires s.NoRule? || s.Found?
    ensures ServerVerdict(x, s, failMode, packs).Some? && ServerVerdict(x, s, failMode, packs).value.tier.Some?
    ensures IsStrictest(ServerVerdict(x, s, failMode, packs).value.tier.value, Floor(x.features),
                        (if s.Found? then [s.hit.tier] else []) + FindingTiers(Findings(x, packs)))
  {
    var own := ServerOwn(Floor(x.features), s, failMode);
    var fs := FindingTiers(Findings(x, packs));
    var all := (if s.Found? then [s.hit.tier] else []) + fs;
    var t := CombinedTier(own.tier, Findings(x, packs));
    assert forall i :: 0 <= i < |all| ==> Rank(all[i]) <= Rank(t);
    assert t in fs ==> t in all;
    assert s.Found? ==> all[0] == s.hit.tier;
  }

  /** The status a verdict carries: blocked, flagged or compliant, by whether it allows, its tier, and the packs. */
  ghost predicate StatusFits(x: Subject, packs: seq<Pack>, v: Verdict) {
    && v.tier.Some?
    && (v.status == Blocked <==> !v.allowed)
    && (v.status == Flagged <==>
          v.allowed && (v.tier == Some(Orange) || v.tier == Some(Red) || AnyPackMatches(x, packs)))
    && (v.status == Compliant <==>
          v.allowed && (v.tier == Some(Green) || v.tier == Some(Yellow)) && !AnyPackMatches(x, packs))
  }

  /**
   What each side calls an output it judged: blocked exactly if it is not allowed, flagged exactly if it is but
   its tier is orange or red or a pack rule matches, compliant otherwise. A verdict that is refused for a
   malformed policy under deny_on_error is blocked at red, before any pack is looked at.
   */
  lemma StatusExactly(x: Subject, policy: ActivePolicy, s: Scan, failMode: string, packs: seq<Pack>)
    ensures var v := ServerAnswer(x, policy, s, failMode, packs);
            && (v == Some(UNEVALUATED) <==> policy.NoPolicy?)
            && (v == None <==> !policy.NoPolicy? && s.Crash?)
            && (v.Some? && !policy.NoPolicy? ==> StatusFits(x, packs, v.value))
            && (!policy.NoPolicy? && s.EngineError? ==>
                  if failMode == "deny_on_error" then v == Some(Verdict(Blocked, false, Some(Red)))
                  else v.value.allowed && v.value.tier.Some?
                       && IsStrictest(v.value.tier.value, Yellow, FindingTiers(Findings(x, packs))))
    ensures var v := SdkAnswer(x, policy, s, failMode, packs);
            && (v == Some(UNEVALUATED) <==> !policy.Document? && packs == [])
            && (v.Some? && v != Some(UNEVALUATED) ==> StatusFits(x, packs, v.value))
  {
    FindingsExactly(x, packs);
    var base := if s.EngineError? then Yellow
                else if Usable(s) then ServerOwn(Floor(x.features), s, failMode).tier else Green;
    DerivedStatusFits(x, packs, true, CombinedTier(base, Findings(x, packs)));
    if Usable(s) {
      DerivedStatusFits(x, packs, ServerOwn(Floor(x.features), s, failMode).allowed,
                        CombinedTier(base, Findings(x, packs)));
      DerivedStatusFits(x, packs, SdkOwn(Floor(x.features), s, failMode).allowed,
                        CombinedTier(base, Findings(x, packs)));
    }
  }

  lemma DerivedStatusFits(x: Subject, packs: seq<Pack>, allowed: bool, t: Tier)
    ensures StatusFits(x, packs, Verdict(DeriveStatus(allowed, t, Findings(x, packs) != []), allowed, Some(t)))
  {
    FindingsExactly(x, packs);
  }

  /** A policy of one rule: the scan comes to meeting it. */
  lemma SingleRuleScan(x: Subject, r: RawRule, s: Scan)
    ensures IsScan(x, Rules([r]), s) <==> s == Meeting(x, 0, r)
  {
    if !Meeting(x, 0, r).NoRule? {
      assert Decides(x, [r], 0);
    }
  }

  /**
   An output whose action the policy's one rule names and denies is blocked, on the server's side and on the
   SDK's, under every fail mode and all packs; and one that matches the rule in no way is allowed by the server.
   */
  lemma DenyRuleBlocks(x: Subject, r: RawRule, s: Scan, failMode: string, packs: seq<Pack>)
    requires r.Rule? && r.tier in TIER_NAMES && r.decision == Some("deny") && r.matcher.Some?
    requires IsScan(x, Rules([r]), s)
    ensures NamesAction(r.matcher.value, x.action) ==>
      var server, sdk := ServerAnswer(x, Document(Rules([r])), s, failMode, packs),
                         SdkAnswer(x, Document(Rules([r])), s, failMode, packs);
      && server.Some? && server.value.status == Blocked && !server.value.allowed
      && (Iterable(packs) ==> sdk.Some? && sdk.value.status == Blocked && !sdk.value.allowed)
    ensures FirstHit(x, Ways(r.matcher.value)) == No ==>
      var v := ServerAnswer(x, Document(Rules([r])), s, failMode, packs); v.Some? && v.value.allowed
  {
    SingleRuleScan(x, r, s);
    MeetingExactly(x, 0, r);
    ActionWay(x, r.matcher.value);
    if s.Found? {
      assert Says(r, s.hit.tier, s.hit.decision);
      assert s.hit.decision == Deny;
    }
  }

  predicate Usable(s: Scan) {
    s.NoRule? || s.Found?
  }

  // ---------------------------------------------------------------------------------------
  // SDK and server
  // ---------------------------------------------------------------------------------------

  function AsSdk(x: Subject): Subject {
    x.(side := Sdk)
  }

  lemma SidesMeetAlike(x: Subject, index: nat, r: RawRule)
    requires HintsAgree(x.payload)
    ensures Meeting(x.(side := Server), index, r) == Meeting(AsSdk(x), index, r)
  {
    if r.Rule? {
      MatcherAgrees(x.host, x.action, x.payload, x.features, r);
    }
  }

  lemma {:induction false} SidesFindAlikeInPack(x: Subject, p: Pack, rules: seq<RawRule>)
    requires HintsAgree(x.payload)
    ensures RuleFindings(x.(side := Server), p, rules) == RuleFindings(AsSdk(x), p, rules)
  {
    if rules != [] {
      var n := |rules| - 1;
      SidesFindAlikeInPack(x, p, rules[..n]);
      SidesMeetAlike(x, 0, rules[n]);
    }
  }

  lemma {:induction false} SidesFindAlike(x: Subject, packs: seq<Pack>)
    requires HintsAgree(x.payload)
    ensures AllFindings(x.(side := Server), packs) == AllFindings(AsSdk(x), packs)
  {
    if packs != [] {
      var n := |packs| - 1;
      SidesFindAlike(x, packs[..n]);
      if packs[n].rules.Listed? {
        SidesFindAlikeInPack(x, packs[n], packs[n].rules.rules);
      }
    }
  }

  lemma SidesScanAlike(x: Subject, doc: RulesDoc, s: Scan)
    requires HintsAgree(x.payload)
    ensures IsScan(x.(side := Server), doc, s) <==> IsScan(AsSdk(x), doc, s)
  {
    if doc.Rules? {
      forall i | 0 <= i < |doc.rules|
        ensures Meeting(x.(side := Server), i, doc.rules[i]) == Meeting(AsSdk(x), i, doc.rules[i])
      {
        SidesMeetAlike(x, i, doc.rules[i]);
      }
      forall i | 0 <= i < |doc.rules|
        ensures Decides(x.(side := Server), doc.rules, i) <==> Decides(AsSdk(x), doc.rules, i)
      {
      }
    }
  }

  /** `s` is the outcome of the scan on the server, `t` in the SDK. */
  ghost predicate Scans(x: Subject, policy: ActivePolicy, s: Scan, t: Scan) {
    IsScan(x, RulesOf(policy), s) && IsScan(AsSdk(x), RulesOf(policy), t)
  }

  /**
   Both sides set out to judge, or neither does: there is a policy that is not empty and its scan meets no
   malformed rule, or an empty one and packs, or nothing at all. A rule match that raises does so on both sides.
   */
  predicate Comparable(policy: ActivePolicy, packs: seq<Pack>, s: Scan) {
    match policy
    case NoPolicy => packs == []
    case EmptyDocument => packs != [] && Iterable(packs)
    case Document(_) => s.Crash? || (!s.EngineError? && Iterable(packs))
  }

  /** Comparable, and not a red floor with no rule of the institution's own to decide. */
  predicate Alike(x: Subject, policy: ActivePolicy, packs: seq<Pack>, s: Scan) {
    Comparable(policy, packs, s) && (policy.NoPolicy? || !s.NoRule? || Floor(x.features) != Red)
  }

  /** The tier answered, if there is an answer and it names one. */
  function TierOf(answer: Option<Verdict>): Option<Option<Tier>> {
    if answer.None? then None else Some(answer.value.tier)
  }

  lemma SidesAgreeOnParts(x: Subject, policy: ActivePolicy, s: Scan, t: Scan, packs: seq<Pack>)
    requires x.side.Server? && HintsAgree(x.payload) && Scans(x, policy, s, t)
    ensures s == t && Findings(x, packs) == Findings(AsSdk(x), packs)
  {
    SidesScanAlike(x, RulesOf(policy), s);
    ScanUnique(AsSdk(x), RulesOf(policy), s, t);
    SidesFindAlike(x, packs);
  }

  /**
   On a payload whose classifier fields agree, for every policy, fail mode and set of packs: server and SDK give
   one answer exactly when the case is comparable and no red floor is left undecided, and name one tier exactly
   when it is comparable. Once both judge, `allowed` and status agree exactly when an own rule matched or the
   floor is not red.
   */
  lemma SdkAgreesExactly(x: Subject, policy: ActivePolicy, s: Scan, t: Scan, failMode: string, packs: seq<Pack>)
    requires x.side.Server? && HintsAgree(x.payload) && Scans(x, policy, s, t)
    ensures var server, sdk := ServerAnswer(x, policy, s, failMode, packs),
                               SdkAnswer(AsSdk(x), policy, t, failMode, packs);
            && (server == sdk <==> Alike(x, policy, packs, s))
            && (TierOf(server) == TierOf(sdk) <==> Comparable(policy, packs, s))
            && (!policy.NoPolicy? && Comparable(policy, packs, s) && !s.Crash? ==>
                  && server.Some? && sdk.Some?
                  && (server.value.allowed == sdk.value.allowed <==> s.Found? || Floor(x.features) != Red)
                  && (server.value.status == sdk.value.status <==> s.Found? || Floor(x.features) != Red))
  {
    SidesAgreeOnParts(x, policy, s, t, packs);
  }

  /** Server and SDK give one answer in this case exactly when it is comparable. */
  ghost predicate AnswersAsExpected(x: Subject, policy: ActivePolicy, s: Scan, t: Scan, failMode: string,
                                    packs: seq<Pack>)
  {
    Scans(x, policy, s, t) ==>
      (ServerAnswer(x, policy, s, failMode, packs) == SdkAnswer(AsSdk(x), policy, t, failMode, packs) <==>
       Comparable(policy, packs, s))
  }

  /** The same for the tier alone. */
  ghost predicate TiersAsExpected(x: Subject, policy: ActivePolicy, s: Scan, t: Scan, failMode: string,
                                  packs: seq<Pack>)
  {
    Scans(x, policy, s, t) ==>
      (TierOf(ServerAnswer(x, policy, s, failMode, packs)) == TierOf(SdkAnswer(AsSdk(x), policy, t, failMode, packs))
       <==> Comparable(policy, packs, s))
  }

  /** A rule that denies on the server's classifier label, and behind it one that is malformed. */
  function SplittingRules(x: Subject): seq<RawRule> {
    [ClassifierRule(Field(x.payload, "classifier")), NotObject]
  }

  /** The server decides by the first rule; the SDK passes it over and runs into the second. */
  lemma SplitScans(x: Subject)
    requires x.side.Server? && !HintsAgree(x.payload)
    ensures Scans(x, Document(Rules(SplittingRules(x))), Found(RuleHit(0, Red, Deny)), EngineError)
  {
    ClassifierRuleSplits(x.host, x.action, x.payload, x.features);
    var rules := SplittingRules(x);
    assert Meeting(x, 0, rules[0]) == Found(RuleHit(0, Red, Deny)) && Meeting(x, 1, rules[1]) == EngineError;
    assert Meeting(AsSdk(x), 0, rules[0]) == NoRule && Meeting(AsSdk(x), 1, rules[1]) == EngineError;
    assert Decides(x, rules, 0) && Decides(AsSdk(x), rules, 1);
  }

  lemma Splits(x: Subject)
    requires x.side.Server? && !HintsAgree(x.payload)
    ensures var policy := Document(Rules(SplittingRules(x)));
            && !AnswersAsExpected(x, policy, Found(RuleHit(0, Red, Deny)), EngineError, "deny_on_error", [])
            && !TiersAsExpected(x, policy, Found(RuleHit(0, Red, Deny)), EngineError, "deny_on_error", [])
  {
    SplitScans(x);
  }

  /**
   Over every policy, fail mode and set of packs, server and SDK give an output one answer in exactly the
   comparable cases, if and only if its classifier fields agree and its layer floor is not red.
   */
  lemma SdkAlwaysAgreesExactly(x: Subject)
    requires x.side.Server?
    ensures (forall policy, s, t, failMode, packs :: AnswersAsExpected(x, policy, s, t, failMode, packs)) <==>
            HintsAgree(x.payload) && Floor(x.features) != Red
  {
    if !HintsAgree(x.payload) {
      Splits(x);
    } else if Floor(x.features) == Red {
      assert Scans(x, Document(Rules([])), NoRule, NoRule);
      SdkAgreesExactly(x, Document(Rules([])), NoRule, NoRule, "deny_on_error", []);
      assert !AnswersAsExpected(x, Document(Rules([])), NoRule, NoRule, "deny_on_error", []);
    } else {
      forall policy, s, t, failMode, packs
        ensures AnswersAsExpected(x, policy, s, t, failMode, packs)
      {
        if Scans(x, policy, s, t) {
          SdkAgreesExactly(x, policy, s, t, failMode, packs);
        }
      }
    }
  }

  /** And they name one tier in exactly the comparable cases if and only if its classifier fields agree. */
  lemma SdkTierExactly(x: Subject)
    requires x.side.Server?
    ensures (forall policy, s, t, failMode, packs :: TiersAsExpected(x, policy, s, t, failMode, packs)) <==>
            HintsAgree(x.payload)
  {
    if !HintsAgree(x.payload) {
      Splits(x);
    } else {
      forall policy, s, t, failMode, packs
        ensures TiersAsExpected(x, policy, s, t, failMode, packs)
      {
        if Scans(x, policy, s, t) {
          SdkAgreesExactly(x, policy, s, t, failMode, packs);
        }
      }
    }
  }

  lemma NothingFound(x: Subject)
    ensures Findings(x, []) == []
  {
  }

  /** An output the layers find nothing in. */
  function Quiet(host: Host, payload: map<string, Json>): Subject {
    Subject(host, Server, "send", payload, Features(1, false, false, false, [], None))
  }

  /** A cross-border output, no rule about it: the server flags it, the SDK blocks it. */
  lemma SdkBlocksWhereServerFlags(host: Host)
    ensures var x := Subject(host, Server, "send", map[], Features(1, false, true, false, [], None));
            var policy := Document(Rules([]));
            && Scans(x, policy, NoRule, NoRule)
            && ServerAnswer(x, policy, NoRule, "deny_on_error", []) == Some(Verdict(Flagged, true, Some(Red)))
            && SdkAnswer(AsSdk(x), policy, NoRule, "deny_on_error", []) == Some(Verdict(Blocked, false, Some(Red)))
  {
  }

  /** A label in the documented field and a rule about it: the server blocks, the SDK passes it. */
  lemma SdkPassesWhereServerBlocks(host: Host)
    ensures var x := Quiet(host, map["classifier" := JStr("hi")]);
            var policy := Document(Rules([ClassifierRule(JStr("hi"))]));
            && Scans(x, policy, Found(RuleHit(0, Red, Deny)), NoRule)
            && ServerAnswer(x, policy, Found(RuleHit(0, Red, Deny)), "deny_on_error", []) ==
               Some(Verdict(Blocked, false, Some(Red)))
            && SdkAnswer(AsSdk(x), policy, NoRule, "deny_on_error", []) == Some(Verdict(Compliant, true, Some(Green)))
  {
    var x := Quiet(host, map["classifier" := JStr("hi")]);
    var rules := [ClassifierRule(JStr("hi"))];
    assert Field(x.payload, "classifier") == JStr("hi") && Field(x.payload, "_classifier_tier") == JNull;
    ClassifierRuleSplits(x.host, x.action, x.payload, x.features);
    assert Meeting(x, 0, rules[0]) == Found(RuleHit(0, Red, Deny)) && Meeting(AsSdk(x), 0, rules[0]) == NoRule;
    assert Decides(x, rules, 0);
    NothingFound(x);
    NothingFound(AsSdk(x));
  }

  /** An active policy whose rules are not a list: the server fails closed, the SDK raises. */
  lemma SdkRaisesWhereServerBlocks(host: Host)
    ensures var x := Quiet(host, map[]);
            var policy := Document(NotAList);
            && Scans(x, policy, EngineError, EngineError)
            && ServerAnswer(x, policy, EngineError, "deny_on_error", []) == Some(Verdict(Blocked, false, Some(Red)))
            && SdkAnswer(AsSdk(x), policy, EngineError, "deny_on_error", []) == None
  {
  }

  /** No active policy but a pack: the server does not evaluate, the SDK calls the output compliant. */
  lemma SdkJudgesWithoutPolicy(host: Host)
    ensures var x := Quiet(host, map[]);
            var packs := [Pack("code", "AE", Listed([]))];
            && Scans(x, NoPolicy, NoRule, NoRule)
            && ServerAnswer(x, NoPolicy, NoRule, "deny_on_error", packs) == Some(UNEVALUATED)
            && SdkAnswer(AsSdk(x), NoPolicy, NoRule, "deny_on_error", packs) ==
               Some(Verdict(Compliant, true, Some(Green)))
  {
    var x, pack := Quiet(host, map[]), Pack("code", "AE", Listed([]));
    assert [pack][..0] == [];
    assert AllFindings(AsSdk(x), [pack]) == [];
  }

  /** An active policy that is an empty document, no packs: the server evaluates, the SDK takes its cache for empty. */
  lemma SdkIgnoresEmptyPolicy(host: Host)
    ensures var x := Quiet(host, map[]);
            && Scans(x, EmptyDocument, NoRule, NoRule)
            && ServerAnswer(x, EmptyDocument, NoRule, "deny_on_error", []) ==
               Some(Verdict(Compliant, true, Some(Green)))
            && SdkAnswer(AsSdk(x), EmptyDocument, NoRule, "deny_on_error", []) == Some(UNEVALUATED)
  {
    NothingFound(Quiet(host, map[]));
  }

  // ---------------------------------------------------------------------------------------
  // Whole evaluations
  // ---------------------------------------------------------------------------------------

  method LayerFloor(f: Features) returns (floor: Tier)
    ensures floor == Floor(f)
  {
    var layers := RunDeterministicLayers(f);
    floor := LayerFloorTier(layers);
    FloorIsStrictestLayer(f, floor);
  }

  /** The active policy and the packs in force, as the gate applies them. */
  method EvaluateOnServer(x: Subject, policy: ActivePolicy, failMode: string, packs: seq<Pack>)
    returns (r: Option<Verdict>)
    requires x.side.Server?
    ensures exists s :: IsScan(x, RulesOf(policy), s)
    ensures forall s :: IsScan(x, RulesOf(policy), s) ==> r == ServerAnswer(x, policy, s, failMode, packs)
  {
    if policy.NoPolicy? {
      assert IsScan(x, RulesOf(policy), NoRule);
      return Some(UNEVALUATED);
    }
    var scan := TheScan(x, RulesOf(policy));
    if scan.Crash? {
      return None;
    }
    if scan.EngineError? && failMode == "deny_on_error" {
      return Some(Verdict(Blocked, false, Some(Red)));
    }
    var floor := LayerFloor(x.features);
    var own := if scan.EngineError? then Own(Yellow, Flag, true, None) else ServerOwn(floor, scan, failMode);
    r := Advised(x, own, packs);
  }

  /** The outcome of the scan, which is the only one. */
  method TheScan(x: Subject, doc: RulesDoc) returns (scan: Scan)
    ensures IsScan(x, doc, scan) && forall s :: IsScan(x, doc, s) ==> s == scan
  {
    scan := FirstMatchingRule(x, doc);
    forall s | IsScan(x, doc, s)
      ensures s == scan
    {
      ScanUnique(x, doc, s, scan);
    }
  }

  /** The institution's own outcome, with the packs' findings on top. */
  method Advised(x: Subject, own: Own, packs: seq<Pack>) returns (r: Option<Verdict>)
    ensures var t := CombinedTier(own.tier, Findings(x, packs));
            r == Some(Verdict(DeriveStatus(own.allowed, t, Findings(x, packs) != []), own.allowed, Some(t)))
  {
    var findings := EvaluatePacks(x, packs);
    var tier := CombineTiers(own.tier, findings);
    r := Some(Verdict(DeriveStatus(own.allowed, tier, findings != []), own.allowed, Some(tier)));
  }

  /** From the cached copy: the active policy's document, kept unless it is empty, and the packs. */
  method EvaluateInSdk(x: Subject, policy: ActivePolicy, failMode: string, packs: seq<Pack>)
    returns (r: Option<Verdict>)
    requires x.side.Sdk?
    ensures exists s :: IsScan(x, RulesOf(policy), s)
    ensures forall s :: IsScan(x, RulesOf(policy), s) ==> r == SdkAnswer(x, policy, s, failMode, packs)
  {
    if !policy.Document? && packs == [] {
      assert IsScan(x, RulesOf(policy), NoRule);
      return Some(UNEVALUATED);
    }
    var scan := TheScan(x, RulesOf(policy));
    if scan.Crash? || scan.EngineError? {
      return None;
    }
    for k := 0 to |packs|
      invariant Iterable(packs[..k])
    {
      if packs[k].rules == Unlisted(false) {
        assert packs[k] in packs;
        return None;
      }
      assert packs[..k + 1] == packs[..k] + [packs[k]];
    }
    assert packs[..|packs|] == packs;
    var floor := LayerFloor(x.features);
    r := Advised(x, SdkOwn(floor, scan, failMode), packs);
  }
}
