/**
 The regulation watcher, one source at a time (app/services/reg_watch.py).

 A fetch either raises or yields a status code and a text; pacing and retries are not part of this
 model. Text normalisation and hashing are parameters.
 */
module RegWatch {
  import opened Prelude

  /** Intervals in seconds, and the failing streak after which a 429 is called a block. */
  datatype Config = Config(checkInterval: int, manualRetry: int, persistentThreshold: nat)

  datatype Text = Text(contentHash: string -> string, normalise: string -> string)

  const SNAPSHOT_LIMIT := 200_000

  /** Width of the column that holds a pack's version string, and length of a publication's time stamp. */
  const VERSION_LIMIT := 32
  const STAMP_LENGTH := 14

  const ATTESTOR_LIMIT := 200

  /** A text column takes any character but NUL. */
  predicate Storable(s: string) {
    '\0' !in s
  }

  datatype Mode = Auto | Manual

  datatype Source = Source(
    url: string, contentHash: Option<string>, pendingHash: Option<string>, snapshot: Option<string>,
    failures: nat, mode: Mode, nextCheck: Option<int>)

  function NewSource(url: string): Source {
    Source(url, None, None, None, 0, Auto, None)
  }

  datatype Fetch = Raised | Response(code: int, body: string)

  // ---------------------------------------------------------------------------------------
  // Packs
  // ---------------------------------------------------------------------------------------

  /** `meaning` is everything else a rule says: tier, match, reason, guidance. */
  datatype Rule =
    | NotObject(raw: string)
    | Rule(
        id: Option<string>, candidate: Option<string>, provision: Option<string>, provisionSource: Option<string>,
        meaning: string)

  datatype Verification = Unverified | SourceVerified | AttestedVerified

  datatype PackVersion = PackVersion(version: string, rules: seq<Rule>, targeting: string, verification: Verification)

  predicate Filled(field: Option<string>) {
    field.Some? && field.value != ""
  }

  /** Gate 2: literally present, up to normalisation; a blank claim never is. */
  predicate AppearsVerbatim(t: Text, claim: string, snapshot: string) {
    !IsBlank(claim) && Contains(t.normalise(snapshot), t.normalise(claim))
  }

  /** A declared, unconfirmed candidate that the text proves. */
  predicate Provable(t: Text, r: Rule, snapshot: string) {
    r.Rule? && Filled(r.candidate) && Filled(r.id) && !Filled(r.provision)
    && AppearsVerbatim(t, r.candidate.value, snapshot)
  }

  /** Confirmations by rule id; a later rule with the same id wins. */
  function Confirmations(t: Text, rules: seq<Rule>, snapshot: string): map<string, string> {
    if rules == [] then map[]
    else
      var n := |rules| - 1;
      var found := Confirmations(t, rules[..n], snapshot);
      if Provable(t, rules[n], snapshot) then found[rules[n].id.value := rules[n].candidate.value] else found
  }

  function Confirm(r: Rule, confirmed: map<string, string>, url: string): Rule {
    if r.Rule? && r.id.Some? && r.id.value in confirmed
    then r.(provision := Some(confirmed[r.id.value]), provisionSource := Some(url)) else r
  }

  function ConfirmAll(rules: seq<Rule>, confirmed: map<string, string>, url: string): (r: seq<Rule>)
    ensures |r| == |rules| && forall i :: 0 <= i < |r| ==> r[i] == Confirm(rules[i], confirmed, url)
  {
    seq(|rules|, i requires 0 <= i < |rules| => Confirm(rules[i], confirmed, url))
  }

  method ExtractConfirmations(t: Text, rules: seq<Rule>, snapshot: string) returns (found: map<string, string>)
    ensures found == Confirmations(t, rules, snapshot)
  {
    found := map[];
    for i := 0 to |rules|
      invariant found == Confirmations(t, rules[..i], snapshot)
    {
      assert rules[..i + 1][..i] == rules[..i];
      var rule := rules[i];
      if rule.Rule? && Filled(rule.candidate) && Filled(rule.id) && !Filled(rule.provision) {
        if AppearsVerbatim(t, rule.candidate.value, snapshot) {
          found := found[rule.id.value := rule.candidate.value];
        }
      }
    }
    assert rules[..|rules|] == rules;
  }

  /** A new version string extends the old one, and says which kind of provenance it rests on. */
  function PublishedVersion(p: PackVersion, mode: Mode, stamp: string): string {
    p.version + (if mode.Manual? then "+av" else "+sv") + stamp
  }

  function Published(p: PackVersion, confirmed: map<string, string>, src: Source, stamp: string): PackVersion {
    PackVersion(PublishedVersion(p, src.mode, stamp), ConfirmAll(p.rules, confirmed, src.url), p.targeting,
                if src.mode.Manual? then AttestedVerified else SourceVerified)
  }

  /** Insert a version row, or overwrite the row that already carries this version string. */
  function Upsert(versions: seq<PackVersion>, p: PackVersion): seq<PackVersion> {
    if versions == [] then [p]
    else if versions[0].version == p.version then [p] + versions[1..]
    else [versions[0]] + Upsert(versions[1..], p)
  }

  // ---------------------------------------------------------------------------------------
  // One body of text
  // ---------------------------------------------------------------------------------------

  datatype Change =
    | FetchFailed | SourceGone | SourceBlocked | SourceUnavailable | SourceRecovered | TextSupplied
    | SourceDrift(before: Option<string>, after: string)
    | ProvisionConfirmed(autoPublished: bool)

  /** What one check did: the source, the pack versions, the changes recorded, and whether drift was found. */
  datatype Outcome = Outcome(
    source: Source, versions: seq<PackVersion>, changes: seq<Change>, drifted: bool, cited: map<string, string>)

  function Truncated(text: string): string {
    if |text| <= SNAPSHOT_LIMIT then text else text[..SNAPSHOT_LIMIT]
  }

  /** Different from what was accepted, and not yet seen twice. */
  predicate MustWait(t: Text, src: Source, text: string, confirmDrift: bool) {
    && src.contentHash.Some? && src.contentHash.value != t.contentHash(text)
    && confirmDrift && src.pendingHash != Some(t.contentHash(text))
  }

  function EvaluateSnapshot(t: Text, src: Source, versions: seq<PackVersion>, text: string, autoPublish: bool,
                            confirmDrift: bool, stamp: string): Outcome
  {
    var newHash := t.contentHash(text);
    if MustWait(t, src, text, confirmDrift) then Outcome(src.(pendingHash := Some(newHash)), versions, [], false, map[])
    else
      var drifted := src.contentHash.Some? && src.contentHash.value != newHash;
      var kept := src.(pendingHash := None, snapshot := Some(Truncated(text)), contentHash := Some(newHash));
      if versions == [] then Outcome(kept, versions, [], drifted, map[])
      else
        var latest := versions[|versions| - 1];
        var confirmed := Confirmations(t, latest.rules, Truncated(text));
        var drift := if drifted then [SourceDrift(src.contentHash, newHash)] else [];
        if confirmed == map[] then Outcome(kept, versions, drift, drifted, map[])
        else if !autoPublish then Outcome(kept, versions, drift + [ProvisionConfirmed(false)], drifted, map[])
        else Outcome(kept, Upsert(versions, Published(latest, confirmed, kept, stamp)),
                     drift + [ProvisionConfirmed(true)], drifted, confirmed)
  }

  function FailureChange(cfg: Config, code: int, failures: nat): Change {
    if code == 404 || code == 410 then SourceGone
    else if code == 401 || code == 403 then SourceBlocked
    else if code == 429 && failures >= cfg.persistentThreshold then SourceBlocked
    else SourceUnavailable
  }

  /** Fetch, detect drift, confirm what can be proven. */
  function CheckSource(cfg: Config, t: Text, src: Source, versions: seq<PackVersion>, fetch: Fetch, now: int,
                       autoPublish: bool, stamp: string): Outcome
  {
    var failed := fetch.Raised? || fetch.code >= 400;
    if failed then
      var wait := if src.mode.Manual? then cfg.manualRetry else cfg.checkInterval;
      var change := if fetch.Raised? then FetchFailed else FailureChange(cfg, fetch.code, src.failures + 1);
      Outcome(src.(failures := src.failures + 1, nextCheck := Some(now + wait)), versions,
              if src.mode.Manual? then [] else [change], false, map[])
    else
      var reached := src.(failures := 0, mode := Auto, nextCheck := Some(now + cfg.checkInterval));
      var o := EvaluateSnapshot(t, reached, versions, fetch.body, autoPublish, true, stamp);
      o.(changes := (if src.mode.Manual? then [SourceRecovered] else []) + o.changes)
  }

  /** The last is a database error, not one the watcher raises itself. */
  datatype WatchError = NoAttestor | NoText | NotStored

  /** Text a named person obtained by hand. */
  function SupplyText(cfg: Config, t: Text, src: Source, versions: seq<PackVersion>, text: string, attestedBy: string,
                      now: int, autoPublish: bool, stamp: string): Result<Outcome, WatchError>
  {
    if IsBlank(attestedBy) then Err(NoAttestor)
    else if IsBlank(text) then Err(NoText)
    else
      var attested := src.(mode := Manual, failures := 0, nextCheck := Some(now + cfg.manualRetry));
      var o := EvaluateSnapshot(t, attested, versions, text, autoPublish, false, stamp);
      Ok(o.(changes := [TextSupplied] + o.changes))
  }

  // ---------------------------------------------------------------------------------------
  // What the database refuses
  // ---------------------------------------------------------------------------------------

  /** An evaluation that would publish. */
  predicate Publishes(t: Text, versions: seq<PackVersion>, text: string, autoPublish: bool) {
    autoPublish && versions != [] && Confirmations(t, versions[|versions| - 1].rules, Truncated(text)) != map[]
  }

  /** The database refuses what an evaluation writes: the text retained, or the version string published. */
  predicate EvaluationRaises(t: Text, src: Source, versions: seq<PackVersion>, text: string, autoPublish: bool,
                             confirmDrift: bool, stamp: string)
  {
    !MustWait(t, src, text, confirmDrift) &&
    (|| !Storable(Truncated(text))
     || (Publishes(t, versions, text, autoPublish)
         && |PublishedVersion(versions[|versions| - 1], src.mode, stamp)| > VERSION_LIMIT))
  }

  /** Only the fetch is guarded; what a check writes after it may raise. */
  predicate CheckRaises(t: Text, src: Source, versions: seq<PackVersion>, fetch: Fetch, autoPublish: bool,
                        stamp: string)
  {
    fetch.Response? && fetch.code < 400
    && EvaluationRaises(t, src.(mode := Auto), versions, fetch.body, autoPublish, true, stamp)
  }

  function AttestedBy(name: string): string {
    var who := Stripped(name);
    if |who| <= ATTESTOR_LIMIT then who else who[..ATTESTOR_LIMIT]
  }

  predicate SupplyRaises(t: Text, src: Source, versions: seq<PackVersion>, text: string, attestedBy: string,
                         autoPublish: bool, stamp: string)
  {
    !IsBlank(attestedBy) && !IsBlank(text)
    && (!Storable(AttestedBy(attestedBy))
        || EvaluationRaises(t, src.(mode := Manual), versions, text, autoPublish, false, stamp))
  }

  /** The source as the database holds it after a check: a check that raises is rolled back. */
  function StoredAfter(cfg: Config, t: Text, src: Source, versions: seq<PackVersion>, fetch: Fetch, now: int,
                       autoPublish: bool, stamp: string): Source
  {
    if CheckRaises(t, src, versions, fetch, autoPublish, stamp) then src
    else CheckSource(cfg, t, src, versions, fetch, now, autoPublish, stamp).source
  }

  predicate BookedAhead(src: Source, now: int) {
    src.nextCheck.Some? && src.nextCheck.value > now
  }

  /**
   A check of a due source books a time in the future, whether it succeeds, fails to fetch or gets an error
   status, exactly when the database takes what it writes. Otherwise the source is as due as before.
   */
  lemma BookedExactly(cfg: Config, t: Text, src: Source, versions: seq<PackVersion>, fetch: Fetch, now: int,
                      autoPublish: bool, stamp: string)
    requires cfg.checkInterval > 0 && cfg.manualRetry > 0 && !BookedAhead(src, now)
    ensures BookedAhead(StoredAfter(cfg, t, src, versions, fetch, now, autoPublish, stamp), now) <==>
            !CheckRaises(t, src, versions, fetch, autoPublish, stamp)
  {
  }

  /**
   A page with a NUL in it, as a PDF has: the first check raises, and so does every later one that gets the
   page again, because the source is still as it was.
   */
  lemma NulPageRaises(cfg: Config, t: Text, url: string, versions: seq<PackVersion>, autoPublish: bool, stamp: string,
                      now: int)
    ensures var src, fetch := NewSource(url), Response(200, "%PDF\0");
            && CheckRaises(t, src, versions, fetch, autoPublish, stamp)
            && StoredAfter(cfg, t, src, versions, fetch, now, autoPublish, stamp) == src
  {
    assert "%PDF\0"[4] == '\0';
  }

  // ---------------------------------------------------------------------------------------
  // What a check records, books and publishes
  // ---------------------------------------------------------------------------------------

  /**
   A fetch that fails: the streak grows, a source kept by hand is tried again after its own interval and nothing
   is reported, any other after the usual one with one change that tells a raised fetch, a page that is gone, a
   site that blocks us, at once or after a lasting 429, and anything else apart.
   */
  lemma FailureExactly(cfg: Config, t: Text, src: Source, versions: seq<PackVersion>, fetch: Fetch, now: int,
                       auto: bool, stamp: string)
    requires fetch.Raised? || fetch.code >= 400
    ensures var o := CheckSource(cfg, t, src, versions, fetch, now, auto, stamp);
            && o.source == src.(failures := src.failures + 1,
                                nextCheck := Some(now + if src.mode == Manual then cfg.manualRetry
                                                        else cfg.checkInterval))
            && o.versions == versions && !o.drifted && o.cited == map[]
            && (src.mode == Manual <==> o.changes == [])
            && (src.mode == Auto ==>
                  && |o.changes| == 1
                  && (o.changes[0] == FetchFailed <==> fetch == Raised)
                  && (o.changes[0] == SourceGone <==> fetch.Response? && fetch.code in {404, 410})
                  && (o.changes[0] == SourceBlocked <==>
                        fetch.Response? && (fetch.code in {401, 403}
                                            || (fetch.code == 429 && src.failures + 1 >= cfg.persistentThreshold)))
                  && o.changes[0] in {FetchFailed, SourceGone, SourceBlocked, SourceUnavailable})
  {
  }

  /** A page that answers: back to automatic checking, said so if it was kept by hand, and the streak ends. */
  lemma AnswerExactly(cfg: Config, t: Text, src: Source, versions: seq<PackVersion>, code: int, body: string, now: int,
                      auto: bool, stamp: string)
    requires code < 400
    ensures var o := CheckSource(cfg, t, src, versions, Response(code, body), now, auto, stamp);
            && o.source.mode == Auto && o.source.failures == 0 && o.source.url == src.url
            && o.source.nextCheck == Some(now + cfg.checkInterval)
            && (src.mode == Manual ==> o.changes != [] && o.changes[0] == SourceRecovered)
            && forall k :: 0 <= k < |o.changes| && o.changes[k] == SourceRecovered ==> src.mode == Manual && k == 0
  {
  }

  /** Among the characters of the text that are kept there is a NUL. */
  predicate KeepsNul(text: string) {
    exists i :: 0 <= i < |text| && i < 200_000 && text[i] == '\0'
  }

  lemma StorableExactly(text: string)
    ensures Storable(Truncated(text)) <==> !KeepsNul(text)
  {
    var kept := Truncated(text);
    assert forall i :: 0 <= i < |kept| ==> kept[i] == text[i];
    if !Storable(kept) {
      var i :| 0 <= i < |kept| && kept[i] == '\0';
      assert text[i] == '\0';
    }
    if KeepsNul(text) {
      var i :| 0 <= i < |text| && i < 200_000 && text[i] == '\0';
      assert kept[i] == '\0';
    }
  }

  /**
   A check raises exactly when the page answers, its text does not await a second sighting, and either the part of
   it that is kept has a NUL in it or it is to be published under a version string of more than 32 characters.
   */
  lemma CheckRaisesExactly(t: Text, src: Source, versions: seq<PackVersion>, fetch: Fetch, auto: bool, stamp: string)
    ensures CheckRaises(t, src, versions, fetch, auto, stamp) <==>
            && fetch.Response? && fetch.code < 400
            && (|| src.contentHash == None || src.contentHash == Some(t.contentHash(fetch.body))
                || src.pendingHash == Some(t.contentHash(fetch.body)))
            && (|| KeepsNul(fetch.body)
                || (&& auto && versions != []
                    && ProvesSome(t, versions[|versions| - 1].rules, Truncated(fetch.body))
                    && |versions[|versions| - 1].version| + 3 + |stamp| > 32))
  {
    if fetch.Response? {
      StorableExactly(fetch.body);
      if versions != [] {
        ProvesSomeExactly(t, versions[|versions| - 1].rules, Truncated(fetch.body));
      }
    }
  }

  /** A text put in by hand: the source is kept by hand from then on, and the text is reported first. */
  lemma SupplyExactly(cfg: Config, t: Text, src: Source, versions: seq<PackVersion>, text: string, who: string,
                      now: int, auto: bool, stamp: string)
    ensures var r := SupplyText(cfg, t, src, versions, text, who, now, auto, stamp);
            && (r == Err(NoAttestor) <==> IsBlank(who)) && (r == Err(NoText) <==> !IsBlank(who) && IsBlank(text))
            && (r.Ok? <==> !IsBlank(who) && !IsBlank(text))
            && (r.Ok? ==>
                  var o := r.value;
                  && o.source.mode == Manual && o.source.failures == 0 && o.source.url == src.url
                  && o.source.nextCheck == Some(now + cfg.manualRetry)
                  && o.changes != [] && o.changes[0] == TextSupplied)
  {
  }

  /**
   A text proves a rule's candidate: the rule is declared under an id and not confirmed yet, and the candidate,
   which is not blank, stands in the text, both normalised.
   */
  lemma ProvableExactly(t: Text, r: Rule, snapshot: string)
    ensures Provable(t, r, snapshot) <==>
            && r.Rule? && r.id.Some? && r.id.value != "" && (r.provision == None || r.provision == Some(""))
            && r.candidate.Some? && !IsBlank(r.candidate.value)
            && exists before, after :: t.normalise(snapshot) == before + t.normalise(r.candidate.value) + after
  {
    if r.Rule? && r.candidate.Some? {
      ContainsExactly(t.normalise(snapshot), t.normalise(r.candidate.value));
      assert r.candidate.value == "" ==> IsBlank(r.candidate.value);
    }
  }

  ghost predicate ProvesSome(t: Text, rules: seq<Rule>, snapshot: string) {
    exists i :: 0 <= i < |rules| && Provable(t, rules[i], snapshot)
  }

  lemma ProvesSomeExactly(t: Text, rules: seq<Rule>, snapshot: string)
    ensures Confirmations(t, rules, snapshot) != map[] <==> ProvesSome(t, rules, snapshot)
  {
    forall id: string
      ensures id in Confirmations(t, rules, snapshot) <==>
              exists i :: 0 <= i < |rules| && Provable(t, rules[i], snapshot) && rules[i].id == Some(id)
    {
      ConfirmedAreProvable(t, rules, snapshot, id);
    }
    var found := Confirmations(t, rules, snapshot);
    if found != map[] {
      assert found.Keys != {};
      var id :| id in found;
    }
  }

  /**
   One body of text: a new one that awaits its second sighting leaves everything but the pending hash. Otherwise
   it is kept, cut at the limit, and confirmations are reported, as published or not, exactly when it proves a
   rule of the newest version; it is published exactly then, if publishing is on.
   */
  lemma EvaluationExactly(t: Text, src: Source, versions: seq<PackVersion>, text: string, auto: bool, confirm: bool,
                          stamp: string)
    ensures var o, hash := EvaluateSnapshot(t, src, versions, text, auto, confirm, stamp), t.contentHash(text);
            var changed := src.contentHash.Some? && src.contentHash != Some(hash);
            if changed && confirm && src.pendingHash != Some(hash)
            then o.source == src.(pendingHash := Some(hash)) && o.versions == versions && o.changes == [] && !o.drifted
            else
              && (o.drifted <==> changed)
              && o.source.contentHash == Some(hash) && o.source.pendingHash == None && o.source.snapshot.Some?
              && o.source == src.(contentHash := Some(hash), pendingHash := None, snapshot := o.source.snapshot)
              && o.source.snapshot.value <= text
              && |o.source.snapshot.value| == (if |text| < 200_000 then |text| else 200_000)
              && var proves := versions != []
                               && ProvesSome(t, versions[|versions| - 1].rules, o.source.snapshot.value);
                 && (ProvisionConfirmed(auto) in o.changes <==> proves) && ProvisionConfirmed(!auto) !in o.changes
                 && (o.cited != map[] <==> proves && auto) && (o.cited == map[] ==> o.versions == versions)
  {
    if versions != [] {
      ProvesSomeExactly(t, versions[|versions| - 1].rules, Truncated(text));
    }
  }

  // ---------------------------------------------------------------------------------------
  // Runs over all sources of one pack
  // ---------------------------------------------------------------------------------------

  /** Sources citing one pack, its version rows in creation order, and every citation the watcher published. */
  datatype World = World(sources: seq<Source>, versions: seq<PackVersion>, log: seq<Citation>)

  datatype Op =
    | Check(i: nat, fetch: Fetch, now: int, autoPublish: bool, stamp: string)
    | Supply(i: nat, text: string, attestedBy: string, now: int, autoPublish: bool, stamp: string)

  /** The outcome of an operation on source i of a world, if there is one. */
  function OpOutcome(cfg: Config, t: Text, w: World, op: Op): Option<Outcome> {
    if op.i >= |w.sources| then None
    else
      match op
      case Check(i, fetch, now, auto, stamp) =>
        Some(CheckSource(cfg, t, w.sources[i], w.versions, fetch, now, auto, stamp))
      case Supply(i, text, who, now, auto, stamp) =>
        var r := SupplyText(cfg, t, w.sources[i], w.versions, text, who, now, auto, stamp);
        if r.Ok? then Some(r.value) else None
  }

  /** One published citation, and the text retained at that moment. */
  datatype Citation = Citation(ruleId: string, provision: string, snapshot: string)

  /** The confirmations of one check, as log entries. */
  ghost predicate Logs(log: seq<Citation>, cited: map<string, string>, snapshot: string) {
    && (forall k :: 0 <= k < |log| ==>
          log[k].ruleId in cited && log[k] == Citation(log[k].ruleId, cited[log[k].ruleId], snapshot))
    && (forall id :: id in cited ==> Citation(id, cited[id], snapshot) in log)
  }

  ghost predicate Next(cfg: Config, t: Text, w: World, op: Op, w': World) {
    var o := OpOutcome(cfg, t, w, op);
    if o.None? then w' == w
    else
      && w'.sources == w.sources[op.i := o.value.source] && w'.versions == o.value.versions
      && |w.log| <= |w'.log| && w'.log[..|w.log|] == w.log
      && (o.value.cited == map[] ==> w'.log == w.log)
      && (o.value.cited != map[] ==>
            o.value.source.snapshot.Some? && Logs(w'.log[|w.log|..], o.value.cited, o.value.source.snapshot.value))
  }

  /** The database refuses what the operation writes. */
  predicate OpRaises(t: Text, w: World, op: Op) {
    op.i < |w.sources| &&
    match op
    case Check(i, fetch, _, auto, stamp) => CheckRaises(t, w.sources[i], w.versions, fetch, auto, stamp)
    case Supply(i, text, who, _, auto, stamp) => SupplyRaises(t, w.sources[i], w.versions, text, who, auto, stamp)
  }

  /**
   The operations committed, in order. One that raises takes its whole transaction back with it, the checks of
   other sources in the same run included, and leaves nothing.
   */
  ghost predicate Trace(cfg: Config, t: Text, ws: seq<World>, ops: seq<Op>) {
    |ws| == |ops| + 1 && forall k :: 0 <= k < |ops| ==> NextAt(cfg, t, ws, ops, k)
  }

  ghost predicate NextAt(cfg: Config, t: Text, ws: seq<World>, ops: seq<Op>, k: nat)
    requires k < |ops| && |ws| == |ops| + 1
  {
    !OpRaises(t, ws[k], ops[k]) && Next(cfg, t, ws[k], ops[k], ws[k + 1])
  }

  // ---------------------------------------------------------------------------------------
  // Drift
  // ---------------------------------------------------------------------------------------

  /** A text that was seen, and whether a person put it there. */
  datatype Sighting = Sighting(hash: string, byHand: bool)

  /** The text an operation brings, if it brings one. */
  function TextOf(op: Op): Option<string> {
    match op
    case Check(_, Raised, _, _, _) => None
    case Check(_, Response(code, body), _, _, _) => if code >= 400 then None else Some(body)
    case Supply(_, text, who, _, _, _) => if IsBlank(who) || IsBlank(text) then None else Some(text)
  }

  function Seen(t: Text, op: Op): Option<Sighting> {
    if TextOf(op).None? then None else Some(Sighting(t.contentHash(TextOf(op).value), op.Supply?))
  }

  /** What was seen of source i, oldest first. */
  function Sightings(t: Text, ops: seq<Op>, i: nat): seq<Sighting> {
    if ops == [] then []
    else
      var rest, op := Sightings(t, ops[..|ops| - 1], i), ops[|ops| - 1];
      if op.i == i && Seen(t, op).Some? then rest + [Seen(t, op).value] else rest
  }

  /** The newest sighting that counts: the first one, one put in by hand, or one that repeats the last. */
  function Accepted(s: seq<Sighting>): Option<string> {
    if s == [] then None
    else
      var n := |s| - 1;
      if n == 0 || s[n].byHand || s[n].hash == s[n - 1].hash then Some(s[n].hash) else Accepted(s[..n])
  }

  /** Length of the failing streak the history of source i ends in. */
  function FailingStreak(t: Text, ops: seq<Op>, i: nat): nat {
    if ops == [] then 0
    else
      var streak, op := FailingStreak(t, ops[..|ops| - 1], i), ops[|ops| - 1];
      if op.i != i then streak else if Seen(t, op).Some? then 0 else if op.Check? then streak + 1 else streak
  }

  lemma {:induction false} AcceptedSome(s: seq<Sighting>)
    requires s != []
    ensures Accepted(s).Some?
  {
    if |s| > 1 {
      AcceptedSome(s[..|s| - 1]);
    }
  }

  /** The accepted hash, and the last sighting if it still awaits confirmation. */
  ghost predicate Tracks(src: Source, s: seq<Sighting>) {
    && src.contentHash == Accepted(s)
    && src.pendingHash == (if s != [] && Some(s[|s| - 1].hash) != Accepted(s) then Some(s[|s| - 1].hash) else None)
  }

  /** Evaluating a text after the sightings s finds drift. */
  predicate Drifts(s: seq<Sighting>, seen: Sighting) {
    s != [] && Some(seen.hash) != Accepted(s) && (seen.byHand || seen.hash == s[|s| - 1].hash)
  }

  /** A change that reports drift is on record. */
  ghost predicate ReportsDrift(changes: seq<Change>) {
    exists k :: 0 <= k < |changes| && changes[k].SourceDrift?
  }

  lemma EvaluationTracks(t: Text, src: Source, s: seq<Sighting>, versions: seq<PackVersion>, text: string,
                         auto: bool, byHand: bool, stamp: string)
    requires Tracks(src, s)
    ensures var o := EvaluateSnapshot(t, src, versions, text, auto, !byHand, stamp);
            var seen := Sighting(t.contentHash(text), byHand);
            && Tracks(o.source, s + [seen]) && o.source.failures == src.failures
            && (o.drifted <==> Drifts(s, seen))
  {
    var seen := Sighting(t.contentHash(text), byHand);
    assert (s + [seen])[..|s|] == s;
    if s != [] {
      AcceptedSome(s);
    }
  }

  /** Drift on a source some pack cites is put before a person, with both hashes, and nothing else is called drift. */
  lemma DriftIsReported(t: Text, src: Source, versions: seq<PackVersion>, text: string, auto: bool, confirm: bool,
                        stamp: string)
    ensures var o := EvaluateSnapshot(t, src, versions, text, auto, confirm, stamp);
            && (ReportsDrift(o.changes) <==> o.drifted && versions != [])
            && (o.drifted && versions != [] ==> o.changes[0] == SourceDrift(src.contentHash, t.contentHash(text)))
  {
    var o := EvaluateSnapshot(t, src, versions, text, auto, confirm, stamp);
    if o.drifted && versions != [] {
      assert o.changes[0].SourceDrift?;
    }
  }

  /** What one operation on source i does, given what was seen of it before. */
  ghost predicate ActsOn(o: Outcome, src: Source, versions: seq<PackVersion>, s: seq<Sighting>, seen: Option<Sighting>,
                         check: bool)
  {
    && Tracks(o.source, if seen.Some? then s + [seen.value] else s)
    && o.source.failures == (if seen.Some? then 0 else if check then src.failures + 1 else src.failures)
    && (o.drifted <==> seen.Some? && Drifts(s, seen.value))
    && (ReportsDrift(o.changes) <==> o.drifted && versions != [])
    && (o.drifted && versions != [] ==> SourceDrift(Accepted(s), seen.value.hash) in o.changes)
  }

  lemma CheckActs(cfg: Config, t: Text, src: Source, versions: seq<PackVersion>, s: seq<Sighting>, fetch: Fetch,
                  now: int, auto: bool, stamp: string, i: nat)
    requires Tracks(src, s)
    ensures ActsOn(CheckSource(cfg, t, src, versions, fetch, now, auto, stamp), src, versions, s,
                   Seen(t, Check(i, fetch, now, auto, stamp)), true)
  {
    if fetch.Response? && fetch.code < 400 {
      var reached := src.(failures := 0, mode := Auto, nextCheck := Some(now + cfg.checkInterval));
      var o := EvaluateSnapshot(t, reached, versions, fetch.body, auto, true, stamp);
      var first := if src.mode.Manual? then [SourceRecovered] else [];
      EvaluationActs(t, reached, versions, s, fetch.body, auto, false, stamp, first);
      assert CheckSource(cfg, t, src, versions, fetch, now, auto, stamp) == o.(changes := first + o.changes);
    } else {
      FailureActs(cfg, t, src, versions, s, fetch, now, auto, stamp);
    }
  }

  lemma FailureActs(cfg: Config, t: Text, src: Source, versions: seq<PackVersion>, s: seq<Sighting>, fetch: Fetch,
                    now: int, auto: bool, stamp: string)
    requires Tracks(src, s) && (fetch.Raised? || fetch.code >= 400)
    ensures ActsOn(CheckSource(cfg, t, src, versions, fetch, now, auto, stamp), src, versions, s, None, true)
  {
  }

  /** An evaluation, with whatever is recorded before it. */
  lemma EvaluationActs(t: Text, src: Source, versions: seq<PackVersion>, s: seq<Sighting>, text: string, auto: bool,
                       byHand: bool, stamp: string, first: seq<Change>)
    requires Tracks(src, s) && src.failures == 0 && forall k :: 0 <= k < |first| ==> !first[k].SourceDrift?
    ensures var o := EvaluateSnapshot(t, src, versions, text, auto, !byHand, stamp);
            forall before: Source, check ::
              ActsOn(o.(changes := first + o.changes), before, versions, s,
                     Some(Sighting(t.contentHash(text), byHand)), check)
  {
    EvaluationTracks(t, src, s, versions, text, auto, byHand, stamp);
    DriftIsReported(t, src, versions, text, auto, !byHand, stamp);
    ReportsShift(first, EvaluateSnapshot(t, src, versions, text, auto, !byHand, stamp).changes);
  }

  lemma SupplyActs(cfg: Config, t: Text, src: Source, versions: seq<PackVersion>, s: seq<Sighting>, text: string,
                   who: string, now: int, auto: bool, stamp: string, i: nat)
    requires Tracks(src, s) && !IsBlank(who) && !IsBlank(text)
    ensures ActsOn(SupplyText(cfg, t, src, versions, text, who, now, auto, stamp).value, src, versions, s,
                   Seen(t, Supply(i, text, who, now, auto, stamp)), false)
  {
    var attested := src.(mode := Manual, failures := 0, nextCheck := Some(now + cfg.manualRetry));
    EvaluationActs(t, attested, versions, s, text, auto, true, stamp, [TextSupplied]);
  }

  lemma ReportsShift(first: seq<Change>, rest: seq<Change>)
    requires forall k :: 0 <= k < |first| ==> !first[k].SourceDrift?
    ensures ReportsDrift(first + rest) <==> ReportsDrift(rest)
    ensures forall c :: c in rest ==> c in first + rest
  {
    if ReportsDrift(rest) {
      var k :| 0 <= k < |rest| && rest[k].SourceDrift?;
      assert (first + rest)[|first| + k].SourceDrift?;
    }
  }

  /** Source i is there, in a state that tells what was seen of it. */
  ghost predicate Followed(t: Text, w: World, ops: seq<Op>, i: nat) {
    && i < |w.sources|
    && Tracks(w.sources[i], Sightings(t, ops, i))
    && w.sources[i].failures == FailingStreak(t, ops, i)
  }

  lemma FollowedStep(cfg: Config, t: Text, w: World, ops: seq<Op>, op: Op, w': World, i: nat)
    requires Followed(t, w, ops, i) && Next(cfg, t, w, op, w')
    ensures Followed(t, w', ops + [op], i)
  {
    assert (ops + [op])[..|ops|] == ops;
    if op.i == i && OpOutcome(cfg, t, w, op).Some? {
      OpActs(cfg, t, w, ops, op);
    }
  }

  lemma OpActs(cfg: Config, t: Text, w: World, ops: seq<Op>, op: Op)
    requires Followed(t, w, ops, op.i) && OpOutcome(cfg, t, w, op).Some?
    ensures ActsOn(OpOutcome(cfg, t, w, op).value, w.sources[op.i], w.versions, Sightings(t, ops, op.i), Seen(t, op),
                   op.Check?)
  {
    match op
    case Check(i, fetch, now, auto, stamp) =>
      CheckActs(cfg, t, w.sources[i], w.versions, Sightings(t, ops, i), fetch, now, auto, stamp, i);
    case Supply(i, text, who, now, auto, stamp) =>
      SupplyActs(cfg, t, w.sources[i], w.versions, Sightings(t, ops, i), text, who, now, auto, stamp, i);
  }

  /**
   Over every run, with any packs, clock and publishing mode: the state of a source is a function of what was
   seen of it. Its accepted hash, the sighting still awaiting confirmation, and its failing streak.
   */
  lemma {:induction false} SourceTracksSightings(cfg: Config, t: Text, ws: seq<World>, ops: seq<Op>, i: nat, k: nat)
    requires Trace(cfg, t, ws, ops) && k < |ws|
    requires i < |ws[0].sources| && ws[0].sources[i] == NewSource(ws[0].sources[i].url)
    ensures Followed(t, ws[k], ops[..k], i)
    decreases k
  {
    if k > 0 {
      SourceTracksSightings(cfg, t, ws, ops, i, k - 1);
      assert ops[..k - 1] + [ops[k - 1]] == ops[..k];
      assert NextAt(cfg, t, ws, ops, k - 1);
      FollowedStep(cfg, t, ws[k - 1], ops[..k - 1], ops[k - 1], ws[k], i);
    }
  }

  /**
   Drift confirmation, over every run: an operation on a source finds drift exactly when it brings a text that
   differs from the accepted one and, unless a person supplied it, repeats the last text seen; failures in
   between make no difference. Whenever some pack cites the source, drift is recorded with both hashes, and
   nothing else is recorded as drift.
   */
  lemma DriftExactly(cfg: Config, t: Text, ws: seq<World>, ops: seq<Op>, k: nat)
    requires Trace(cfg, t, ws, ops) && k < |ops|
    requires ops[k].i < |ws[0].sources| && ws[0].sources[ops[k].i] == NewSource(ws[0].sources[ops[k].i].url)
    requires OpOutcome(cfg, t, ws[k], ops[k]).Some?
    ensures var o := OpOutcome(cfg, t, ws[k], ops[k]).value;
            var s, seen := Sightings(t, ops[..k], ops[k].i), Seen(t, ops[k]);
            && (o.drifted <==> seen.Some? && Drifts(s, seen.value))
            && (ReportsDrift(o.changes) <==> o.drifted && ws[k].versions != [])
            && (o.drifted && ws[k].versions != [] ==> SourceDrift(Accepted(s), seen.value.hash) in o.changes)
  {
    SourceTracksSightings(cfg, t, ws, ops, ops[k].i, k);
    OpActs(cfg, t, ws[k], ops[..k], ops[k]);
  }

  /** No text of source i is seen twice running, and none is supplied by hand. */
  ghost predicate Alternates(t: Text, ops: seq<Op>, i: nat) {
    && (forall k :: 0 <= k < |ops| && ops[k].i == i ==> ops[k].Check?)
    && NeverTwice(Sightings(t, ops, i))
  }

  ghost predicate NeverTwice(s: seq<Sighting>) {
    forall j :: 0 < j < |s| ==> s[j].hash != s[j - 1].hash
  }

  /**
   Over every run, a page that never shows the same text twice running is never reported, and keeps its
   first text.
   */
  lemma AlternatingNeverDrifts(cfg: Config, t: Text, ws: seq<World>, ops: seq<Op>, i: nat)
    requires Trace(cfg, t, ws, ops) && Alternates(t, ops, i)
    requires i < |ws[0].sources| && ws[0].sources[i] == NewSource(ws[0].sources[i].url)
    ensures forall k :: 0 <= k < |ops| && ops[k].i == i && OpOutcome(cfg, t, ws[k], ops[k]).Some? ==>
              && !OpOutcome(cfg, t, ws[k], ops[k]).value.drifted
              && !ReportsDrift(OpOutcome(cfg, t, ws[k], ops[k]).value.changes)
    ensures var s := Sightings(t, ops, i);
            i < |ws[|ops|].sources| && (s != [] ==> ws[|ops|].sources[i].contentHash == Some(s[0].hash))
  {
    forall k | 0 <= k < |ops| && ops[k].i == i && OpOutcome(cfg, t, ws[k], ops[k]).Some?
      ensures !OpOutcome(cfg, t, ws[k], ops[k]).value.drifted
      ensures !ReportsDrift(OpOutcome(cfg, t, ws[k], ops[k]).value.changes)
    {
      DriftExactly(cfg, t, ws, ops, k);
      NoSecondSighting(t, ops, i, k);
    }
    assert ops[..|ops|] == ops;
    SourceTracksSightings(cfg, t, ws, ops, i, |ops|);
    NoneByHand(t, ops, i);
    FirstStands(Sightings(t, ops, i));
  }

  lemma NoSecondSighting(t: Text, ops: seq<Op>, i: nat, k: nat)
    requires k < |ops| && ops[k].i == i && Alternates(t, ops, i)
    ensures Seen(t, ops[k]).Some? ==> !Drifts(Sightings(t, ops[..k], i), Seen(t, ops[k]).value)
  {
    SightingsPrefix(t, ops, i, k + 1);
    assert ops[..k + 1][..k] == ops[..k];
    var s := Sightings(t, ops[..k], i);
    if Seen(t, ops[k]).Some? && s != [] {
      assert Sightings(t, ops[..k + 1], i)[|s|] == Seen(t, ops[k]).value;
      assert Sightings(t, ops, i)[|s|].hash != Sightings(t, ops, i)[|s| - 1].hash;
    }
  }

  lemma {:induction false} SightingsPrefix(t: Text, ops: seq<Op>, i: nat, k: nat)
    requires k <= |ops|
    ensures Sightings(t, ops[..k], i) <= Sightings(t, ops, i)
    decreases |ops|
  {
    if k < |ops| {
      var n := |ops| - 1;
      SightingsPrefix(t, ops[..n], i, k);
      assert ops[..n][..k] == ops[..k];
    } else {
      assert ops[..k] == ops;
    }
  }

  lemma {:induction false} NoneByHand(t: Text, ops: seq<Op>, i: nat)
    requires forall k :: 0 <= k < |ops| && ops[k].i == i ==> ops[k].Check?
    ensures forall j :: 0 <= j < |Sightings(t, ops, i)| ==> !Sightings(t, ops, i)[j].byHand
    decreases |ops|
  {
    if ops != [] {
      NoneByHand(t, ops[..|ops| - 1], i);
    }
  }

  lemma {:induction false} FirstStands(s: seq<Sighting>)
    requires NeverTwice(s) && forall j :: 0 <= j < |s| ==> !s[j].byHand
    ensures s != [] ==> Accepted(s) == Some(s[0].hash)
  {
    if |s| > 1 {
      FirstStands(s[..|s| - 1]);
    }
  }

  // ---------------------------------------------------------------------------------------
  // No invented citations
  // ---------------------------------------------------------------------------------------

  ghost predicate UniqueIds(rules: seq<Rule>) {
    forall i, j :: 0 <= i < j < |rules| && rules[i].Rule? && rules[j].Rule? && Filled(rules[i].id) ==>
      rules[i].id != rules[j].id
  }

  /** `now` may cite what `was` did not, and only its own candidate; nothing else about the rule moved. */
  ghost predicate OnlyConfirmed(was: Rule, now: Rule) {
    || now == was
    || (&& was.Rule? && now.Rule? && !Filled(was.provision) && Filled(was.candidate)
        && now.provision == was.candidate
        && now.(provision := was.provision, provisionSource := was.provisionSource) == was)
  }

  lemma {:induction false} ConfirmedAreProvable(t: Text, rules: seq<Rule>, snapshot: string, id: string)
    ensures id in Confirmations(t, rules, snapshot) <==>
            exists i :: 0 <= i < |rules| && Provable(t, rules[i], snapshot) && rules[i].id == Some(id)
    ensures id in Confirmations(t, rules, snapshot) ==>
            exists i :: 0 <= i < |rules| && Provable(t, rules[i], snapshot) && rules[i].id == Some(id)
                        && Confirmations(t, rules, snapshot)[id] == rules[i].candidate.value
  {
    if rules != [] {
      var n := |rules| - 1;
      ConfirmedAreProvable(t, rules[..n], snapshot, id);
      assert forall i :: 0 <= i < n ==> rules[..n][i] == rules[i];
    }
  }

  /** With unique ids, publishing fills in exactly the provable rules, each with its own candidate. */
  lemma PublishFillsProvable(t: Text, rules: seq<Rule>, snapshot: string, url: string, i: nat)
    requires UniqueIds(rules) && i < |rules|
    ensures var now := ConfirmAll(rules, Confirmations(t, rules, snapshot), url);
            && OnlyConfirmed(rules[i], now[i])
            && (now[i] != rules[i] ==> Provable(t, rules[i], snapshot))
            && (Provable(t, rules[i], snapshot) ==> now[i].provision == rules[i].candidate)
  {
    var found := Confirmations(t, rules, snapshot);
    if rules[i].Rule? && rules[i].id.Some? {
      ConfirmedAreProvable(t, rules, snapshot, rules[i].id.value);
    }
  }

  lemma PublishKeepsIds(t: Text, rules: seq<Rule>, snapshot: string, url: string)
    requires UniqueIds(rules)
    ensures UniqueIds(ConfirmAll(rules, Confirmations(t, rules, snapshot), url))
  {
  }

  /** Having published what a text proves, the same text proves nothing new. */
  lemma RecheckFindsNothing(t: Text, rules: seq<Rule>, snapshot: string, url: string)
    requires UniqueIds(rules)
    ensures Confirmations(t, ConfirmAll(rules, Confirmations(t, rules, snapshot), url), snapshot) == map[]
  {
    var now := ConfirmAll(rules, Confirmations(t, rules, snapshot), url);
    var again := Confirmations(t, now, snapshot);
    forall id: string
      ensures id !in again
    {
      ConfirmedAreProvable(t, now, snapshot, id);
      forall i | 0 <= i < |now|
        ensures !Provable(t, now[i], snapshot)
      {
        PublishFillsProvable(t, rules, snapshot, url, i);
      }
    }
  }

  /** No row's version string properly extends that of the newest row. */
  ghost predicate NewestIsLongest(versions: seq<PackVersion>) {
    versions != [] &&
    forall i :: 0 <= i < |versions| ==> !(versions[|versions| - 1].version < versions[i].version)
  }

  lemma {:induction false} UpsertAppends(versions: seq<PackVersion>, p: PackVersion)
    requires forall i :: 0 <= i < |versions| ==> versions[i].version != p.version
    ensures Upsert(versions, p) == versions + [p]
  {
    if versions != [] {
      UpsertAppends(versions[1..], p);
      assert versions == [versions[0]] + versions[1..];
    }
  }

  /** The first row that carries the version string is overwritten in place. */
  lemma {:induction false} UpsertReplaces(versions: seq<PackVersion>, p: PackVersion, i: nat)
    requires i < |versions| && versions[i].version == p.version
    requires forall j :: 0 <= j < i ==> versions[j].version != p.version
    ensures Upsert(versions, p) == versions[i := p]
  {
    if i > 0 {
      UpsertReplaces(versions[1..], p, i - 1);
    }
  }

  /** A string that extends the newest version string is new, and nothing properly extends it either. */
  lemma ExtensionIsNew(versions: seq<PackVersion>, p: PackVersion)
    requires NewestIsLongest(versions) && versions[|versions| - 1].version < p.version
    ensures forall i :: 0 <= i < |versions| ==> versions[i].version != p.version
    ensures NewestIsLongest(versions + [p])
  {
    var newest := versions[|versions| - 1].version;
    forall i | 0 <= i < |versions|
      ensures !(p.version <= versions[i].version)
    {
      if p.version <= versions[i].version {
        PrefixOfPrefix(newest, p.version, versions[i].version);
      }
    }
  }

  lemma PrefixOfPrefix(a: string, b: string, c: string)
    requires a < b && b <= c
    ensures a < c
  {
    assert c[..|a|] == c[..|b|][..|a|];
  }

  /** What an evaluation does to the version list: nothing, or one appended version that only confirms. */
  lemma EvaluationAppends(t: Text, src: Source, versions: seq<PackVersion>, text: string, auto: bool, confirm: bool,
                          stamp: string)
    requires NewestIsLongest(versions)
    ensures var o := EvaluateSnapshot(t, src, versions, text, auto, confirm, stamp);
            var latest := versions[|versions| - 1];
            && (o.cited == map[] ==> o.versions == versions)
            && (o.cited != map[] ==>
                  && o.source.snapshot == Some(Truncated(text))
                  && o.cited == Confirmations(t, latest.rules, Truncated(text))
                  && o.versions == versions + [Published(latest, o.cited, o.source, stamp)])
            && NewestIsLongest(o.versions)
  {
    var o := EvaluateSnapshot(t, src, versions, text, auto, confirm, stamp);
    var latest := versions[|versions| - 1];
    if o.cited != map[] {
      var p := Published(latest, o.cited, o.source, stamp);
      assert latest.version < p.version;
      ExtensionIsNew(versions, p);
      UpsertAppends(versions, p);
    }
  }

  /** What holds of a world that started from the rules `first`. */
  ghost predicate Faithful(t: Text, first: seq<Rule>, w: World) {
    && NewestIsLongest(w.versions) && UniqueIds(Latest(w))
    && |Latest(w)| == |first|
    && (forall i :: 0 <= i < |first| ==> OnlyConfirmed(first[i], Latest(w)[i]))
    && (forall k :: 0 <= k < |w.log| ==> Grounded(t, first, w.log[k]))
    && (forall i :: 0 <= i < |first| && Latest(w)[i] != first[i] ==> CitedInLog(first[i], w.log))
  }

  function Latest(w: World): seq<Rule>
    requires w.versions != []
  {
    w.versions[|w.versions| - 1].rules
  }

  /** A citation is some rule's declared candidate, present in the text retained when it was published. */
  ghost predicate Grounded(t: Text, first: seq<Rule>, c: Citation) {
    && AppearsVerbatim(t, c.provision, c.snapshot)
    && exists i :: 0 <= i < |first| && first[i].Rule? && first[i].id == Some(c.ruleId)
                   && !Filled(first[i].provision) && first[i].candidate == Some(c.provision)
  }

  ghost predicate CitedInLog(r: Rule, log: seq<Citation>) {
    r.Rule? && exists k :: 0 <= k < |log| && r.id == Some(log[k].ruleId) && r.candidate == Some(log[k].provision)
  }

  lemma FilledOnce(was: Rule, mid: Rule, now: Rule)
    requires OnlyConfirmed(was, mid) && OnlyConfirmed(mid, now)
    ensures OnlyConfirmed(was, now)
  {
  }

  lemma PublishedFaithful(t: Text, first: seq<Rule>, w: World, w': World, snapshot: string, src: Source, stamp: string)
    requires Faithful(t, first, w)
    requires var cited := Confirmations(t, Latest(w), snapshot);
             && |w.log| <= |w'.log| && w'.log[..|w.log|] == w.log && Logs(w'.log[|w.log|..], cited, snapshot)
             && w'.versions == w.versions + [Published(w.versions[|w.versions| - 1], cited, src, stamp)]
    requires NewestIsLongest(w'.versions)
    ensures Faithful(t, first, w')
  {
    var rules := Latest(w);
    var cited := Confirmations(t, rules, snapshot);
    var added := w'.log[|w.log|..];
    assert Latest(w') == ConfirmAll(rules, cited, src.url);
    PublishKeepsIds(t, rules, snapshot, src.url);
    forall i | 0 <= i < |first|
      ensures OnlyConfirmed(first[i], Latest(w')[i])
      ensures Latest(w')[i] != first[i] ==> CitedInLog(first[i], w'.log)
    {
      PublishFillsProvable(t, rules, snapshot, src.url, i);
      FilledOnce(first[i], rules[i], Latest(w')[i]);
      if rules[i] != first[i] {
        LogKept(first[i], w.log, w'.log);
      } else if Latest(w')[i] != rules[i] {
        FreshlyCited(t, rules, snapshot, i, w.log, w'.log);
      }
    }
    forall k | 0 <= k < |w'.log|
      ensures Grounded(t, first, w'.log[k])
    {
      if k < |w.log| {
        assert w'.log[k] == w.log[k];
      } else {
        assert w'.log[k] == added[k - |w.log|];
        FreshGrounded(t, first, rules, snapshot, w'.log[k]);
      }
    }
  }

  lemma LogKept(r: Rule, log: seq<Citation>, log': seq<Citation>)
    requires |log| <= |log'| && log'[..|log|] == log && CitedInLog(r, log)
    ensures CitedInLog(r, log')
  {
    var k :| 0 <= k < |log| && r.id == Some(log[k].ruleId) && r.candidate == Some(log[k].provision);
    assert log'[k] == log[k];
  }

  lemma FreshlyCited(t: Text, rules: seq<Rule>, snapshot: string, i: nat, log: seq<Citation>, log': seq<Citation>)
    requires UniqueIds(rules) && i < |rules| && Provable(t, rules[i], snapshot)
    requires |log| <= |log'| && Logs(log'[|log|..], Confirmations(t, rules, snapshot), snapshot)
    ensures CitedInLog(rules[i], log')
  {
    var id := rules[i].id.value;
    var cited := Confirmations(t, rules, snapshot);
    ConfirmedAreProvable(t, rules, snapshot, id);
    var c := Citation(id, cited[id], snapshot);
    assert c in log'[|log|..];
    var k :| 0 <= k < |log'[|log|..]| && log'[|log|..][k] == c;
    assert log'[|log| + k] == c;
  }

  lemma FreshGrounded(t: Text, first: seq<Rule>, rules: seq<Rule>, snapshot: string, c: Citation)
    requires |rules| == |first| && UniqueIds(rules)
    requires forall i :: 0 <= i < |first| ==> OnlyConfirmed(first[i], rules[i])
    requires var cited := Confirmations(t, rules, snapshot);
             c.ruleId in cited && c == Citation(c.ruleId, cited[c.ruleId], snapshot)
    ensures Grounded(t, first, c)
  {
    ConfirmedAreProvable(t, rules, snapshot, c.ruleId);
    var i :| 0 <= i < |rules| && Provable(t, rules[i], snapshot) && rules[i].id == Some(c.ruleId)
             && Confirmations(t, rules, snapshot)[c.ruleId] == rules[i].candidate.value;
    assert rules[i] == first[i];
  }

  /** What was cited came from the newest version and the text retained, and made one new version. */
  ghost predicate CitesLatest(t: Text, versions: seq<PackVersion>, o: Outcome, stamp: string)
    requires versions != []
  {
    var latest := versions[|versions| - 1];
    o.cited != map[] ==>
      && o.source.snapshot.Some?
      && o.cited == Confirmations(t, latest.rules, o.source.snapshot.value)
      && o.versions == versions + [Published(latest, o.cited, o.source, stamp)]
      && NewestIsLongest(o.versions)
  }

  lemma CheckCites(cfg: Config, t: Text, src: Source, versions: seq<PackVersion>, fetch: Fetch, now: int, auto: bool,
                   stamp: string)
    requires NewestIsLongest(versions)
    ensures CitesLatest(t, versions, CheckSource(cfg, t, src, versions, fetch, now, auto, stamp), stamp)
  {
    if fetch.Response? && fetch.code < 400 {
      var reached := src.(failures := 0, mode := Auto, nextCheck := Some(now + cfg.checkInterval));
      EvaluationAppends(t, reached, versions, fetch.body, auto, true, stamp);
    }
  }

  lemma SupplyCites(cfg: Config, t: Text, src: Source, versions: seq<PackVersion>, text: string, who: string, now: int,
                    auto: bool, stamp: string)
    requires NewestIsLongest(versions)
    ensures var r := SupplyText(cfg, t, src, versions, text, who, now, auto, stamp);
            r.Ok? ==> CitesLatest(t, versions, r.value, stamp)
  {
    var attested := src.(mode := Manual, failures := 0, nextCheck := Some(now + cfg.manualRetry));
    EvaluationAppends(t, attested, versions, text, auto, false, stamp);
  }

  lemma CitedOutcome(cfg: Config, t: Text, w: World, op: Op)
    requires NewestIsLongest(w.versions)
    ensures var o := OpOutcome(cfg, t, w, op); o.Some? ==> CitesLatest(t, w.versions, o.value, op.stamp)
  {
    if op.i < |w.sources| {
      match op
      case Check(i, fetch, now, auto, stamp) =>
        CheckCites(cfg, t, w.sources[i], w.versions, fetch, now, auto, stamp);
      case Supply(i, text, who, now, auto, stamp) =>
        SupplyCites(cfg, t, w.sources[i], w.versions, text, who, now, auto, stamp);
    }
  }

  lemma OpFaithful(cfg: Config, t: Text, first: seq<Rule>, w: World, op: Op, w': World)
    requires Faithful(t, first, w) && Next(cfg, t, w, op, w')
    ensures Faithful(t, first, w')
  {
    var o := OpOutcome(cfg, t, w, op);
    if o.Some? && o.value.cited != map[] {
      CitedOutcome(cfg, t, w, op);
      PublishedFaithful(t, first, w, w', o.value.source.snapshot.value, o.value.source, op.stamp);
    } else {
      UncitedKeepsVersions(cfg, t, w, op);
    }
  }

  lemma UncitedKeepsVersions(cfg: Config, t: Text, w: World, op: Op)
    requires OpOutcome(cfg, t, w, op).Some? ==> OpOutcome(cfg, t, w, op).value.cited == map[]
    ensures OpOutcome(cfg, t, w, op).Some? ==> OpOutcome(cfg, t, w, op).value.versions == w.versions
  {
  }

  /**
   Over every run of checks and hand-supplied texts: each citation the watcher published was a declared
   candidate present in the text retained at that moment, confirmed provisions and all other rule content
   are unchanged, and every rule that changed is accounted for in the log.
   */
  lemma {:induction false} NoInventedCitations(cfg: Config, t: Text, ws: seq<World>, ops: seq<Op>, k: nat)
    requires SoundRun(cfg, t, ws, ops) && k < |ws|
    ensures Kept(t, ws[0].versions, ws[k])
    decreases k
  {
    if k > 0 {
      NoInventedCitations(cfg, t, ws, ops, k - 1);
      assert NextAt(cfg, t, ws, ops, k - 1);
      KeptByStep(cfg, t, ws[0].versions, ws[k - 1], ops[k - 1], ws[k]);
    }
  }

  /** The newest version's rules faithfully carried on, every row still there, and the same institutions reached. */
  ghost predicate Kept(t: Text, start: seq<PackVersion>, w: World) {
    && start != [] && start <= w.versions
    && Faithful(t, start[|start| - 1].rules, w)
    && w.versions[|w.versions| - 1].targeting == start[|start| - 1].targeting
  }

  lemma KeptByStep(cfg: Config, t: Text, start: seq<PackVersion>, w: World, op: Op, w': World)
    requires Kept(t, start, w) && Next(cfg, t, w, op, w')
    ensures Kept(t, start, w')
  {
    OpFaithful(cfg, t, start[|start| - 1].rules, w, op, w');
    VersionsKept(cfg, t, w, op, w');
  }

  /** Publishing appends a version row; rows already there are never edited. */
  lemma VersionsKept(cfg: Config, t: Text, w: World, op: Op, w': World)
    requires NewestIsLongest(w.versions) && Next(cfg, t, w, op, w')
    ensures w.versions <= w'.versions
    ensures w'.versions[|w'.versions| - 1].targeting == w.versions[|w.versions| - 1].targeting
  {
    var o := OpOutcome(cfg, t, w, op);
    if o.Some? && o.value.cited != map[] {
      CitedOutcome(cfg, t, w, op);
    } else {
      UncitedKeepsVersions(cfg, t, w, op);
    }
  }

  // ---------------------------------------------------------------------------------------
  // A text publishes once
  // ---------------------------------------------------------------------------------------

  ghost predicate NothingProvable(t: Text, rules: seq<Rule>, snapshot: string) {
    forall i :: 0 <= i < |rules| ==> !Provable(t, rules[i], snapshot)
  }

  /** The newest rules hold nothing this text would prove. */
  ghost predicate Exhausted(t: Text, w: World, snapshot: string) {
    w.versions != [] && NothingProvable(t, Latest(w), snapshot)
  }

  lemma NothingToConfirm(t: Text, rules: seq<Rule>, snapshot: string)
    ensures NothingProvable(t, rules, snapshot) <==> Confirmations(t, rules, snapshot) == map[]
  {
    forall id: string
      ensures id in Confirmations(t, rules, snapshot) <==>
              exists i :: 0 <= i < |rules| && Provable(t, rules[i], snapshot) && rules[i].id == Some(id)
    {
      ConfirmedAreProvable(t, rules, snapshot, id);
    }
    if !NothingProvable(t, rules, snapshot) {
      var i :| 0 <= i < |rules| && Provable(t, rules[i], snapshot);
      assert rules[i].id.value in Confirmations(t, rules, snapshot);
    }
  }

  /** The operation brings a text and retains it, rather than waiting to see it again. */
  predicate Retains(t: Text, w: World, op: Op) {
    && op.i < |w.sources| && TextOf(op).Some?
    && !MustWait(t, w.sources[op.i], TextOf(op).value, op.Check?)
  }

  /** Once a text has been retained with publishing on, it proves nothing more. */
  lemma RetainedTextExhausted(cfg: Config, t: Text, w: World, op: Op, w': World)
    requires Sound(w) && Next(cfg, t, w, op, w')
    requires Retains(t, w, op) && op.autoPublish
    ensures Exhausted(t, w', Truncated(TextOf(op).value))
  {
    var text := Truncated(TextOf(op).value);
    var o := OpOutcome(cfg, t, w, op).value;
    NothingToConfirm(t, Latest(w), text);
    if o.cited != map[] {
      CitingExhausts(cfg, t, w, op, w');
    }
  }

  lemma CitingExhausts(cfg: Config, t: Text, w: World, op: Op, w': World)
    requires Sound(w) && Next(cfg, t, w, op, w') && Retains(t, w, op) && op.autoPublish
    requires OpOutcome(cfg, t, w, op).Some? && OpOutcome(cfg, t, w, op).value.cited != map[]
    ensures Exhausted(t, w', Truncated(TextOf(op).value))
  {
    var text := Truncated(TextOf(op).value);
    CitedOutcome(cfg, t, w, op);
    RecheckFindsNothing(t, Latest(w), text, OpOutcome(cfg, t, w, op).value.source.url);
    NothingToConfirm(t, Latest(w'), text);
  }

  /** Publishing other things never makes a text prove something again. */
  lemma StaysExhausted(cfg: Config, t: Text, w: World, op: Op, w': World, snapshot: string)
    requires Sound(w) && Next(cfg, t, w, op, w')
    requires Exhausted(t, w, snapshot)
    ensures Exhausted(t, w', snapshot)
  {
    var o := OpOutcome(cfg, t, w, op);
    if o.Some? && o.value.cited != map[] {
      CitedOutcome(cfg, t, w, op);
      var text, url := o.value.source.snapshot.value, o.value.source.url;
      forall i | 0 <= i < |Latest(w')|
        ensures !Provable(t, Latest(w')[i], snapshot)
      {
        PublishFillsProvable(t, Latest(w), text, url, i);
      }
    } else {
      UncitedKeepsVersions(cfg, t, w, op);
    }
  }

  /** A run that starts with sound version rows and an empty log. */
  ghost predicate SoundRun(cfg: Config, t: Text, ws: seq<World>, ops: seq<Op>) {
    Trace(cfg, t, ws, ops) && Sound(ws[0]) && ws[0].log == []
  }

  ghost predicate Sound(w: World) {
    NewestIsLongest(w.versions) && UniqueIds(Latest(w))
  }

  lemma SoundStep(cfg: Config, t: Text, ws: seq<World>, ops: seq<Op>, k: nat)
    requires SoundRun(cfg, t, ws, ops) && k < |ops|
    ensures Sound(ws[k]) && Next(cfg, t, ws[k], ops[k], ws[k + 1])
  {
    NoInventedCitations(cfg, t, ws, ops, k);
    assert NextAt(cfg, t, ws, ops, k);
  }

  lemma {:induction false} ExhaustedAfter(cfg: Config, t: Text, ws: seq<World>, ops: seq<Op>, k: nat, m: nat,
                                          snapshot: string)
    requires SoundRun(cfg, t, ws, ops) && k <= m < |ws| && Exhausted(t, ws[k], snapshot)
    ensures Exhausted(t, ws[m], snapshot)
    decreases m
  {
    if k < m {
      ExhaustedAfter(cfg, t, ws, ops, k, m - 1, snapshot);
      SoundStep(cfg, t, ws, ops, m - 1);
      StaysExhausted(cfg, t, ws[m - 1], ops[m - 1], ws[m], snapshot);
    }
  }

  lemma ExhaustedPublishesNothing(cfg: Config, t: Text, w: World, op: Op, w': World)
    requires Next(cfg, t, w, op, w') && TextOf(op).Some? && Exhausted(t, w, Truncated(TextOf(op).value))
    ensures w'.versions == w.versions && w'.log == w.log
    ensures var o := OpOutcome(cfg, t, w, op);
            o.Some? ==> forall c :: c in o.value.changes ==> !c.ProvisionConfirmed?
  {
    NothingToConfirm(t, Latest(w), Truncated(TextOf(op).value));
    if op.i < |w.sources| {
      QuietOutcome(cfg, t, w, op);
    }
  }

  lemma QuietOutcome(cfg: Config, t: Text, w: World, op: Op)
    requires op.i < |w.sources| && w.versions != [] && TextOf(op).Some?
    requires Confirmations(t, Latest(w), Truncated(TextOf(op).value)) == map[]
    ensures var o := OpOutcome(cfg, t, w, op);
            o.Some? && o.value.versions == w.versions && o.value.cited == map[]
            && forall c :: c in o.value.changes ==> !c.ProvisionConfirmed?
  {
    match op
    case Check(i, fetch, now, auto, stamp) =>
      var reached := w.sources[i].(failures := 0, mode := Auto, nextCheck := Some(now + cfg.checkInterval));
      QuietEvaluation(t, reached, w.versions, fetch.body, auto, true, stamp);
    case Supply(i, text, who, now, auto, stamp) =>
      var attested := w.sources[i].(mode := Manual, failures := 0, nextCheck := Some(now + cfg.manualRetry));
      QuietEvaluation(t, attested, w.versions, text, auto, false, stamp);
  }

  lemma QuietEvaluation(t: Text, src: Source, versions: seq<PackVersion>, text: string, auto: bool, confirm: bool,
                        stamp: string)
    requires versions != [] && Confirmations(t, versions[|versions| - 1].rules, Truncated(text)) == map[]
    ensures var o := EvaluateSnapshot(t, src, versions, text, auto, confirm, stamp);
            o.versions == versions && o.cited == map[] && forall c :: c in o.changes ==> !c.ProvisionConfirmed?
  {
  }

  /**
   Over every run: once a text was retained with publishing on, bringing the same text again, to any source
   and after anything else was checked, supplied or published in between, publishes and confirms nothing.
   */
  lemma TextPublishesOnce(cfg: Config, t: Text, ws: seq<World>, ops: seq<Op>, k: nat, m: nat)
    requires SoundRun(cfg, t, ws, ops) && k < m < |ops|
    requires Retains(t, ws[k], ops[k]) && ops[k].autoPublish
    requires TextOf(ops[m]).Some? && Truncated(TextOf(ops[m]).value) == Truncated(TextOf(ops[k]).value)
    ensures ws[m + 1].versions == ws[m].versions && ws[m + 1].log == ws[m].log
    ensures var o := OpOutcome(cfg, t, ws[m], ops[m]);
            o.Some? ==> forall c :: c in o.value.changes ==> !c.ProvisionConfirmed?
  {
    var snapshot := Truncated(TextOf(ops[k]).value);
    SoundStep(cfg, t, ws, ops, k);
    RetainedTextExhausted(cfg, t, ws[k], ops[k], ws[k + 1]);
    ExhaustedAfter(cfg, t, ws, ops, k + 1, m, snapshot);
    SoundStep(cfg, t, ws, ops, m);
    ExhaustedPublishesNothing(cfg, t, ws[m], ops[m], ws[m + 1]);
  }

  // ---------------------------------------------------------------------------------------
  // How often a pack can be published
  // ---------------------------------------------------------------------------------------

  /** Nothing was published, or one version, whose string is longer by a mark and a stamp. */
  ghost predicate OnceAtMost(start: seq<PackVersion>, versions: seq<PackVersion>) {
    && start != [] && NewestIsLongest(versions)
    && (|| versions == start
        || (&& |versions| == |start| + 1 && start <= versions
            && |versions[|start|].version| == |start[|start| - 1].version| + 3 + STAMP_LENGTH))
  }

  lemma CitingPublishes(cfg: Config, t: Text, w: World, op: Op)
    requires OpOutcome(cfg, t, w, op).Some? && OpOutcome(cfg, t, w, op).value.cited != map[]
    requires w.versions != [] && !OpRaises(t, w, op)
    ensures |w.versions[|w.versions| - 1].version| + 3 + |op.stamp| <= VERSION_LIMIT
  {
  }

  lemma PublishesOnceStep(cfg: Config, t: Text, start: seq<PackVersion>, w: World, op: Op, w': World)
    requires OnceAtMost(start, w.versions) && |op.stamp| == STAMP_LENGTH
    requires !OpRaises(t, w, op) && Next(cfg, t, w, op, w')
    ensures OnceAtMost(start, w'.versions)
  {
    var o := OpOutcome(cfg, t, w, op);
    if o.Some? && o.value.cited != map[] {
      CitingPublishes(cfg, t, w, op);
      CitedOutcome(cfg, t, w, op);
    } else {
      UncitedKeepsVersions(cfg, t, w, op);
    }
  }

  lemma PublishesOnceAt(cfg: Config, t: Text, ws: seq<World>, ops: seq<Op>, k: nat)
    requires Trace(cfg, t, ws, ops) && k < |ops| && |ops[k].stamp| == STAMP_LENGTH
    requires OnceAtMost(ws[0].versions, ws[k].versions)
    ensures OnceAtMost(ws[0].versions, ws[k + 1].versions)
  {
    assert NextAt(cfg, t, ws, ops, k);
    PublishesOnceStep(cfg, t, ws[0].versions, ws[k], ops[k], ws[k + 1]);
  }

  /**
   Over every run the watcher publishes at most one version on top of one a person wrote: the string of a
   second would not fit its column, and the check that tries to publish it raises.
   */
  lemma {:induction false} PublishesAtMostOnce(cfg: Config, t: Text, ws: seq<World>, ops: seq<Op>, k: nat)
    requires Trace(cfg, t, ws, ops) && k < |ws| && NewestIsLongest(ws[0].versions)
    requires forall j :: 0 <= j < |ops| ==> |ops[j].stamp| == STAMP_LENGTH
    ensures OnceAtMost(ws[0].versions, ws[k].versions)
    decreases k
  {
    if k > 0 {
      PublishesAtMostOnce(cfg, t, ws, ops, k - 1);
      PublishesOnceAt(cfg, t, ws, ops, k - 1);
    }
  }

  /** Publishing would touch this rule. */
  ghost predicate Rewritten(t: Text, rules: seq<Rule>, snapshot: string, i: nat)
    requires i < |rules|
  {
    rules[i].Rule? && rules[i].id.Some? && rules[i].id.value in Confirmations(t, rules, snapshot)
  }

  /** Rules that share the id of a provable rule are provable themselves, by the same candidate. */
  ghost predicate SharersAgree(t: Text, rules: seq<Rule>, snapshot: string) {
    forall i, j :: 0 <= i < |rules| && 0 <= j < |rules| && Provable(t, rules[j], snapshot)
                   && rules[i].Rule? && rules[i].id == rules[j].id ==>
      Provable(t, rules[i], snapshot) && rules[i].candidate == rules[j].candidate
  }

  /** For any rules at all: publishing only fills in own, proven candidates exactly when sharers of an id agree. */
  lemma OwnCandidatesExactly(t: Text, rules: seq<Rule>, snapshot: string)
    ensures (forall i :: 0 <= i < |rules| && Rewritten(t, rules, snapshot, i) ==>
               && Provable(t, rules[i], snapshot)
               && rules[i].candidate == Some(Confirmations(t, rules, snapshot)[rules[i].id.value])) <==>
            SharersAgree(t, rules, snapshot)
  {
    forall i | 0 <= i < |rules| && rules[i].Rule? && rules[i].id.Some?
      ensures Rewritten(t, rules, snapshot, i) <==>
              exists j :: 0 <= j < |rules| && Provable(t, rules[j], snapshot) && rules[j].id == rules[i].id
      ensures Rewritten(t, rules, snapshot, i) ==>
              exists j :: 0 <= j < |rules| && Provable(t, rules[j], snapshot) && rules[j].id == rules[i].id
                          && Confirmations(t, rules, snapshot)[rules[i].id.value] == rules[j].candidate.value
    {
      ConfirmedAreProvable(t, rules, snapshot, rules[i].id.value);
    }
    if SharersAgree(t, rules, snapshot) {
    } else {
      var i, j :| 0 <= i < |rules| && 0 <= j < |rules| && Provable(t, rules[j], snapshot)
                  && rules[i].Rule? && rules[i].id == rules[j].id
                  && !(Provable(t, rules[i], snapshot) && rules[i].candidate == rules[j].candidate);
      assert Rewritten(t, rules, snapshot, i) && Rewritten(t, rules, snapshot, j);
    }
  }

  /** Two rules sharing an id: the second's candidate overwrites the first rule's confirmed provision. */
  lemma SharedIdsOverwrite(t: Text)
    requires AppearsVerbatim(t, "Article 9", "text")
    ensures var confirmed := Rule(Some("r"), None, Some("Article 1"), None, "a");
            var rules := [confirmed, Rule(Some("r"), Some("Article 9"), None, None, "b")];
            ConfirmAll(rules, Confirmations(t, rules, "text"), "url")[0].provision == Some("Article 9")
  {
    var confirmed := Rule(Some("r"), None, Some("Article 1"), None, "a");
    var rules := [confirmed, Rule(Some("r"), Some("Article 9"), None, None, "b")];
    assert rules[..1][..0] == [];
    assert Provable(t, rules[1], "text");
  }

  /** The row a publication adds: whose provenance, what version string, and what became of each rule. */
  ghost predicate PublishedBy(op: Op, url: string, latest: PackVersion, row: PackVersion) {
    && row.verification == (if op.Supply? then AttestedVerified else SourceVerified)
    && row.version == latest.version + (if op.Supply? then "+av" else "+sv") + op.stamp
    && row.targeting == latest.targeting && |row.rules| == |latest.rules|
    && forall i :: 0 <= i < |row.rules| ==>
         row.rules[i] == latest.rules[i] || (row.rules[i].Rule? && row.rules[i].provisionSource == Some(url))
  }

  lemma {:induction false} NewestStaysLongest(cfg: Config, t: Text, ws: seq<World>, ops: seq<Op>, k: nat)
    requires Trace(cfg, t, ws, ops) && k < |ws| && NewestIsLongest(ws[0].versions)
    ensures NewestIsLongest(ws[k].versions)
    decreases k
  {
    if k > 0 {
      NewestStaysLongest(cfg, t, ws, ops, k - 1);
      assert NextAt(cfg, t, ws, ops, k - 1);
      var o := OpOutcome(cfg, t, ws[k - 1], ops[k - 1]);
      if o.Some? && o.value.cited != map[] {
        CitedOutcome(cfg, t, ws[k - 1], ops[k - 1]);
      } else {
        UncitedKeepsVersions(cfg, t, ws[k - 1], ops[k - 1]);
      }
    }
  }

  /**
   Over every run: a version is only ever added, by one operation, on top of the newest. It is marked as resting
   on an attestation, in its string and in its status, exactly when a person supplied the text, and each rule it
   changed names the source the text came from.
   */
  lemma ProvenanceExactly(cfg: Config, t: Text, ws: seq<World>, ops: seq<Op>, k: nat)
    requires Trace(cfg, t, ws, ops) && k < |ops| && NewestIsLongest(ws[0].versions)
    requires ws[k + 1].versions != ws[k].versions
    ensures var rows, rows' := ws[k].versions, ws[k + 1].versions;
            && rows != [] && |rows'| == |rows| + 1 && rows'[..|rows|] == rows && ops[k].i < |ws[k].sources|
            && PublishedBy(ops[k], ws[k].sources[ops[k].i].url, rows[|rows| - 1], rows'[|rows|])
  {
    NewestStaysLongest(cfg, t, ws, ops, k);
    assert NextAt(cfg, t, ws, ops, k);
    var w, op := ws[k], ops[k];
    var o := OpOutcome(cfg, t, w, op);
    if o.None? || o.value.cited == map[] {
      UncitedKeepsVersions(cfg, t, w, op);
    } else {
      CitedOutcome(cfg, t, w, op);
      OutcomeKeepsSource(cfg, t, w, op);
    }
  }

  lemma OutcomeKeepsSource(cfg: Config, t: Text, w: World, op: Op)
    requires OpOutcome(cfg, t, w, op).Some? && OpOutcome(cfg, t, w, op).value.cited != map[]
    ensures var src := OpOutcome(cfg, t, w, op).value.source;
            src.url == w.sources[op.i].url && (src.mode == Manual <==> op.Supply?)
  {
    match op
    case Check(i, fetch, now, auto, stamp) =>
      if fetch.Raised? || fetch.code >= 400 {
        FailureExactly(cfg, t, w.sources[i], w.versions, fetch, now, auto, stamp);
      } else {
        AnswerExactly(cfg, t, w.sources[i], w.versions, fetch.code, fetch.body, now, auto, stamp);
      }
    case Supply(i, text, who, now, auto, stamp) =>
      SupplyExactly(cfg, t, w.sources[i], w.versions, text, who, now, auto, stamp);
  }

  // ---------------------------------------------------------------------------------------
  // The watcher object
  // ---------------------------------------------------------------------------------------

  class Watcher {
    const cfg: Config
    const t: Text
    const url: string
    var contentHash: Option<string>
    var pendingHash: Option<string>
    var snapshot: Option<string>
    var failures: nat
    var mode: Mode
    var nextCheck: Option<int>
    var versions: seq<PackVersion>

    ghost function View(): Source
      reads this
    {
      Source(url, contentHash, pendingHash, snapshot, failures, mode, nextCheck)
    }

    constructor (cfg: Config, t: Text, url: string, versions: seq<PackVersion>)
      ensures this.cfg == cfg && this.t == t && View() == NewSource(url) && this.versions == versions
    {
      this.cfg, this.t, this.url, this.versions := cfg, t, url, versions;
      contentHash, pendingHash, snapshot, failures, mode, nextCheck := None, None, None, 0, Auto, None;
    }

    /** False when the version string does not fit its column. */
    method UpsertPack(p: PackVersion) returns (stored: bool)
      modifies this`versions
      ensures stored <==> |p.version| <= VERSION_LIMIT
      ensures versions == if stored then Upsert(old(versions), p) else old(versions)
    {
      if |p.version| > VERSION_LIMIT {
        return false;
      }
      stored := true;
      var i := 0;
      while i < |versions| && versions[i].version != p.version
        invariant 0 <= i <= |versions|
        invariant Upsert(versions, p) == versions[..i] + Upsert(versions[i..], p)
      {
        assert versions[i..][1..] == versions[i + 1..];
        var rest := Upsert(versions[i + 1..], p);
        assert versions[..i] + ([versions[i]] + rest) == versions[..i + 1] + rest;
        i := i + 1;
      }
      if i < |versions| {
        assert versions[i..][1..] == versions[i + 1..];
        versions := versions[..i] + ([p] + versions[i + 1..]);
      } else {
        assert versions[i..] == [] && versions[..i] == versions;
        versions := versions + [p];
      }
    }

    /** None stands for the exception of a version string that does not fit. */
    method PublishConfirmations(confirmed: map<string, string>, stamp: string) returns (version: Option<string>)
      requires versions != []
      modifies this`versions
      ensures var latest := old(versions)[|old(versions)| - 1];
              var full := PublishedVersion(latest, mode, stamp);
              && version == (if |full| <= VERSION_LIMIT then Some(full) else None)
              && versions == if version.Some? then Upsert(old(versions), Published(latest, confirmed, View(), stamp))
                             else old(versions)
    {
      var pack := versions[|versions| - 1];
      var rules: seq<Rule> := [];
      for i := 0 to |pack.rules|
        invariant |rules| == i
        invariant forall j :: 0 <= j < i ==> rules[j] == Confirm(pack.rules[j], confirmed, url)
      {
        var rule := pack.rules[i];
        if rule.Rule? && rule.id.Some? && rule.id.value in confirmed {
          rule := rule.(provision := Some(confirmed[rule.id.value]), provisionSource := Some(url));
        }
        rules := rules + [rule];
      }
      assert rules == ConfirmAll(pack.rules, confirmed, url);
      var extended := PublishedVersion(pack, mode, stamp);
      var proven := if mode.Manual? then AttestedVerified else SourceVerified;
      var stored := UpsertPack(PackVersion(extended, rules, pack.targeting, proven));
      version := if stored then Some(extended) else None;
    }

    method EvaluateText(text: string, autoPublish: bool, confirmDrift: bool, stamp: string)
      returns (raised: bool, changes: seq<Change>, drifted: bool, cited: map<string, string>)
      modifies this`contentHash, this`pendingHash, this`snapshot, this`versions
      ensures raised <==>
              EvaluationRaises(t, old(View()), old(versions), text, autoPublish, confirmDrift, stamp)
      ensures !raised ==>
              Outcome(View(), versions, changes, drifted, cited) ==
              EvaluateSnapshot(t, old(View()), old(versions), text, autoPublish, confirmDrift, stamp)
    {
      raised, changes, drifted, cited := false, [], false, map[];
      var newHash := t.contentHash(text);
      var previousHash := contentHash;
      if previousHash.Some? && newHash != previousHash.value {
        if !confirmDrift || pendingHash == Some(newHash) {
          drifted := true;
          pendingHash := None;
        } else {
          pendingHash := Some(newHash);
          return;
        }
      } else {
        pendingHash := None;
      }
      if !Storable(Truncated(text)) {
        return true, changes, drifted, cited;
      }
      snapshot := Some(Truncated(text));
      contentHash := Some(newHash);
      if versions == [] {
        return;
      }
      if drifted {
        changes := changes + [SourceDrift(previousHash, newHash)];
      }
      var found: seq<Change>;
      raised, found, cited := ConfirmCandidates(Truncated(text), autoPublish, stamp);
      changes := changes + found;
    }

    /** Gates 2 and 3 on the newest pack version. */
    method ConfirmCandidates(text: string, autoPublish: bool, stamp: string)
      returns (raised: bool, changes: seq<Change>, cited: map<string, string>)
      requires versions != []
      modifies this`versions
      ensures var latest := old(versions)[|old(versions)| - 1];
              var confirmed := Confirmations(t, latest.rules, text);
              && (raised <==> autoPublish && confirmed != map[]
                              && |PublishedVersion(latest, mode, stamp)| > VERSION_LIMIT)
              && (confirmed == map[] ==> changes == [] && cited == map[] && versions == old(versions))
              && (confirmed != map[] && !autoPublish ==>
                    changes == [ProvisionConfirmed(false)] && cited == map[] && versions == old(versions))
              && (confirmed != map[] && autoPublish && !raised ==>
                    changes == [ProvisionConfirmed(true)] && cited == confirmed
                    && versions == Upsert(old(versions), Published(latest, confirmed, View(), stamp)))
    {
      raised, changes, cited := false, [], map[];
      var confirmed := ExtractConfirmations(t, versions[|versions| - 1].rules, text);
      if confirmed != map[] {
        if autoPublish {
          var version := PublishConfirmations(confirmed, stamp);
          raised := version.None?;
          cited := confirmed;
        }
        changes := [ProvisionConfirmed(autoPublish)];
      }
    }

    /** What the caller's rollback puts back. */
    method Rollback(src: Source, rows: seq<PackVersion>)
      requires src.url == url
      modifies this
      ensures View() == src && versions == rows
    {
      contentHash, pendingHash, snapshot := src.contentHash, src.pendingHash, src.snapshot;
      failures, mode, nextCheck, versions := src.failures, src.mode, src.nextCheck, rows;
    }

    method Check(fetch: Fetch, now: int, autoPublish: bool, stamp: string)
      returns (raised: bool, changes: seq<Change>, drifted: bool, cited: map<string, string>)
      modifies this
      ensures raised <==> CheckRaises(t, old(View()), old(versions), fetch, autoPublish, stamp)
      ensures raised ==> View() == old(View()) && versions == old(versions)
      ensures !raised ==>
              Outcome(View(), versions, changes, drifted, cited) ==
              CheckSource(cfg, t, old(View()), old(versions), fetch, now, autoPublish, stamp)
    {
      var before := Source(url, contentHash, pendingHash, snapshot, failures, mode, nextCheck);
      var rows := versions;
      raised, changes, drifted, cited := false, [], false, map[];
      nextCheck := Some(now + cfg.checkInterval);
      if fetch.Raised? || fetch.code >= 400 {
        failures := failures + 1;
        if mode.Manual? {
          nextCheck := Some(now + cfg.manualRetry);
          return;
        }
        changes := [if fetch.Raised? then FetchFailed else FailureChange(cfg, fetch.code, failures)];
        return;
      }
      failures := 0;
      if mode.Manual? {
        mode := Auto;
        changes := [SourceRecovered];
      }
      var more: seq<Change>;
      raised, more, drifted, cited := EvaluateText(fetch.body, autoPublish, true, stamp);
      changes := changes + more;
      if raised {
        Rollback(before, rows);
      }
    }

    method Supply(text: string, attestedBy: string, now: int, autoPublish: bool, stamp: string)
      returns (r: Result<seq<Change>, WatchError>)
      modifies this
      ensures r == Err(NotStored) <==>
              SupplyRaises(t, old(View()), old(versions), text, attestedBy, autoPublish, stamp)
      ensures r.Err? ==> View() == old(View()) && versions == old(versions)
      ensures r != Err(NotStored) ==>
              match SupplyText(cfg, t, old(View()), old(versions), text, attestedBy, now, autoPublish, stamp)
              case Ok(o) => r == Ok(o.changes) && View() == o.source && versions == o.versions
              case Err(e) => r == Err(e)
    {
      if IsBlank(attestedBy) {
        return Err(NoAttestor);
      }
      if IsBlank(text) {
        return Err(NoText);
      }
      if !Storable(AttestedBy(attestedBy)) {
        return Err(NotStored);
      }
      var before := Source(url, contentHash, pendingHash, snapshot, failures, mode, nextCheck);
      var rows := versions;
      mode, failures, nextCheck := Manual, 0, Some(now + cfg.manualRetry);
      var raised, changes, drifted, cited := EvaluateText(text, autoPublish, false, stamp);
      if raised {
        Rollback(before, rows);
        return Err(NotStored);
      }
      return Ok([TextSupplied] + changes);
    }
  }
}
