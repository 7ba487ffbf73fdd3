/** Python's `sorted(enumerate(xs), key=..., reverse=True)`: highest key first, ties in list order. */
module StableSort {

  predicate Before<T>(key: T -> int, a: (nat, T), b: (nat, T)) {
    key(a.1) > key(b.1) || (key(a.1) == key(b.1) && a.0 < b.0)
  }

  ghost predicate Ordered<T>(key: T -> int, s: seq<(nat, T)>) {
    forall i, j :: 0 <= i < j < |s| ==> Before(key, s[i], s[j])
  }

  /** Every element of xs once, tagged with its position. */
  ghost predicate Tags<T>(xs: seq<T>, s: seq<(nat, T)>) {
    && |s| == |xs|
    && (forall i :: 0 <= i < |s| ==> s[i].0 < |xs| && s[i].1 == xs[s[i].0])
    && (forall k :: 0 <= k < |xs| ==> (k, xs[k]) in s)
  }

  function Insert<T(!new)>(key: T -> int, x: (nat, T), s: seq<(nat, T)>): (r: seq<(nat, T)>)
    ensures |r| == |s| + 1
    ensures forall y :: y in r <==> y == x || y in s
  {
    if s == [] then [x]
    else if key(s[0].1) >= key(x.1) then
      var r := [s[0]] + Insert(key, x, s[1..]);
      assert s == [s[0]] + s[1..];
      r
    else [x] + s
  }

  lemma {:induction false} InsertKeepsOrder<T(!new)>(key: T -> int, x: (nat, T), s: seq<(nat, T)>)
    requires Ordered(key, s) && forall y :: y in s ==> y.0 < x.0
    ensures Ordered(key, Insert(key, x, s))
  {
    if s != [] && key(s[0].1) >= key(x.1) {
      InsertKeepsOrder(key, x, s[1..]);
      var rest := Insert(key, x, s[1..]);
      forall j | 0 <= j < |rest|
        ensures Before(key, s[0], rest[j])
      {
        assert rest[j] in rest;
      }
    }
  }

  function Sort<T(!new)>(key: T -> int, xs: seq<T>): seq<(nat, T)> {
    if xs == [] then []
    else Insert(key, (|xs| - 1, xs[|xs| - 1]), Sort(key, xs[..|xs| - 1]))
  }

  /** Sorting keeps every element, and orders by key downwards with ties by position. */
  lemma {:induction false} SortIsStable<T(!new)>(key: T -> int, xs: seq<T>)
    ensures Tags(xs, Sort(key, xs)) && Ordered(key, Sort(key, xs))
  {
    if xs != [] {
      var n := |xs| - 1;
      var s := Sort(key, xs[..n]);
      SortIsStable(key, xs[..n]);
      InsertKeepsOrder(key, (n, xs[n]), s);
      forall i | 0 <= i < |xs|
        ensures Sort(key, xs)[i].0 < |xs| && Sort(key, xs)[i].1 == xs[Sort(key, xs)[i].0]
      {
        assert Sort(key, xs)[i] in Sort(key, xs);
      }
      forall k | 0 <= k < |xs|
        ensures (k, xs[k]) in Sort(key, xs)
      {
        assert k < n ==> (k, xs[..n][k]) in s;
      }
    }
  }
}

/**
 Policy evaluation, on the server (app/services/policy) and in the SDK (attest_sdk/policy,
 attest_sdk/offline.py). Feature vectors are inputs: the regular expressions that extract them
 are not part of this model.
 */
module Policy {
  import opened Prelude
  import opened StableSort

  // ---------------------------------------------------------------------------------------
  // Tiers and layers
  // ---------------------------------------------------------------------------------------

  datatype Tier = Green | Yellow | Orange | Red

  function Rank(t: Tier): int {
    match t
    case Green => 0
    case Yellow => 1
    case Orange => 2
    case Red => 3
  }

  function MaxTier(current: Tier, candidate: Tier): Tier {
    if Rank(candidate) > Rank(current) then candidate else current
  }

  function ParseTier(s: string): Option<Tier> {
    if s == "green" then Some(Green) else if s == "yellow" then Some(Yellow)
    else if s == "orange" then Some(Orange) else if s == "red" then Some(Red) else None
  }

  datatype Features = Features(
    citationCount: int, hasPii: bool, crossBorder: bool, lawfulBasisPresent: bool,
    prohibitedPhrases: seq<string>, amountAed: Option<real>)

  datatype LayerId = Pii | Citations | ProhibitedPhrases | CrossBorder | HighValue

  datatype Layer = Layer(id: LayerId, tier: Tier)

  /** The layers there are, in the order they are tried. */
  function LayerNo(k: nat): Layer
    requires k < LAYER_COUNT
  {
    match k
    case 0 => Layer(Pii, Orange)
    case 1 => Layer(Citations, Yellow)
    case 2 => Layer(ProhibitedPhrases, Orange)
    case 3 => Layer(CrossBorder, Red)
    case _ => Layer(HighValue, Orange)
  }

  const LAYER_COUNT: nat := 5

  predicate Fires(f: Features, id: LayerId) {
    match id
    case Pii => f.hasPii
    case Citations => f.citationCount < 1
    case ProhibitedPhrases => f.prohibitedPhrases != []
    case CrossBorder => f.crossBorder && !f.lawfulBasisPresent
    case HighValue => f.amountAed.Some? && f.amountAed.value >= 100000.0
  }

  /** Those of the first `n` layers that fire, in their order. */
  function Firing(f: Features, n: nat): seq<Layer>
    requires n <= LAYER_COUNT
  {
    if n == 0 then []
    else if Fires(f, LayerNo(n - 1).id) then Firing(f, n - 1) + [LayerNo(n - 1)]
    else Firing(f, n - 1)
  }

  function Layers(f: Features): seq<Layer> {
    Firing(f, LAYER_COUNT)
  }

  /** A layer is reported exactly when it is one of them and fires. */
  lemma {:induction false} FiringMembers(f: Features, n: nat, l: Layer)
    requires n <= LAYER_COUNT
    ensures l in Firing(f, n) <==> Fires(f, l.id) && exists k :: 0 <= k < n && LayerNo(k) == l
  {
    if n > 0 {
      FiringMembers(f, n - 1, l);
    }
  }

  method RunDeterministicLayers(f: Features) returns (results: seq<Layer>)
    ensures results == Layers(f)
  {
    results := [];
    if f.hasPii {
      results := results + [Layer(Pii, Orange)];
    }
    assert results == Firing(f, 1);
    if f.citationCount < 1 {
      results := results + [Layer(Citations, Yellow)];
    }
    assert results == Firing(f, 2);
    if f.prohibitedPhrases != [] {
      results := results + [Layer(ProhibitedPhrases, Orange)];
    }
    assert results == Firing(f, 3);
    if f.crossBorder && !f.lawfulBasisPresent {
      results := results + [Layer(CrossBorder, Red)];
    }
    assert results == Firing(f, 4);
    if f.amountAed.Some? && f.amountAed.value >= 100000.0 {
      results := results + [Layer(HighValue, Orange)];
    }
  }

  /** t is the strictest of a starting tier and a list: it bounds them all and is one of them. */
  ghost predicate IsStrictest(t: Tier, base: Tier, others: seq<Tier>) {
    && Rank(base) <= Rank(t)
    && (forall i :: 0 <= i < |others| ==> Rank(others[i]) <= Rank(t))
    && (t == base || t in others)
  }

  function LayerTiers(layers: seq<Layer>): (r: seq<Tier>)
    ensures |r| == |layers| && forall i :: 0 <= i < |r| ==> r[i] == layers[i].tier
  {
    seq(|layers|, i requires 0 <= i < |layers| => layers[i].tier)
  }

  method LayerFloorTier(layers: seq<Layer>) returns (tier: Tier)
    ensures IsStrictest(tier, Green, LayerTiers(layers))
  {
    tier := Green;
    for k := 0 to |layers|
      invariant forall i :: 0 <= i < k ==> Rank(layers[i].tier) <= Rank(tier)
      invariant tier == Green || exists i :: 0 <= i < k && layers[i].tier == tier
    {
      tier := MaxTier(tier, layers[k].tier);
    }
    if tier != Green {
      var i :| 0 <= i < |layers| && layers[i].tier == tier;
      assert LayerTiers(layers)[i] == tier;
    }
  }

  /** The layer floor, case by case. */
  function Floor(f: Features): Tier {
    if f.crossBorder && !f.lawfulBasisPresent then Red
    else if f.hasPii || f.prohibitedPhrases != [] || (f.amountAed.Some? && f.amountAed.value >= 100000.0) then Orange
    else if f.citationCount < 1 then Yellow
    else Green
  }

  /** When each layer fires, and the tier it gives. */
  lemma LayersExactly(f: Features, l: Layer)
    ensures l in Layers(f) <==>
            || (l == Layer(Pii, Orange) && f.hasPii)
            || (l == Layer(Citations, Yellow) && f.citationCount <= 0)
            || (l == Layer(ProhibitedPhrases, Orange) && |f.prohibitedPhrases| > 0)
            || (l == Layer(CrossBorder, Red) && f.crossBorder && !f.lawfulBasisPresent)
            || (l == Layer(HighValue, Orange) && f.amountAed.Some? && !(f.amountAed.value < 100_000.0))
  {
    FiringMembers(f, LAYER_COUNT, l);
    assert LayerNo(0) == Layer(Pii, Orange) && LayerNo(1) == Layer(Citations, Yellow)
           && LayerNo(2) == Layer(ProhibitedPhrases, Orange) && LayerNo(3) == Layer(CrossBorder, Red)
           && LayerNo(4) == Layer(HighValue, Orange);
  }

  lemma FloorIsStrictestLayer(f: Features, t: Tier)
    ensures IsStrictest(t, Green, LayerTiers(Layers(f))) <==> t == Floor(f)
  {
    var ts := LayerTiers(Layers(f));
    forall u: Tier
      ensures u in ts <==> SomeLayerAt(f, u)
    {
      TierSource(Layers(f), u);
      LayerAt(f, u);
    }
    StrictestByMembers(t, Green, ts);
    assert !SomeLayerAt(f, Green);
    assert Red in ts <==> SomeLayerAt(f, Red);
    assert Orange in ts <==> SomeLayerAt(f, Orange);
    assert Yellow in ts <==> SomeLayerAt(f, Yellow);
  }

  lemma StrictestByMembers(t: Tier, base: Tier, others: seq<Tier>)
    ensures IsStrictest(t, base, others) <==>
            Rank(base) <= Rank(t) && (forall u :: u in others ==> Rank(u) <= Rank(t)) && (t == base || t in others)
  {
    assert forall i :: 0 <= i < |others| ==> others[i] in others;
  }

  predicate SomeLayerAt(f: Features, t: Tier) {
    match t
    case Green => false
    case Yellow => f.citationCount < 1
    case Orange => f.hasPii || f.prohibitedPhrases != [] || (f.amountAed.Some? && f.amountAed.value >= 100000.0)
    case Red => f.crossBorder && !f.lawfulBasisPresent
  }

  lemma LayerAt(f: Features, t: Tier)
    ensures SomeLayerAt(f, t) <==> exists l :: l in Layers(f) && l.tier == t
  {
    forall l: Layer
      ensures l in Layers(f) <==> Fires(f, l.id) && exists k :: 0 <= k < LAYER_COUNT && LayerNo(k) == l
    {
      FiringMembers(f, LAYER_COUNT, l);
    }
    forall k | 0 <= k < LAYER_COUNT && Fires(f, LayerNo(k).id)
      ensures LayerNo(k) in Layers(f) && SomeLayerAt(f, LayerNo(k).tier)
    {
    }
    if SomeLayerAt(f, t) {
      var k := if t == Yellow then 1 else if t == Red then 3 else if f.hasPii then 0
               else if f.prohibitedPhrases != [] then 2 else 4;
      assert LayerNo(k).tier == t && Fires(f, LayerNo(k).id);
    }
  }

  lemma TierSource(layers: seq<Layer>, t: Tier)
    ensures t in LayerTiers(layers) <==> exists l :: l in layers && l.tier == t
  {
    var ts := LayerTiers(layers);
    if t in ts {
      var i :| 0 <= i < |ts| && ts[i] == t;
      assert layers[i] in layers;
    }
    forall l | l in layers && l.tier == t
      ensures t in ts
    {
      var i :| 0 <= i < |layers| && layers[i] == l;
      assert ts[i] == t;
    }
  }

  // ---------------------------------------------------------------------------------------
  // Rule matching
  // ---------------------------------------------------------------------------------------

  datatype Json =
    | JNull | JBool(b: bool) | JNum(n: real) | JStr(s: string)
    | JList(items: seq<Json>) | JObj(fields: map<string, Json>)

  /** Python built-ins the rules lean on: str.lower and int(str). */
  datatype Host = Host(lower: string -> string, parseInt: string -> Option<int>)

  /** Which copy of the matcher: only the server reads the documented "classifier" field. */
  datatype Side = Server | Sdk

  datatype Actions = OneAction(name: string) | ActionList(names: seq<string>) | OtherActions

  datatype Match = Match(
    action: Option<Actions>, hasPii: bool, feature: Option<string>, lt: Option<Json>, withoutLawfulBasis: bool,
    any: bool, equals: Option<Json>, gte: Option<Json>, payloadKey: Option<string>, payloadContains: Option<string>)

  datatype RawRule =
    | NotObject
    | Rule(id: Option<string>, priority: int, tier: string, decision: Option<string>, matcher: Option<Match>)

  datatype Hit = Yes | No | Raises

  function Field(payload: map<string, Json>, key: string): Json {
    if key in payload then payload[key] else JNull
  }

  predicate Truthy(j: Json) {
    match j
    case JNull => false
    case JBool(b) => b
    case JNum(n) => n != 0.0
    case JStr(s) => s != ""
    case JList(items) => items != []
    case JObj(fields) => fields != map[]
  }

  /** Booleans are numbers to Python. */
  function Number(j: Json): Option<real> {
    match j
    case JNum(n) => Some(n)
    case JBool(b) => Some(if b then 1.0 else 0.0)
    case _ => None
  }

  /** Python's ==, which looks inside lists and objects. */
  predicate PyEqual(a: Json, b: Json)
    decreases a
  {
    if Number(a).Some? && Number(b).Some? then Number(a) == Number(b)
    else if a.JList? && b.JList? then
      |a.items| == |b.items| && forall i :: 0 <= i < |a.items| ==> PyEqual(a.items[i], b.items[i])
    else if a.JObj? && b.JObj? then
      a.fields.Keys == b.fields.Keys && forall k :: k in a.fields ==> PyEqual(a.fields[k], b.fields[k])
    else a == b
  }

  lemma {:induction false} PyEqualReflexive(a: Json)
    ensures PyEqual(a, a)
  {
    match a
    case JList(items) =>
      forall i | 0 <= i < |items|
        ensures PyEqual(items[i], items[i])
      {
        PyEqualReflexive(items[i]);
      }
    case JObj(fields) =>
      forall k | k in fields
        ensures PyEqual(fields[k], fields[k])
      {
        PyEqualReflexive(fields[k]);
      }
    case _ =>
  }

  /** Values equal to the same value are equal to the same things. */
  lemma {:induction false} PyEqualEuclidean(e: Json, a: Json, b: Json)
    requires PyEqual(a, b)
    ensures PyEqual(e, a) <==> PyEqual(e, b)
    decreases e
  {
    if e.JList? && a.JList? && b.JList? && |e.items| == |a.items| {
      forall i | 0 <= i < |e.items|
        ensures PyEqual(e.items[i], a.items[i]) <==> PyEqual(e.items[i], b.items[i])
      {
        PyEqualEuclidean(e.items[i], a.items[i], b.items[i]);
      }
    } else if e.JObj? && a.JObj? && b.JObj? && e.fields.Keys == a.fields.Keys {
      forall k | k in e.fields
        ensures PyEqual(e.fields[k], a.fields[k]) <==> PyEqual(e.fields[k], b.fields[k])
      {
        assert k in a.fields;
        PyEqualEuclidean(e.fields[k], a.fields[k], b.fields[k]);
      }
    }
  }

  lemma PyEqualTruth(a: Json, b: Json)
    requires PyEqual(a, b)
    ensures Truthy(a) <==> Truthy(b)
  {
    if a.JObj? && b.JObj? {
      assert a.fields == map[] <==> a.fields.Keys == {};
      assert b.fields == map[] <==> b.fields.Keys == {};
    }
  }

  /** int(x): truncates numbers toward zero, parses strings, refuses the rest. */
  function ToInt(host: Host, j: Json): Option<int> {
    match j
    case JStr(s) => host.parseInt(s)
    case _ =>
      if Number(j).None? then None
      else if Number(j).value >= 0.0 then Some(Number(j).value.Floor)
      else Some(-((-Number(j).value).Floor))
  }

  predicate PayloadContains(host: Host, j: Json, needle: string) {
    match j
    case JStr(s) => Contains(host.lower(s), host.lower(needle))
    case JList(items) => exists i :: 0 <= i < |items| && PayloadContains(host, items[i], needle)
    case JObj(fields) => exists k :: k in fields && PayloadContains(host, fields[k], needle)
    case _ => false
  }

  function Hint(side: Side, payload: map<string, Json>): Json {
    if side.Server? && Truthy(Field(payload, "classifier")) then Field(payload, "classifier")
    else Field(payload, "_classifier_tier")
  }

  predicate FeatureHit(side: Side, payload: map<string, Json>, f: Features, m: Match) {
    || (m.feature == Some("cross_border") && m.withoutLawfulBasis && f.crossBorder && !f.lawfulBasisPresent)
    || (m.feature == Some("prohibited_phrases") && m.any && f.prohibitedPhrases != [])
    || (m.feature == Some("classifier") && Truthy(Hint(side, payload))
        && PyEqual(if m.equals.Some? then m.equals.value else JNull, Hint(side, payload)))
  }

  function PayloadKeyHit(payload: map<string, Json>, m: Match, key: string): Hit {
    var value := Field(payload, key);
    if m.equals.Some? && PyEqual(value, m.equals.value) then Yes
    else if m.gte.Some? && Number(value).Some? && Number(m.gte.value).None? then Raises
    else if m.gte.Some? && Number(value).Some? && Number(value).value >= Number(m.gte.value).value then Yes
    else if m.lt.Some? && value.JNull? then Yes
    else if m.lt.Some? && Number(value).Some? && Number(m.lt.value).None? then Raises
    else if m.lt.Some? && Number(value).Some? && Number(value).value < Number(m.lt.value).value then Yes
    else No
  }

  function RuleMatches(host: Host, side: Side, action: string, payload: map<string, Json>, f: Features,
                       rule: RawRule): Hit
    requires rule.Rule?
  {
    if rule.matcher.None? then No
    else
      var m := rule.matcher.value;
      var byAction := m.action.Some? &&
        match m.action.value
        case OneAction(name) => action == name
        case ActionList(names) => action in names
        case OtherActions => false;
      if byAction || (m.hasPii && f.hasPii) then Yes
      else if m.feature == Some("citation_count") && m.lt.Some? && ToInt(host, m.lt.value).None? then Raises
      else if m.feature == Some("citation_count") && m.lt.Some? && f.citationCount < ToInt(host, m.lt.value).value
      then Yes
      else if FeatureHit(side, payload, f, m) then Yes
      else
        var byKey := if m.payloadKey.Some? then PayloadKeyHit(payload, m, m.payloadKey.value) else No;
        if !byKey.No? then byKey
        else if m.payloadContains.Some? && PayloadContains(host, JObj(payload), m.payloadContains.value) then Yes
        else No
  }

  // ---------------------------------------------------------------------------------------
  // The ways a rule matches
  // ---------------------------------------------------------------------------------------

  /** What trying this match on the subject comes to. */
  function Tried(x: Subject, m: Match): Hit {
    RuleMatches(x.host, x.side, x.action, x.payload, x.features, Rule(None, 0, "red", None, Some(m)))
  }

  const NO_MATCH := Match(None, false, None, None, false, false, None, None, None, None)

  /** The match's ways of matching, each on its own, in the order they are tried. */
  function Ways(m: Match): seq<Match> {
    [NO_MATCH.(action := m.action),
     NO_MATCH.(hasPii := m.hasPii),
     NO_MATCH.(feature := m.feature, lt := m.lt, withoutLawfulBasis := m.withoutLawfulBasis, any := m.any,
               equals := m.equals),
     NO_MATCH.(payloadKey := m.payloadKey, equals := m.equals),
     NO_MATCH.(payloadKey := m.payloadKey, gte := m.gte),
     NO_MATCH.(payloadKey := m.payloadKey, lt := m.lt),
     NO_MATCH.(payloadContains := m.payloadContains)]
  }

  /** The first of a list of attempts that is not a plain no. */
  function FirstHit(x: Subject, ways: seq<Match>): Hit {
    if ways == [] then No else if !Tried(x, ways[0]).No? then Tried(x, ways[0]) else FirstHit(x, ways[1..])
  }

  lemma FirstHitOfSeven(x: Subject, ways: seq<Match>)
    requires |ways| == 7
    ensures FirstHit(x, ways) ==
            if !Tried(x, ways[0]).No? then Tried(x, ways[0]) else if !Tried(x, ways[1]).No? then Tried(x, ways[1])
            else if !Tried(x, ways[2]).No? then Tried(x, ways[2]) else if !Tried(x, ways[3]).No? then Tried(x, ways[3])
            else if !Tried(x, ways[4]).No? then Tried(x, ways[4]) else if !Tried(x, ways[5]).No? then Tried(x, ways[5])
            else Tried(x, ways[6])
  {
    FirstHitRest(x, ways, 7);
    assert ways[6..][1..] == [];
    assert forall k :: 0 <= k < 7 ==> ways[k..] != [] && ways[k..][0] == ways[k];
  }

  /** Unfold the first `n` attempts. */
  lemma {:induction false} FirstHitRest(x: Subject, ways: seq<Match>, n: nat)
    requires n <= |ways|
    ensures forall k :: 0 <= k <= n && (forall j :: 0 <= j < k ==> Tried(x, ways[j]).No?) ==>
      FirstHit(x, ways) == FirstHit(x, ways[k..])
  {
    if n > 0 {
      FirstHitRest(x, ways, n - 1);
      assert ways[n - 1..][1..] == ways[n..];
    }
    assert ways[0..] == ways;
  }

  /** A rule without a match never matches; otherwise the first of its ways that does not say no decides. */
  lemma FirstWayDecides(x: Subject, r: RawRule)
    requires r.Rule?
    ensures RuleMatches(x.host, x.side, x.action, x.payload, x.features, r) ==
            if r.matcher.None? then No else FirstHit(x, Ways(r.matcher.value))
  {
    if r.matcher.Some? {
      FirstHitOfSeven(x, Ways(r.matcher.value));
    }
  }

  /** By action: the output's action is the one named, or among those listed. */
  predicate NamesAction(m: Match, action: string) {
    || m.action == Some(OneAction(action))
    || (m.action.Some? && m.action.value.ActionList? && action in m.action.value.names)
  }

  lemma ActionWay(x: Subject, m: Match)
    ensures Tried(x, Ways(m)[0]) == if NamesAction(m, x.action) then Yes else No
  {
  }

  lemma PiiWay(x: Subject, m: Match)
    ensures Tried(x, Ways(m)[1]) == if m.hasPii && x.features.hasPii then Yes else No
  {
  }

  /** `n` is int(j): a number cut off toward zero, a boolean as 0 or 1, or a text that parses. */
  ghost predicate IsInt(host: Host, j: Json, n: int) {
    match j
    case JNum(r) => if r >= 0.0 then n as real <= r < n as real + 1.0 else n as real - 1.0 < r <= n as real
    case JBool(b) => n == if b then 1 else 0
    case JStr(s) => host.parseInt(s) == Some(n)
    case _ => false
  }

  lemma ToIntExactly(host: Host, j: Json, n: int)
    ensures ToInt(host, j) == Some(n) <==> IsInt(host, j, n)
  {
    if j.JNum? {
      FloorIs(if j.n >= 0.0 then j.n else -j.n, if j.n >= 0.0 then n else -n);
    }
  }

  lemma FloorIs(r: real, n: int)
    ensures r.Floor == n <==> n as real <= r < n as real + 1.0
  {
  }

  /** The values that count as nothing in Python. */
  predicate Empty(j: Json) {
    j == JNull || j == JBool(false) || j == JNum(0.0) || j == JStr("") || j == JList([]) || j == JObj(map[])
  }

  /** The label the classifier put on the payload; the server prefers the documented field. */
  ghost predicate IsLabel(side: Side, payload: map<string, Json>, said: Json) {
    && !Empty(said)
    && (|| (side == Server && "classifier" in payload && payload["classifier"] == said)
        || (&& "_classifier_tier" in payload && payload["_classifier_tier"] == said
            && (side == Server && "classifier" in payload ==> Empty(payload["classifier"]))))
  }

  /**
   By feature: too few citations, raising when the bound is no integer; crossing the border without lawful
   basis; a prohibited phrase; a classifier label equal to the one asked for.
   */
  lemma FeatureWay(x: Subject, m: Match)
    ensures Tried(x, Ways(m)[2]) == Raises <==>
            m.feature == Some("citation_count") && m.lt.Some? && forall n :: !IsInt(x.host, m.lt.value, n)
    ensures Tried(x, Ways(m)[2]) == Yes <==>
            || (&& m.feature == Some("citation_count") && m.lt.Some?
                && exists n :: IsInt(x.host, m.lt.value, n) && x.features.citationCount < n)
            || (&& m.feature == Some("cross_border") && m.withoutLawfulBasis
                && x.features.crossBorder && !x.features.lawfulBasisPresent)
            || (m.feature == Some("prohibited_phrases") && m.any && x.features.prohibitedPhrases != [])
            || (&& m.feature == Some("classifier")
                && exists said :: IsLabel(x.side, x.payload, said)
                                   && SameValue(if m.equals.Some? then m.equals.value else JNull, said))
  {
    if m.lt.Some? {
      forall n
        ensures ToInt(x.host, m.lt.value) == Some(n) <==> IsInt(x.host, m.lt.value, n)
      {
        ToIntExactly(x.host, m.lt.value, n);
      }
      assert ToInt(x.host, m.lt.value).Some? ==> IsInt(x.host, m.lt.value, ToInt(x.host, m.lt.value).value);
    }
    LabelExactly(x.side, x.payload);
    PyEqualExactly(if m.equals.Some? then m.equals.value else JNull, Hint(x.side, x.payload));
    assert "citation_count" != "cross_border" && "citation_count" != "prohibited_phrases";
  }

  lemma TruthyExactly(j: Json)
    ensures Truthy(j) <==> !Empty(j)
  {
  }

  lemma LabelExactly(side: Side, payload: map<string, Json>)
    ensures forall said :: IsLabel(side, payload, said) <==> said == Hint(side, payload) && Truthy(said)
  {
    forall j
      ensures Truthy(j) <==> !Empty(j)
    {
      TruthyExactly(j);
    }
  }

  /** The same value to Python: equal once booleans are read as numbers, inside lists and objects too. */
  ghost predicate SameValue(a: Json, b: Json) {
    Plain(a) == Plain(b)
  }

  function Plain(j: Json): Json {
    match j
    case JBool(b) => JNum(if b then 1.0 else 0.0)
    case JList(items) => JList(seq(|items|, i requires 0 <= i < |items| => Plain(items[i])))
    case JObj(fields) => JObj(map k | k in fields :: Plain(fields[k]))
    case _ => j
  }

  lemma {:induction false} PyEqualExactly(a: Json, b: Json)
    ensures PyEqual(a, b) <==> SameValue(a, b)
    decreases a
  {
    if a.JList? && b.JList? {
      ListsEqualExactly(a.items, b.items);
    } else if a.JObj? && b.JObj? {
      ObjectsEqualExactly(a.fields, b.fields);
    }
  }

  lemma {:induction false} ListsEqualExactly(a: seq<Json>, b: seq<Json>)
    ensures PyEqual(JList(a), JList(b)) <==> SameValue(JList(a), JList(b))
    decreases JList(a), 0
  {
    if |a| == |b| {
      forall i | 0 <= i < |a|
        ensures PyEqual(a[i], b[i]) <==> SameValue(a[i], b[i])
      {
        PyEqualExactly(a[i], b[i]);
      }
      var p, q := Plain(JList(a)).items, Plain(JList(b)).items;
      assert forall i :: 0 <= i < |a| ==> p[i] == Plain(a[i]) && q[i] == Plain(b[i]);
      assert p == q <==> forall i :: 0 <= i < |a| ==> p[i] == q[i];
    } else {
      assert |Plain(JList(a)).items| == |a| && |Plain(JList(b)).items| == |b|;
    }
  }

  lemma {:induction false} ObjectsEqualExactly(a: map<string, Json>, b: map<string, Json>)
    ensures PyEqual(JObj(a), JObj(b)) <==> SameValue(JObj(a), JObj(b))
    decreases JObj(a), 0
  {
    var p, q := Plain(JObj(a)).fields, Plain(JObj(b)).fields;
    assert p.Keys == a.Keys && q.Keys == b.Keys;
    if a.Keys == b.Keys {
      forall k | k in a
        ensures PyEqual(a[k], b[k]) <==> SameValue(a[k], b[k])
      {
        PyEqualExactly(a[k], b[k]);
      }
      assert forall k :: k in a ==> p[k] == Plain(a[k]) && q[k] == Plain(b[k]);
      assert p == q <==> forall k :: k in a ==> p[k] == q[k];
    }
  }

  function ValueAt(payload: map<string, Json>, key: string): Json {
    if key in payload then payload[key] else JNull
  }

  /** A number, or a boolean read as one. */
  ghost predicate IsNumber(j: Json, r: real) {
    j == JNum(r) || (j == JBool(true) && r == 1.0) || (j == JBool(false) && r == 0.0)
  }

  lemma KeyEqualsWay(x: Subject, m: Match)
    ensures Tried(x, Ways(m)[3]) ==
            if m.payloadKey.Some? && m.equals.Some?
               && SameValue(ValueAt(x.payload, m.payloadKey.value), m.equals.value) then Yes else No
  {
    if m.payloadKey.Some? && m.equals.Some? {
      PyEqualExactly(ValueAt(x.payload, m.payloadKey.value), m.equals.value);
    }
  }

  lemma NumberExactly(j: Json, r: real)
    ensures Number(j) == Some(r) <==> IsNumber(j, r)
  {
  }

  lemma NumbersExactly(a: Json, b: Json)
    ensures forall r: real :: Number(a) == Some(r) <==> IsNumber(a, r)
    ensures forall r: real :: Number(b) == Some(r) <==> IsNumber(b, r)
  {
    forall r: real
      ensures Number(a) == Some(r) <==> IsNumber(a, r)
      ensures Number(b) == Some(r) <==> IsNumber(b, r)
    {
      NumberExactly(a, r);
      NumberExactly(b, r);
    }
    assert Number(a).Some? ==> IsNumber(a, Number(a).value);
    assert Number(b).Some? ==> IsNumber(b, Number(b).value);
  }

  /** A number at the key, and a bound that is none: comparing them raises. */
  ghost predicate Incomparable(value: Json, bound: Json) {
    (exists r :: IsNumber(value, r)) && forall r :: !IsNumber(bound, r)
  }

  /** At least the bound, the bound itself included. */
  lemma KeyGteWay(x: Subject, m: Match)
    ensures var given := m.payloadKey.Some? && m.gte.Some?;
            && (Tried(x, Ways(m)[4]) == Yes <==>
                  given && exists r, b :: IsNumber(ValueAt(x.payload, m.payloadKey.value), r)
                                         && IsNumber(m.gte.value, b) && b <= r)
            && (Tried(x, Ways(m)[4]) == Raises <==>
                  given && Incomparable(ValueAt(x.payload, m.payloadKey.value), m.gte.value))
  {
    if m.payloadKey.Some? && m.gte.Some? {
      NumbersExactly(ValueAt(x.payload, m.payloadKey.value), m.gte.value);
    }
  }

  /** Below the bound, the bound itself excluded; a value that is missing or null is below every bound. */
  lemma KeyLtWay(x: Subject, m: Match)
    ensures var given := m.payloadKey.Some? && m.lt.Some?;
            && (Tried(x, Ways(m)[5]) == Yes <==>
                  given && (|| ValueAt(x.payload, m.payloadKey.value) == JNull
                           || exists r, b :: IsNumber(ValueAt(x.payload, m.payloadKey.value), r)
                                             && IsNumber(m.lt.value, b) && r < b))
            && (Tried(x, Ways(m)[5]) == Raises <==>
                  given && Incomparable(ValueAt(x.payload, m.payloadKey.value), m.lt.value))
  {
    if m.payloadKey.Some? && m.lt.Some? {
      NumbersExactly(ValueAt(x.payload, m.payloadKey.value), m.lt.value);
    }
  }

  datatype Turn = Item(index: nat) | Key(name: string)

  /** What is found at the end of a path through lists and objects. */
  function Reached(j: Json, path: seq<Turn>): Option<Json>
    decreases |path|
  {
    if path == [] then Some(j)
    else
      match path[0]
      case Item(i) => if j.JList? && i < |j.items| then Reached(j.items[i], path[1..]) else None
      case Key(k) => if j.JObj? && k in j.fields then Reached(j.fields[k], path[1..]) else None
  }

  /** A text somewhere in the value has the needle in it, letter case aside. */
  ghost predicate MentionsAt(host: Host, j: Json, needle: string, path: seq<Turn>) {
    && Reached(j, path).Some? && Reached(j, path).value.JStr?
    && exists before, after :: host.lower(Reached(j, path).value.s) == before + host.lower(needle) + after
  }

  lemma {:induction false} MentionedSomewhere(host: Host, j: Json, needle: string) returns (path: seq<Turn>)
    requires PayloadContains(host, j, needle)
    ensures MentionsAt(host, j, needle, path)
    decreases j
  {
    match j
    case JStr(s) =>
      ContainsExactly(host.lower(s), host.lower(needle));
      path := [];
    case JList(items) =>
      var i :| 0 <= i < |items| && PayloadContains(host, items[i], needle);
      var rest := MentionedSomewhere(host, items[i], needle);
      path := [Item(i)] + rest;
      assert path[1..] == rest;
    case JObj(fields) =>
      var k :| k in fields && PayloadContains(host, fields[k], needle);
      var rest := MentionedSomewhere(host, fields[k], needle);
      path := [Key(k)] + rest;
      assert path[1..] == rest;
  }

  lemma {:induction false} MentionIsContained(host: Host, j: Json, needle: string, path: seq<Turn>)
    requires MentionsAt(host, j, needle, path)
    ensures PayloadContains(host, j, needle)
    decreases |path|
  {
    if path == [] {
      ContainsExactly(host.lower(j.s), host.lower(needle));
    } else {
      match path[0]
      case Item(i) => MentionIsContained(host, j.items[i], needle, path[1..]);
      case Key(k) => MentionIsContained(host, j.fields[k], needle, path[1..]);
    }
  }

  lemma ContainsWay(x: Subject, m: Match)
    ensures Tried(x, Ways(m)[6]) ==
            if m.payloadContains.Some?
               && exists path :: MentionsAt(x.host, JObj(x.payload), m.payloadContains.value, path) then Yes else No
  {
    if m.payloadContains.Some? {
      var needle := m.payloadContains.value;
      if PayloadContains(x.host, JObj(x.payload), needle) {
        var path := MentionedSomewhere(x.host, JObj(x.payload), needle);
      }
      forall path | MentionsAt(x.host, JObj(x.payload), needle, path)
        ensures PayloadContains(x.host, JObj(x.payload), needle)
      {
        MentionIsContained(x.host, JObj(x.payload), needle, path);
      }
    }
  }

  /** Where the server reads the documented "classifier" field, the field the SDK reads says the same. */
  predicate HintsAgree(payload: map<string, Json>) {
    Truthy(Field(payload, "classifier")) ==>
      PyEqual(Field(payload, "classifier"), Field(payload, "_classifier_tier"))
  }

  lemma MatcherAgrees(host: Host, action: string, payload: map<string, Json>, f: Features, rule: RawRule)
    requires rule.Rule? && HintsAgree(payload)
    ensures RuleMatches(host, Server, action, payload, f, rule) == RuleMatches(host, Sdk, action, payload, f, rule)
  {
    var a, b := Hint(Server, payload), Hint(Sdk, payload);
    PyEqualReflexive(b);
    assert PyEqual(a, b);
    PyEqualTruth(a, b);
    if rule.matcher.Some? {
      var m := rule.matcher.value;
      PyEqualEuclidean(if m.equals.Some? then m.equals.value else JNull, a, b);
      assert FeatureHit(Server, payload, f, m) == FeatureHit(Sdk, payload, f, m);
    }
  }

  /** A rule that denies whenever the classifier said this. */
  function ClassifierRule(said: Json): RawRule {
    Rule(Some("classifier"), 0, "red", Some("deny"),
         Some(Match(None, false, Some("classifier"), None, false, false, Some(said), None, None, None)))
  }

  lemma ClassifierRuleSplits(host: Host, action: string, payload: map<string, Json>, f: Features)
    requires !HintsAgree(payload)
    ensures RuleMatches(host, Server, action, payload, f, ClassifierRule(Field(payload, "classifier"))) == Yes
    ensures RuleMatches(host, Sdk, action, payload, f, ClassifierRule(Field(payload, "classifier"))) == No
  {
    PyEqualReflexive(Field(payload, "classifier"));
  }

  /** On a payload, the two matchers agree about every rule exactly when its two classifier fields agree. */
  lemma MatchersAgreeExactly(host: Host, action: string, payload: map<string, Json>, f: Features)
    ensures (forall rule: RawRule :: rule.Rule? ==> SameMatch(host, action, payload, f, rule)) <==> HintsAgree(payload)
  {
    if HintsAgree(payload) {
      forall rule: RawRule | rule.Rule?
        ensures SameMatch(host, action, payload, f, rule)
      {
        MatcherAgrees(host, action, payload, f, rule);
      }
    } else {
      ClassifierRuleSplits(host, action, payload, f);
      assert !SameMatch(host, action, payload, f, ClassifierRule(Field(payload, "classifier")));
    }
  }

  predicate SameMatch(host: Host, action: string, payload: map<string, Json>, f: Features, rule: RawRule)
    requires rule.Rule?
  {
    RuleMatches(host, Server, action, payload, f, rule) == RuleMatches(host, Sdk, action, payload, f, rule)
  }

  // ---------------------------------------------------------------------------------------
  // The decisive rule
  // ---------------------------------------------------------------------------------------

  datatype RulesDoc = Missing | NotAList | Rules(rules: seq<RawRule>)

  datatype Decision = Allow | Deny | Flag

  datatype RuleHit = RuleHit(index: nat, tier: Tier, decision: Decision)

  datatype Scan = NoRule | Found(hit: RuleHit) | EngineError | Crash

  /** What is being judged. */
  datatype Subject = Subject(host: Host, side: Side, action: string, payload: map<string, Json>, features: Features)

  function Priority(r: RawRule): int {
    if r.Rule? then r.priority else 0
  }

  function DefaultDecision(t: Tier): Decision {
    match t
    case Red => Deny
    case Yellow => Flag
    case _ => Allow
  }

  function DecisionOf(r: RawRule, t: Tier): Decision
    requires r.Rule?
  {
    if r.decision == Some("allow") then Allow
    else if r.decision == Some("deny") then Deny
    else if r.decision == Some("flag") then Flag
    else DefaultDecision(t)
  }

  /** What meeting this rule in the scan leads to; NoRule means the scan goes on. */
  function Meeting(x: Subject, index: nat, r: RawRule): Scan {
    if r.NotObject? then EngineError
    else if ParseTier(r.tier).None? then EngineError
    else
      match RuleMatches(x.host, x.side, x.action, x.payload, x.features, r)
      case Raises => Crash
      case No => NoRule
      case Yes => Found(RuleHit(index, ParseTier(r.tier).value, DecisionOf(r, ParseTier(r.tier).value)))
  }

  /** The names of the tiers, strictest last. */
  const TIER_NAMES := ["green", "yellow", "orange", "red"]

  lemma TierNamed(s: string, t: Tier)
    ensures ParseTier(s) == Some(t) <==> s == TIER_NAMES[Rank(t)]
    ensures t == [Green, Yellow, Orange, Red][Rank(t)]
  {
  }

  /** What a rule that matches decides: what it says, if it says one of the three; else red denies, yellow flags. */
  ghost predicate Says(r: RawRule, t: Tier, d: Decision)
    requires r.Rule?
  {
    match d
    case Allow =>
      r.decision == Some("allow")
      || (r.decision != Some("deny") && r.decision != Some("flag") && (t == Green || t == Orange))
    case Deny => r.decision == Some("deny") || (r.decision != Some("allow") && r.decision != Some("flag") && t == Red)
    case Flag =>
      r.decision == Some("flag") || (r.decision != Some("allow") && r.decision != Some("deny") && t == Yellow)
  }

  /**
   What meeting a rule in the scan comes to: an engine error for one that is no object or names no tier; else a
   crash, nothing, or its tier and decision, as its match raises, does not match, or matches.
   */
  lemma MeetingExactly(x: Subject, i: nat, r: RawRule)
    ensures Meeting(x, i, r) == EngineError <==> r.NotObject? || r.tier !in TIER_NAMES
    ensures r.Rule? && r.tier in TIER_NAMES ==>
      var hit := if r.matcher.None? then No else FirstHit(x, Ways(r.matcher.value));
      && (Meeting(x, i, r) == Crash <==> hit == Raises)
      && (Meeting(x, i, r) == NoRule <==> hit == No)
      && (Meeting(x, i, r).Found? <==> hit == Yes)
      && (Meeting(x, i, r).Found? ==>
            var h := Meeting(x, i, r).hit;
            h.index == i && r.tier == TIER_NAMES[Rank(h.tier)] && Says(r, h.tier, h.decision))
  {
    if r.Rule? {
      FirstWayDecides(x, r);
      assert r.tier in TIER_NAMES <==> ParseTier(r.tier).Some? by {
        assert forall k :: 0 <= k < 4 ==> TIER_NAMES[k] == ["green", "yellow", "orange", "red"][k];
      }
      if ParseTier(r.tier).Some? {
        TierNamed(r.tier, ParseTier(r.tier).value);
      }
    }
  }

  /** The number a rule is ranked by: its own priority; what is no object counts as zero. */
  ghost predicate RankedBy(r: RawRule, n: int) {
    if r.NotObject? then n == 0 else n == r.priority
  }

  /**
   Of two rules that both stop the scan, one ranked strictly higher decides wherever it stands, and of two ranked
   alike the earlier one; rules that do not stop it do not matter.
   */
  lemma HigherDecides(x: Subject, rules: seq<RawRule>, i: nat, j: nat, m: int, n: int)
    requires i < |rules| && j < |rules| && i != j && RankedBy(rules[i], m) && RankedBy(rules[j], n)
    requires !Meeting(x, i, rules[i]).NoRule? && !Meeting(x, j, rules[j]).NoRule?
    ensures m > n || (m == n && i < j) ==> !Decides(x, rules, j)
    ensures (forall k :: 0 <= k < |rules| && k != i && k != j ==> Meeting(x, k, rules[k]).NoRule?) ==>
      (Decides(x, rules, i) <==> m > n || (m == n && i < j))
  {
  }

  /** Rule i decides: it stops the scan, and any other that would has lower priority or comes later. */
  ghost predicate Decides(x: Subject, rules: seq<RawRule>, i: nat)
    requires i < |rules|
  {
    && !Meeting(x, i, rules[i]).NoRule?
    && forall j :: 0 <= j < |rules| && !Meeting(x, j, rules[j]).NoRule? ==>
         Priority(rules[j]) < Priority(rules[i]) || (Priority(rules[j]) == Priority(rules[i]) && i <= j)
  }

  /** The outcome of the scan, as a statement about the unsorted rules. */
  ghost predicate IsScan(x: Subject, doc: RulesDoc, s: Scan) {
    match doc
    case Missing => s == NoRule
    case NotAList => s == EngineError
    case Rules(rules) =>
      if exists i :: 0 <= i < |rules| && !Meeting(x, i, rules[i]).NoRule?
      then exists i :: 0 <= i < |rules| && Decides(x, rules, i) && s == Meeting(x, i, rules[i])
      else s == NoRule
  }

  lemma ScanUnique(x: Subject, doc: RulesDoc, s: Scan, t: Scan)
    requires IsScan(x, doc, s) && IsScan(x, doc, t)
    ensures s == t
  {
    if doc.Rules? && exists i :: 0 <= i < |doc.rules| && !Meeting(x, i, doc.rules[i]).NoRule? {
      var i :| 0 <= i < |doc.rules| && Decides(x, doc.rules, i) && s == Meeting(x, i, doc.rules[i]);
      var j :| 0 <= j < |doc.rules| && Decides(x, doc.rules, j) && t == Meeting(x, j, doc.rules[j]);
      assert i == j;
    }
  }

  /** Sort by priority, then scan: the first rule to stop the scan is the deciding one. */
  method FirstMatchingRule(x: Subject, doc: RulesDoc) returns (s: Scan)
    ensures IsScan(x, doc, s)
  {
    match doc {
      case Missing => return NoRule;
      case NotAList => return EngineError;
      case Rules(rules) =>
        var sorted := Sort(Priority, rules);
        SortIsStable(Priority, rules);
        for k := 0 to |sorted|
          invariant forall i :: 0 <= i < k ==> Meeting(x, sorted[i].0, sorted[i].1).NoRule?
        {
          var (index, rule) := sorted[k];
          s := Meeting(x, index, rule);
          if !s.NoRule? {
            assert Decides(x, rules, index);
            return;
          }
        }
        forall i | 0 <= i < |rules|
          ensures Meeting(x, i, rules[i]).NoRule?
        {
          assert (i, rules[i]) in sorted;
        }
        return NoRule;
    }
  }

  // ---------------------------------------------------------------------------------------
  // The institution's own verdict
  // ---------------------------------------------------------------------------------------

  datatype Own = Own(tier: Tier, decision: Decision, allowed: bool, ruleIndex: Option<nat>)

  predicate DecisionAllowed(t: Tier, d: Decision, failMode: string) {
    match d
    case Deny => false
    case Allow => true
    case Flag => t == Red ==> failMode == "allow_with_flag"
  }

  /** On the server a layer-only outcome is advisory: flagged at worst, always allowed. */
  function ServerOwn(floor: Tier, s: Scan, failMode: string): Own
    requires s.NoRule? || s.Found?
  {
    match s
    case Found(h) =>
      var t := MaxTier(floor, h.tier);
      Own(t, h.decision, DecisionAllowed(t, h.decision, failMode), Some(h.index))
    case NoRule =>
      Own(floor, if DefaultDecision(floor) == Deny then Flag else DefaultDecision(floor), true, None)
  }

  /** In the SDK a layer-only outcome takes the default decision for its tier. */
  function SdkOwn(floor: Tier, s: Scan, failMode: string): Own
    requires s.NoRule? || s.Found?
  {
    match s
    case Found(h) =>
      var t := MaxTier(floor, h.tier);
      Own(t, h.decision, DecisionAllowed(t, h.decision, failMode), Some(h.index))
    case NoRule => Own(floor, DefaultDecision(floor), DecisionAllowed(floor, DefaultDecision(floor), failMode), None)
  }
}
