/**
 The watcher's sweep: which sources a run touches, and why none starves
 (`due_sources` and `run_watch` in app/services/reg_watch.py).

 Rows that compare equal may come back from the database in any order, so a run is described by the
 set of sources it may legally pick. A run is one transaction: a check that raises (`RegWatch.CheckRaises`)
 ends it, and its callers roll every booking of the run back.
 */
module Sweep {
  import opened Prelude

  /** When a source is next due (None: never checked), when it was registered, and whether it is live. */
  datatype Slot = Slot(next: Option<int>, created: int, live: bool)

  predicate Due(s: Slot, now: int) {
    s.live && (s.next.None? || s.next.value <= now)
  }

  /** Strictly ahead in the sweep order: never checked first, then longest overdue, then oldest. */
  predicate Earlier(a: Slot, b: Slot) {
    match (a.next, b.next)
    case (None, None) => a.created < b.created
    case (None, Some(_)) => true
    case (Some(_), None) => false
    case (Some(x), Some(y)) => x < y || (x == y && a.created < b.created)
  }

  function DueSet(slots: seq<Slot>, now: int): set<nat> {
    set i: nat | i < |slots| && Due(slots[i], now)
  }

  /** The sources a run at `now` may pick: the first due ones, up to the cap. A cap of zero or less means no cap. */
  ghost predicate Picks(slots: seq<Slot>, cap: int, now: int, picked: set<nat>) {
    var due := DueSet(slots, now);
    && picked <= due
    && (forall i, u :: i in picked && u in due && u !in picked ==> !Earlier(slots[u], slots[i]))
    && |picked| == if cap <= 0 || |due| <= cap then |due| else cap
  }

  /** A run that came through at `now`: the sources it checked, each with the time it was booked for. */
  datatype Run = Run(now: int, booked: map<nat, int>)

  ghost predicate Legal(slots: seq<Slot>, cap: int, r: Run) {
    Picks(slots, cap, r.now, r.booked.Keys) && forall i :: i in r.booked ==> r.booked[i] > r.now
  }

  function Swept(slots: seq<Slot>, r: Run): (after: seq<Slot>)
    ensures |after| == |slots|
    ensures forall i :: 0 <= i < |slots| ==>
      after[i] == if i in r.booked then slots[i].(next := Some(r.booked[i])) else slots[i]
  {
    seq(|slots|, i requires 0 <= i < |slots| =>
      if i in r.booked then slots[i].(next := Some(r.booked[i])) else slots[i])
  }

  // ---------------------------------------------------------------------------------------
  // The queries and the sweep as code
  // ---------------------------------------------------------------------------------------

  method EarliestOf(slots: seq<Slot>, candidates: set<nat>) returns (best: nat)
    requires candidates != {} && forall i :: i in candidates ==> i < |slots|
    ensures best in candidates && forall u :: u in candidates ==> !Earlier(slots[u], slots[best])
  {
    best :| best in candidates;
    var todo := candidates - {best};
    while todo != {}
      invariant todo <= candidates && best in candidates
      invariant forall u :: u in candidates && u !in todo ==> !Earlier(slots[u], slots[best])
      decreases |todo|
    {
      var u :| u in todo;
      todo := todo - {u};
      if Earlier(slots[u], slots[best]) {
        best := u;
      }
    }
  }

  /** `order` lists exactly the picked sources, once each, none after one it should precede. */
  ghost predicate ListsInOrder(slots: seq<Slot>, order: seq<nat>, picked: set<nat>) {
    && |order| == |picked| && (forall i :: i in picked ==> i < |slots|)
    && (forall k :: 0 <= k < |order| ==> order[k] in picked)
    && (forall j, k :: 0 <= j < k < |order| ==> order[j] != order[k] && !Earlier(slots[order[k]], slots[order[j]]))
  }

  /** Never checked, or due no later; among equals the older. */
  predicate NoLaterThan(a: Slot, b: Slot) {
    || (a.next == None && (b.next == None ==> a.created <= b.created))
    || (a.next.Some? && b.next.Some?
        && (a.next.value < b.next.value || (a.next == b.next && a.created <= b.created)))
  }

  lemma NotEarlierExactly(a: Slot, b: Slot)
    ensures NoLaterThan(a, b) <==> !Earlier(b, a)
  {
  }

  /** Live, and never checked or booked for no later than now. */
  predicate Eligible(slots: seq<Slot>, i: nat, now: int) {
    i < |slots| && slots[i].live && (slots[i].next == None || slots[i].next.value <= now)
  }

  /** The listed sources are eligible and in order, and one left out is behind them all, the cap being used up. */
  ghost predicate LongestOverdue(slots: seq<Slot>, now: int, cap: int, order: seq<nat>) {
    && (forall j :: 0 <= j < |order| ==> Eligible(slots, order[j], now))
    && (forall j, k :: 0 <= j < k < |order| ==> NoLaterThan(slots[order[j]], slots[order[k]]))
    && (forall u: nat :: Eligible(slots, u, now) && u !in order ==>
          cap > 0 && |order| == cap && forall j :: 0 <= j < |order| ==> NoLaterThan(slots[order[j]], slots[u]))
  }

  lemma PickedLongestOverdue(slots: seq<Slot>, now: int, cap: int, order: seq<nat>, picked: set<nat>)
    requires Picks(slots, cap, now, picked) && ListsInOrder(slots, order, picked)
    ensures LongestOverdue(slots, now, cap, order)
  {
    PickedAre(slots, order, picked);
    var due := DueSet(slots, now);
    forall j, k | 0 <= j < k < |order|
      ensures NoLaterThan(slots[order[j]], slots[order[k]])
    {
      NotEarlierExactly(slots[order[j]], slots[order[k]]);
    }
    forall u: nat | Eligible(slots, u, now) && u !in order
      ensures cap > 0 && |order| == cap
      ensures forall j :: 0 <= j < |order| ==> NoLaterThan(slots[order[j]], slots[u])
    {
      assert u in due && u !in picked;
      if |picked| == |due| {
        SubsetOfSameSize(picked, due);
      }
      forall j | 0 <= j < |order|
        ensures NoLaterThan(slots[order[j]], slots[u])
      {
        assert order[j] in picked;
        NotEarlierExactly(slots[order[j]], slots[u]);
      }
    }
  }

  lemma OneMore(slots: seq<Slot>, order: seq<nat>, picked: set<nat>, best: nat)
    requires ListsInOrder(slots, order, picked) && best < |slots| && best !in picked
    requires forall i :: i in picked ==> !Earlier(slots[best], slots[i])
    ensures ListsInOrder(slots, order + [best], picked + {best})
  {
  }

  lemma MoveOne(all: set<nat>, picked: set<nat>, rest: set<nat>, i: nat)
    requires picked !! rest && picked + rest == all && |picked| + |rest| == |all| && i in rest
    ensures picked + {i} !! rest - {i} && (picked + {i}) + (rest - {i}) == all
    ensures |picked + {i}| + |rest - {i}| == |all|
  {
  }

  /** Sources eligible now, longest overdue first, at most `cap` of them. */
  method DueSources(slots: seq<Slot>, now: int, cap: int) returns (order: seq<nat>, picked: set<nat>)
    ensures Picks(slots, cap, now, picked) && ListsInOrder(slots, order, picked)
    ensures LongestOverdue(slots, now, cap, order)
  {
    var due := DueSet(slots, now);
    var rest := due;
    order, picked := [], {};
    while rest != {} && (cap <= 0 || |order| < cap)
      invariant picked !! rest && picked + rest == due && |picked| + |rest| == |due|
      invariant cap > 0 ==> |order| <= cap
      invariant ListsInOrder(slots, order, picked)
      invariant forall i, u :: i in picked && u in rest ==> !Earlier(slots[u], slots[i])
      decreases |rest|
    {
      var best := EarliestOf(slots, rest);
      OneMore(slots, order, picked, best);
      MoveOne(due, picked, rest, best);
      rest := rest - {best};
      order, picked := order + [best], picked + {best};
    }
    PickedLongestOverdue(slots, now, cap, order, picked);
  }

  /** Check the listed sources in turn: each is booked for a later time, until one check raises. */
  method CheckAll(slots: seq<Slot>, order: seq<nat>, spoilt: set<nat>, now: int, clock: nat -> int, wait: nat -> int)
    returns (raised: bool, after: seq<Slot>, booked: map<nat, int>)
    requires forall k :: clock(k) >= now && wait(k) > 0
    requires forall k :: 0 <= k < |order| ==> order[k] < |slots|
    requires forall j, k :: 0 <= j < k < |order| ==> order[j] != order[k]
    ensures raised <==> exists k :: 0 <= k < |order| && order[k] in spoilt
    ensures !raised ==> |booked.Keys| == |order| && forall i :: i in booked ==> i in order && booked[i] > now
    ensures !raised ==> after == Swept(slots, Run(now, booked))
  {
    raised, booked, after := false, map[], slots;
    for k := 0 to |order|
      invariant |booked.Keys| == k && after == Swept(slots, Run(now, booked))
      invariant forall i :: i in booked ==> i in order && booked[i] > now
      invariant forall j :: k <= j < |order| ==> order[j] !in booked
      invariant forall j :: 0 <= j < k ==> order[j] !in spoilt
    {
      var i := order[k];
      if i in spoilt {
        return true, after, booked;
      }
      var book := clock(k) + wait(k);
      SweptOneMore(slots, now, booked, i, book);
      after := after[i := after[i].(next := Some(book))];
      booked := booked[i := book];
    }
  }

  lemma SweptOneMore(slots: seq<Slot>, now: int, booked: map<nat, int>, i: nat, book: int)
    requires i < |slots| && i !in booked
    ensures var before := Swept(slots, Run(now, booked));
            Swept(slots, Run(now, booked[i := book])) == before[i := before[i].(next := Some(book))]
    ensures |booked[i := book].Keys| == |booked.Keys| + 1
  {
    assert booked[i := book].Keys == booked.Keys + {i};
  }

  /**
   One run. `clock(k)` is the time at the k-th check, `wait(k)` the interval that check books, and `spoilt`
   holds the sources whose check raises. A run that raises is rolled back, bookings and all.
   */
  method RunWatch(slots: seq<Slot>, now: int, cap: int, spoilt: set<nat>, clock: nat -> int, wait: nat -> int)
    returns (raised: bool, picked: set<nat>, after: seq<Slot>, r: Run)
    requires forall k :: clock(k) >= now && wait(k) > 0
    ensures Picks(slots, cap, now, picked) && (raised <==> !(picked !! spoilt))
    ensures raised ==> after == slots
    ensures !raised ==> Legal(slots, cap, r) && r.now == now && r.booked.Keys == picked && after == Swept(slots, r)
  {
    var order: seq<nat>;
    order, picked := DueSources(slots, now, cap);
    PickedAre(slots, order, picked);
    var booked: map<nat, int>;
    raised, after, booked := CheckAll(slots, order, spoilt, now, clock, wait);
    r := Run(now, booked);
    if raised {
      after := slots;
    } else {
      SubsetOfSameSize(booked.Keys, picked);
    }
  }

  lemma PickedAre(slots: seq<Slot>, order: seq<nat>, picked: set<nat>)
    requires ListsInOrder(slots, order, picked)
    ensures forall i :: i in picked <==> i in order
  {
    var listed := set k | 0 <= k < |order| :: order[k];
    ListedSize(order, |order|);
    SubsetOfSameSize(listed, picked);
  }

  lemma {:induction false} ListedSize(order: seq<nat>, n: nat)
    requires n <= |order| && forall j, k :: 0 <= j < k < |order| ==> order[j] != order[k]
    ensures |set k | 0 <= k < n :: order[k]| == n
  {
    if n > 0 {
      ListedSize(order, n - 1);
      assert (set k | 0 <= k < n :: order[k]) == (set k | 0 <= k < n - 1 :: order[k]) + {order[n - 1]};
    }
  }

  lemma SubsetOfSameSize(a: set<nat>, b: set<nat>)
    requires a <= b && |a| == |b|
    ensures a == b
  {
    assert |b - a| == |b| - |a|;
    assert b == a + (b - a);
  }

  // ---------------------------------------------------------------------------------------
  // Fairness
  // ---------------------------------------------------------------------------------------

  /**
   A run comes through or raises; between runs a source may be retired, or booked ahead because a person
   supplied its text.
   */
  datatype Event = Ran(run: Run) | Failed(now: int, picked: set<nat>) | Retired(i: nat) | Rebooked(i: nat, at: int)

  ghost predicate Happens(slots: seq<Slot>, cap: int, since: int, e: Event) {
    match e
    case Ran(r) => r.now >= since && Legal(slots, cap, r)
    case Failed(now, picked) => now >= since && Picks(slots, cap, now, picked)
    case Retired(i) => i < |slots|
    case Rebooked(i, at) => i < |slots| && at > since
  }

  function After(slots: seq<Slot>, e: Event): (after: seq<Slot>)
    ensures |after| == |slots|
  {
    match e
    case Ran(r) => Swept(slots, r)
    case Failed(_, _) => slots
    case Retired(i) => if i < |slots| then slots[i := slots[i].(live := false)] else slots
    case Rebooked(i, at) => if i < |slots| then slots[i := slots[i].(next := Some(at))] else slots
  }

  /** A history of events, each legal where it happens, with no source added or revived. */
  ghost predicate History(slots: seq<Slot>, cap: int, since: int, events: seq<Event>)
    decreases |events|
  {
    events == [] ||
    (Happens(slots, cap, since, events[0]) && History(After(slots, events[0]), cap, since, events[1..]))
  }

  /** Runs that came through. */
  function Runs(events: seq<Event>): nat {
    if events == [] then 0 else (if events[0].Ran? then 1 else 0) + Runs(events[1..])
  }

  /** No event of the history touches source t. */
  ghost predicate Untouched(events: seq<Event>, t: nat) {
    forall k :: 0 <= k < |events| ==>
      match events[k]
      case Ran(r) => t !in r.booked
      case Failed(_, _) => true
      case Retired(i) => i != t
      case Rebooked(i, _) => i != t
  }

  /** Sources due at `since` that may be taken before t; equal keys count as ahead. */
  function AheadOf(slots: seq<Slot>, t: nat, since: int): set<nat>
    requires t < |slots|
  {
    set i: nat | i < |slots| && i != t && Due(slots[i], since) && !Earlier(slots[t], slots[i])
  }

  /** A run that passes t over takes exactly `cap` sources, all of them ahead of t, and books them past it. */
  lemma RunShrinksQueue(slots: seq<Slot>, cap: int, since: int, t: nat, r: Run)
    requires cap > 0 && t < |slots| && Due(slots[t], since) && r.now >= since
    requires Legal(slots, cap, r) && t !in r.booked
    ensures |AheadOf(Swept(slots, r), t, since)| + cap <= |AheadOf(slots, t, since)|
  {
    PassedOverMeansFull(slots, cap, t, r, since);
    BookedWereAhead(slots, cap, since, t, r);
    SizeWithout(AheadOf(slots, t, since), r.booked.Keys, AheadOf(Swept(slots, r), t, since));
  }

  /** A run that passes over a due source has booked as many as it may. */
  lemma PassedOverMeansFull(slots: seq<Slot>, cap: int, t: nat, r: Run, since: int)
    requires cap > 0 && t < |slots| && Due(slots[t], since) && r.now >= since
    requires Legal(slots, cap, r) && t !in r.booked
    ensures |r.booked.Keys| == cap
  {
    var due := DueSet(slots, r.now);
    assert t in due && r.booked.Keys <= due - {t};
    assert |due - {t}| == |due| - 1;
    SubsetSize(r.booked.Keys, due - {t});
  }

  lemma BookedWereAhead(slots: seq<Slot>, cap: int, since: int, t: nat, r: Run)
    requires cap > 0 && t < |slots| && Due(slots[t], since) && r.now >= since
    requires Legal(slots, cap, r) && t !in r.booked
    ensures r.booked.Keys <= AheadOf(slots, t, since)
    ensures AheadOf(Swept(slots, r), t, since) <= AheadOf(slots, t, since) - r.booked.Keys
  {
    assert t in DueSet(slots, r.now);
    forall i | i in r.booked
      ensures i in AheadOf(slots, t, since)
    {
      assert i in DueSet(slots, r.now) && !Earlier(slots[t], slots[i]);
    }
  }

  lemma SizeWithout(before: set<nat>, booked: set<nat>, after: set<nat>)
    requires booked <= before && after <= before - booked
    ensures |after| + |booked| <= |before|
  {
    SubsetSize(after, before - booked);
    assert before == (before - booked) + booked;
  }

  lemma SubsetSize(a: set<nat>, b: set<nat>)
    requires a <= b
    ensures |a| <= |b|
  {
    assert b == a + (b - a);
  }

  lemma QuietEventShrinksQueue(slots: seq<Slot>, since: int, t: nat, e: Event)
    requires t < |slots| && Due(slots[t], since) && !e.Ran?
    requires (e.Retired? ==> e.i != t) && (e.Rebooked? ==> e.i != t && e.at > since)
    ensures |AheadOf(After(slots, e), t, since)| <= |AheadOf(slots, t, since)|
  {
    SubsetSize(AheadOf(After(slots, e), t, since), AheadOf(slots, t, since));
  }

  lemma {:induction false} PassedOverBound(slots: seq<Slot>, cap: int, since: int, t: nat, events: seq<Event>)
    requires cap > 0 && t < |slots| && Due(slots[t], since)
    requires History(slots, cap, since, events) && Untouched(events, t)
    ensures Runs(events) * cap <= |AheadOf(slots, t, since)|
    decreases |events|
  {
    if events != [] {
      var e := events[0];
      if e.Ran? {
        RunShrinksQueue(slots, cap, since, t, e.run);
      } else {
        QuietEventShrinksQueue(slots, since, t, e);
      }
      assert After(slots, e)[t] == slots[t];
      assert Untouched(events[1..], t) by {
        assert forall k :: 0 <= k < |events[1..]| ==> events[1..][k] == events[k + 1];
      }
      PassedOverBound(After(slots, e), cap, since, t, events[1..]);
      assert (Runs(events[1..]) + 1) * cap == Runs(events[1..]) * cap + cap;
    }
  }

  /** Nobody retires or supplies source t. */
  ghost predicate Spares(events: seq<Event>, t: nat) {
    forall k :: 0 <= k < |events| ==>
      (events[k].Retired? ==> events[k].i != t) && (events[k].Rebooked? ==> events[k].i != t)
  }

  ghost predicate Checked(events: seq<Event>, t: nat) {
    exists k :: 0 <= k < |events| && events[k].Ran? && t in events[k].run.booked
  }

  /**
   Sweep fairness: a due source with p due sources ordered ahead of it is checked by the (p / cap + 1)-th run
   that comes through, whatever runs raise, and whatever other sources answer, are retired or get supplied.
   */
  lemma SweepFairness(slots: seq<Slot>, cap: int, since: int, t: nat, events: seq<Event>)
    requires cap > 0 && t < |slots| && Due(slots[t], since)
    requires History(slots, cap, since, events) && Spares(events, t)
    requires Runs(events) >= |AheadOf(slots, t, since)| / cap + 1
    ensures Checked(events, t)
  {
    if !Checked(events, t) {
      PassedOverBound(slots, cap, since, t, events);
      EnoughRuns(|AheadOf(slots, t, since)|, cap, Runs(events));
    }
  }

  lemma {:induction false} EnoughRuns(p: nat, cap: int, n: nat)
    requires cap > 0 && n >= p / cap + 1
    ensures n * cap > p
  {
    var q := p / cap;
    assert p == q * cap + p % cap;
    assert (q + 1) * cap == q * cap + cap;
    assert n * cap == (q + 1) * cap + (n - q - 1) * cap;
    assert (n - q - 1) * cap >= 0;
  }

  // ---------------------------------------------------------------------------------------
  // Sources whose check raises
  // ---------------------------------------------------------------------------------------

  /** Runs raise exactly when they pick one of these sources. */
  ghost predicate Follows(events: seq<Event>, spoilt: set<nat>) {
    forall k :: 0 <= k < |events| ==> RaisesOn(events[k], spoilt)
  }

  ghost predicate RaisesOn(e: Event, spoilt: set<nat>) {
    (e.Ran? ==> e.run.booked.Keys !! spoilt) && (e.Failed? ==> !(e.picked !! spoilt))
  }

  /** Runs started. */
  function Attempts(events: seq<Event>): nat {
    if events == [] then 0 else (if events[0].Ran? || events[0].Failed? then 1 else 0) + Attempts(events[1..])
  }

  /** The number of runs after which a source with p due sources ahead of it has had its turn. */
  function Turns(cap: int, p: nat): nat {
    if cap <= 0 then 1 else p / cap + 1
  }

  /** In this history source t is checked in its turn. */
  ghost predicate Served(slots: seq<Slot>, cap: int, spoilt: set<nat>, since: int, t: nat, events: seq<Event>)
    requires t < |slots|
  {
    (&& History(slots, cap, since, events) && Follows(events, spoilt) && Spares(events, t)
     && Attempts(events) >= Turns(cap, |AheadOf(slots, t, since)|)) ==> Checked(events, t)
  }

  /** Every live source whose check raises is behind t, and runs take one source at a time. */
  ghost predicate Clear(slots: seq<Slot>, cap: int, spoilt: set<nat>, t: nat)
    requires t < |slots|
  {
    t !in spoilt &&
    forall b :: b in spoilt && b < |slots| && slots[b].live ==> cap == 1 && Earlier(slots[t], slots[b])
  }

  lemma OneAtATime(picked: set<nat>, a: nat)
    requires a in picked && |picked| <= 1
    ensures picked == {a}
  {
    assert |picked - {a}| == |picked| - 1;
    assert picked == (picked - {a}) + {a};
  }

  /** While the way is clear no run raises before t is checked. */
  lemma ClearNeverFails(slots: seq<Slot>, cap: int, spoilt: set<nat>, since: int, t: nat, e: Event)
    requires t < |slots| && Due(slots[t], since) && Clear(slots, cap, spoilt, t)
    requires Happens(slots, cap, since, e) && RaisesOn(e, spoilt)
    ensures !e.Failed?
  {
    if e.Failed? {
      var b :| b in e.picked && b in spoilt;
      assert b in DueSet(slots, e.now) && t in DueSet(slots, e.now);
      OneAtATime(e.picked, b);
    }
  }

  ghost predicate Touches(e: Event, t: nat) {
    match e
    case Ran(r) => t in r.booked
    case Failed(_, _) => false
    case Retired(i) => i == t
    case Rebooked(i, _) => i == t
  }

  lemma ClearStays(slots: seq<Slot>, cap: int, spoilt: set<nat>, since: int, t: nat, e: Event)
    requires t < |slots| && Due(slots[t], since) && Clear(slots, cap, spoilt, t)
    requires Happens(slots, cap, since, e) && !Touches(e, t)
    ensures After(slots, e)[t] == slots[t] && Clear(After(slots, e), cap, spoilt, t)
  {
  }

  /** As long as t is not checked, every run comes through. */
  lemma {:induction false} AllComeThrough(slots: seq<Slot>, cap: int, spoilt: set<nat>, since: int, t: nat,
                                          events: seq<Event>)
    requires t < |slots| && Due(slots[t], since) && Clear(slots, cap, spoilt, t)
    requires History(slots, cap, since, events) && Follows(events, spoilt) && Untouched(events, t)
    ensures Runs(events) == Attempts(events)
    decreases |events|
  {
    if events != [] {
      var e := events[0];
      ClearNeverFails(slots, cap, spoilt, since, t, e);
      assert !Touches(e, t);
      ClearStays(slots, cap, spoilt, since, t, e);
      assert forall k :: 0 <= k < |events[1..]| ==> events[1..][k] == events[k + 1];
      AllComeThrough(After(slots, e), cap, spoilt, since, t, events[1..]);
    }
  }

  /** Without a cap the first run takes every due source. */
  lemma {:induction false} UncappedTakesAll(slots: seq<Slot>, cap: int, since: int, t: nat, events: seq<Event>)
    requires cap <= 0 && t < |slots| && Due(slots[t], since)
    requires History(slots, cap, since, events) && Untouched(events, t)
    ensures Runs(events) == 0
    decreases |events|
  {
    if events != [] {
      var e := events[0];
      if e.Ran? {
        assert t in DueSet(slots, e.run.now);
        SubsetOfSameSize(e.run.booked.Keys, DueSet(slots, e.run.now));
      }
      assert After(slots, e)[t] == slots[t];
      assert forall k :: 0 <= k < |events[1..]| ==> events[1..][k] == events[k + 1];
      UncappedTakesAll(After(slots, e), cap, since, t, events[1..]);
    }
  }

  lemma ClearServes(slots: seq<Slot>, cap: int, spoilt: set<nat>, since: int, t: nat, events: seq<Event>)
    requires t < |slots| && Due(slots[t], since) && Clear(slots, cap, spoilt, t)
    ensures Served(slots, cap, spoilt, since, t, events)
  {
    if History(slots, cap, since, events) && Follows(events, spoilt) && Spares(events, t) && !Checked(events, t) {
      AllComeThrough(slots, cap, spoilt, since, t, events);
      if cap > 0 {
        PassedOverBound(slots, cap, since, t, events);
        if Attempts(events) >= Turns(cap, |AheadOf(slots, t, since)|) {
          EnoughRuns(|AheadOf(slots, t, since)|, cap, Runs(events));
        }
      } else {
        UncappedTakesAll(slots, cap, since, t, events);
      }
    }
  }

  /** n runs are started, none comes through, and nobody touches t. */
  ghost predicate Starves(slots: seq<Slot>, cap: int, spoilt: set<nat>, since: int, t: nat, n: nat,
                          events: seq<Event>)
  {
    && History(slots, cap, since, events) && Follows(events, spoilt) && Spares(events, t)
    && Attempts(events) == n && forall k :: 0 <= k < |events| ==> !events[k].Ran?
  }

  ghost predicate CanStarve(slots: seq<Slot>, cap: int, spoilt: set<nat>, since: int, t: nat, n: nat) {
    exists events :: Starves(slots, cap, spoilt, since, t, n, events)
  }

  lemma StarvesLonger(slots: seq<Slot>, cap: int, spoilt: set<nat>, since: int, t: nat, n: nat, e: Event,
                      events: seq<Event>)
    requires Happens(slots, cap, since, e) && RaisesOn(e, spoilt) && !e.Ran? && !Touches(e, t)
    requires Starves(After(slots, e), cap, spoilt, since, t, n, events)
    ensures Starves(slots, cap, spoilt, since, t, if e.Failed? then n + 1 else n, [e] + events)
  {
    var all := [e] + events;
    assert all[1..] == events;
    forall k | 0 <= k < |all|
      ensures RaisesOn(all[k], spoilt) && !all[k].Ran? && !Touches(all[k], t)
    {
      assert k > 0 ==> all[k] == events[k - 1] && RaisesOn(events[k - 1], spoilt);
    }
  }

  /** A run that may pick a source whose check raises can do so again and again: nothing has changed. */
  lemma {:induction false} FailsForever(slots: seq<Slot>, cap: int, spoilt: set<nat>, since: int, t: nat, now: int,
                                        picked: set<nat>, n: nat)
    returns (events: seq<Event>)
    requires now >= since && Picks(slots, cap, now, picked) && !(picked !! spoilt)
    ensures Starves(slots, cap, spoilt, since, t, n, events)
  {
    events := [];
    if n > 0 {
      events := FailsForever(slots, cap, spoilt, since, t, now, picked, n - 1);
      StarvesLonger(slots, cap, spoilt, since, t, n - 1, Failed(now, picked), events);
      events := [Failed(now, picked)] + events;
    }
  }

  function DueBy(s: Slot, since: int): int {
    if s.next.Some? then Max(since, s.next.value) else since
  }

  /** With only t and b left, a run may pick b: alone, or together with t. */
  lemma PicksSpoilt(slots: seq<Slot>, cap: int, since: int, t: nat, b: nat) returns (picked: set<nat>)
    requires t < |slots| && Due(slots[t], since) && b < |slots| && slots[b].live
    requires b == t || !(cap == 1 && Earlier(slots[t], slots[b]))
    requires forall i :: 0 <= i < |slots| && i != t && i != b ==> !slots[i].live
    ensures b in picked && Picks(slots, cap, DueBy(slots[b], since), picked)
  {
    var due := DueSet(slots, DueBy(slots[b], since));
    assert due == {t, b};
    picked := if cap == 1 then {b} else {t, b};
  }

  /** Source b's check raises and b is not out of t's way: retire all others, and runs raise from then on. */
  lemma {:induction false} StarveFrom(slots: seq<Slot>, cap: int, spoilt: set<nat>, since: int, t: nat, b: nat,
                                      n: nat, from: nat)
    returns (events: seq<Event>)
    requires t < |slots| && Due(slots[t], since) && b in spoilt && b < |slots| && slots[b].live
    requires b == t || !(cap == 1 && Earlier(slots[t], slots[b]))
    requires from <= |slots| && forall i :: 0 <= i < from && i != t && i != b ==> !slots[i].live
    ensures Starves(slots, cap, spoilt, since, t, n, events)
    decreases |slots| - from
  {
    if from == |slots| {
      var picked := PicksSpoilt(slots, cap, since, t, b);
      events := FailsForever(slots, cap, spoilt, since, t, DueBy(slots[b], since), picked, n);
    } else if from == t || from == b {
      events := StarveFrom(slots, cap, spoilt, since, t, b, n, from + 1);
    } else {
      var e := Retired(from);
      events := StarveFrom(After(slots, e), cap, spoilt, since, t, b, n, from + 1);
      StarvesLonger(slots, cap, spoilt, since, t, n, e, events);
      events := [e] + events;
    }
  }

  /**
   Exactly when a due source is served: in every history, whatever runs pick among equals and whatever happens
   to other sources, it is checked by its turn, if and only if its own check does not raise and no live source
   whose check raises can come into a run with it or before it. Otherwise it can be starved for ever.
   */
  lemma SweepFairExactly(slots: seq<Slot>, cap: int, spoilt: set<nat>, since: int, t: nat)
    requires t < |slots| && Due(slots[t], since)
    ensures (forall events :: Served(slots, cap, spoilt, since, t, events)) <==> Clear(slots, cap, spoilt, t)
    ensures !Clear(slots, cap, spoilt, t) ==>
      forall n: nat :: CanStarve(slots, cap, spoilt, since, t, n)
  {
    if Clear(slots, cap, spoilt, t) {
      forall events
        ensures Served(slots, cap, spoilt, since, t, events)
      {
        ClearServes(slots, cap, spoilt, since, t, events);
      }
    } else {
      var b: nat :| b < |slots| && b in spoilt && slots[b].live
                    && (b == t || !(cap == 1 && Earlier(slots[t], slots[b])));
      forall n: nat
        ensures CanStarve(slots, cap, spoilt, since, t, n)
      {
        var events := StarveFrom(slots, cap, spoilt, since, t, b, n, 0);
      }
      var n := Turns(cap, |AheadOf(slots, t, since)|);
      var events := StarveFrom(slots, cap, spoilt, since, t, b, n, 0);
      assert !Served(slots, cap, spoilt, since, t, events);
    }
  }

  /** The default cap of three and two new sources, one with a page that cannot be stored: the other starves. */
  lemma SpoiltSourceStarves(n: nat)
    ensures var slots := [Slot(None, 0, true), Slot(None, 1, true)];
            exists events :: Starves(slots, 3, {0}, 0, 1, n, events) && !Checked(events, 1)
  {
    var slots := [Slot(None, 0, true), Slot(None, 1, true)];
    assert DueSet(slots, 0) == {0, 1};
    var events := FailsForever(slots, 3, {0}, 0, 1, 0, {0, 1}, n);
  }
}
