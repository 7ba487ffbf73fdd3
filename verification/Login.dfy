/**
 Login codes and password lockout for one user (app/services/human_auth.py).

 Times are integers in one unit. `compared` and the outcomes of password checks are histories the
 bounds speak about; sessions, hashing and e-mail are not part of this model.
 */
module Login {
  import opened Prelude

  datatype Limits = Limits(codeTtl: int, maxAttempts: nat, maxIssued: nat, lockoutThreshold: nat, lockout: int)

  ghost predicate Sensible(l: Limits) {
    l.codeTtl > 0 && l.lockoutThreshold > 0 && l.lockout > 0
  }

  datatype Code = Code(created: int, expires: int, used: bool, attempts: nat)

  /** One comparison of a guess with a stored code. */
  datatype Comparison = Comparison(at: int, code: nat)

  datatype Codes = Codes(codes: seq<Code>, compared: seq<Comparison>)

  // ---------------------------------------------------------------------------------------
  // Codes
  // ---------------------------------------------------------------------------------------

  function IssuedSince(codes: seq<Code>, start: int): nat {
    if codes == [] then 0
    else IssuedSince(codes[..|codes| - 1], start) + if codes[|codes| - 1].created >= start then 1 else 0
  }

  function Voided(codes: seq<Code>): (r: seq<Code>)
    ensures |r| == |codes| && forall i :: 0 <= i < |r| ==> r[i] == codes[i].(used := true)
  {
    seq(|codes|, i requires 0 <= i < |codes| => codes[i].(used := true))
  }

  /** A new code voids every outstanding one; issuance is capped per window. */
  function Requested(l: Limits, s: Codes, now: int): Codes {
    if IssuedSince(s.codes, now - l.codeTtl) >= l.maxIssued then s
    else s.(codes := Voided(s.codes) + [Code(now, now + l.codeTtl, false, 0)])
  }

  /** The newest unused, unexpired code. */
  function Candidate(codes: seq<Code>, now: int): (r: Option<nat>)
    ensures r.Some? ==> r.value < |codes| && !codes[r.value].used && codes[r.value].expires > now
    ensures r.None? ==> forall i :: 0 <= i < |codes| ==> codes[i].used || codes[i].expires <= now
  {
    if codes == [] then None
    else
      var n := |codes| - 1;
      if !codes[n].used && codes[n].expires > now then Some(n) else Candidate(codes[..n], now)
  }

  /** The attempt is spent before the comparison, which only happens within the attempt limit. */
  function Verified(l: Limits, s: Codes, now: int, correct: bool): Codes {
    var c := Candidate(s.codes, now);
    if c.None? then s
    else
      var spent := s.codes[c.value].(attempts := s.codes[c.value].attempts + 1);
      if spent.attempts > l.maxAttempts then s.(codes := s.codes[c.value := spent])
      else Codes(s.codes[c.value := spent.(used := correct)], s.compared + [Comparison(now, c.value)])
  }

  datatype Op = RequestCode(now: int) | VerifyCode(now: int, correct: bool)

  function Step(l: Limits, s: Codes, op: Op): Codes {
    match op
    case RequestCode(now) => Requested(l, s, now)
    case VerifyCode(now, correct) => Verified(l, s, now, correct)
  }

  function Run(l: Limits, ops: seq<Op>): Codes {
    if ops == [] then Codes([], []) else Step(l, Run(l, ops[..|ops| - 1]), ops[|ops| - 1])
  }

  ghost predicate ClockForward(ops: seq<Op>) {
    forall i, j :: 0 <= i < j < |ops| ==> ops[i].now <= ops[j].now
  }

  // ---------------------------------------------------------------------------------------
  // The invariant
  // ---------------------------------------------------------------------------------------

  function ComparisonsOf(log: seq<Comparison>, code: nat): nat {
    if log == [] then 0
    else ComparisonsOf(log[..|log| - 1], code) + if log[|log| - 1].code == code then 1 else 0
  }

  /** An earlier code is void by the time a later one is issued, and far enough back if the cap lies between. */
  ghost predicate PairOk(l: Limits, codes: seq<Code>, i: nat, j: nat)
    requires i < j < |codes|
  {
    && codes[i].used && codes[i].created <= codes[j].created
    && (j - i >= l.maxIssued ==> codes[i].created < codes[j].created - l.codeTtl)
  }

  /** Codes in order of issue, only the last possibly unused, and never more than the cap in a window. */
  ghost predicate CodesOk(l: Limits, codes: seq<Code>, now: int) {
    && (forall i, j :: 0 <= i < j < |codes| ==> PairOk(l, codes, i, j))
    && (forall i :: 0 <= i < |codes| ==> codes[i].created <= now && codes[i].expires == codes[i].created + l.codeTtl)
    && (l.maxIssued == 0 ==> codes == [])
  }

  /** A comparison was made after its code was issued, before it expired and before the next one was issued. */
  ghost predicate LoggedWhileCurrent(codes: seq<Code>, c: Comparison) {
    && c.code < |codes| && codes[c.code].created <= c.at < codes[c.code].expires
    && forall j :: c.code < j < |codes| ==> c.at <= codes[j].created
  }

  ghost predicate LogOk(codes: seq<Code>, log: seq<Comparison>, now: int) {
    forall k :: 0 <= k < |log| ==> log[k].at <= now && LoggedWhileCurrent(codes, log[k])
  }

  ghost predicate CountsOk(l: Limits, codes: seq<Code>, log: seq<Comparison>) {
    forall i :: 0 <= i < |codes| ==>
      ComparisonsOf(log, i) <= codes[i].attempts && ComparisonsOf(log, i) <= l.maxAttempts
  }

  ghost predicate Inv(l: Limits, s: Codes, now: int) {
    CodesOk(l, s.codes, now) && LogOk(s.codes, s.compared, now) && CountsOk(l, s.codes, s.compared)
  }

  lemma {:induction false} RecentAreCounted(codes: seq<Code>, start: int, from: nat)
    requires from <= |codes|
    requires forall i :: from <= i < |codes| ==> codes[i].created >= start
    ensures IssuedSince(codes, start) >= |codes| - from
    decreases |codes|
  {
    if from < |codes| {
      RecentAreCounted(codes[..|codes| - 1], start, from);
    }
  }

  lemma IssueKeepsCodesOk(l: Limits, codes: seq<Code>, before: int, now: int)
    requires CodesOk(l, codes, before) && before <= now
    requires IssuedSince(codes, now - l.codeTtl) < l.maxIssued
    ensures CodesOk(l, Voided(codes) + [Code(now, now + l.codeTtl, false, 0)], now)
  {
    var n := |codes|;
    var codes' := Voided(codes) + [Code(now, now + l.codeTtl, false, 0)];
    forall i, j | 0 <= i < j < |codes'|
      ensures PairOk(l, codes', i, j)
    {
      if j < n {
        assert PairOk(l, codes, i, j);
      } else if n - i >= l.maxIssued && codes[i].created >= now - l.codeTtl {
        forall k | i <= k < n
          ensures codes[k].created >= now - l.codeTtl
        {
          assert i < k ==> PairOk(l, codes, i, k);
        }
        RecentAreCounted(codes, now - l.codeTtl, i);
      }
    }
  }

  lemma {:induction false} NoComparisonsYet(log: seq<Comparison>, code: nat)
    requires forall k :: 0 <= k < |log| ==> log[k].code != code
    ensures ComparisonsOf(log, code) == 0
  {
    if log != [] {
      NoComparisonsYet(log[..|log| - 1], code);
    }
  }

  /** The log stays right when codes are issued later or existing rows change other than in time. */
  lemma LogStays(codes: seq<Code>, codes': seq<Code>, log: seq<Comparison>, before: int, now: int)
    requires LogOk(codes, log, before) && before <= now && |codes| <= |codes'|
    requires forall i :: 0 <= i < |codes| ==>
      && codes'[i].created == codes[i].created
      && codes'[i].expires == codes[i].expires
    requires forall i :: |codes| <= i < |codes'| ==> codes'[i].created >= now
    ensures LogOk(codes', log, now)
  {
    forall k | 0 <= k < |log|
      ensures log[k].at <= now && LoggedWhileCurrent(codes', log[k])
    {
      assert log[k].at <= before && LoggedWhileCurrent(codes, log[k]);
    }
  }

  lemma RequestKeepsInv(l: Limits, s: Codes, before: int, now: int)
    requires Inv(l, s, before) && before <= now
    ensures Inv(l, Requested(l, s, now), now)
  {
    var s' := Requested(l, s, now);
    LogStays(s.codes, s'.codes, s.compared, before, now);
    if IssuedSince(s.codes, now - l.codeTtl) < l.maxIssued {
      IssueKeepsCodesOk(l, s.codes, before, now);
      IssueKeepsCounts(l, s.codes, s.compared, before, Code(now, now + l.codeTtl, false, 0));
    }
  }

  lemma IssueKeepsCounts(l: Limits, codes: seq<Code>, log: seq<Comparison>, now: int, newest: Code)
    requires CountsOk(l, codes, log) && LogOk(codes, log, now)
    ensures CountsOk(l, Voided(codes) + [newest], log)
  {
    assert forall k :: 0 <= k < |log| ==> log[k].at <= now && LoggedWhileCurrent(codes, log[k]);
    NoComparisonsYet(log, |codes|);
  }

  lemma CountsStay(l: Limits, codes: seq<Code>, log: seq<Comparison>, i: nat, spent: Code, at: int)
    requires CountsOk(l, codes, log) && i < |codes| && spent.attempts == codes[i].attempts + 1
    ensures CountsOk(l, codes[i := spent], log)
    ensures spent.attempts <= l.maxAttempts && ComparisonsOf(log, i) < spent.attempts ==>
            CountsOk(l, codes[i := spent], log + [Comparison(at, i)])
  {
    assert (log + [Comparison(at, i)])[..|log|] == log;
  }

  lemma VerifyKeepsInv(l: Limits, s: Codes, before: int, now: int, correct: bool)
    requires Inv(l, s, before) && before <= now
    ensures Inv(l, Verified(l, s, now, correct), now)
  {
    var s' := Verified(l, s, now, correct);
    LogStays(s.codes, s'.codes, s.compared, before, now);
    var c := Candidate(s.codes, now);
    if c.Some? {
      var last := |s.codes| - 1;
      assert c.value < last ==> PairOk(l, s.codes, c.value, last);
      forall i, j | 0 <= i < j < |s'.codes|
        ensures PairOk(l, s'.codes, i, j)
      {
        assert PairOk(l, s.codes, i, j);
      }
      CountsStay(l, s.codes, s.compared, c.value, s'.codes[c.value], now);
    }
  }

  lemma {:induction false} ReachableInv(l: Limits, ops: seq<Op>, now: int)
    requires ClockForward(ops) && (ops != [] ==> ops[|ops| - 1].now <= now)
    ensures Inv(l, Run(l, ops), now)
    decreases |ops|
  {
    if ops != [] {
      var n := |ops| - 1;
      ReachableInv(l, ops[..n], ops[n].now);
      match ops[n] {
        case RequestCode(at) => RequestKeepsInv(l, Run(l, ops[..n]), at, at);
        case VerifyCode(at, correct) => VerifyKeepsInv(l, Run(l, ops[..n]), at, at, correct);
      }
      LogStays(Run(l, ops).codes, Run(l, ops).codes, Run(l, ops).compared, ops[n].now, now);
    }
  }

  // ---------------------------------------------------------------------------------------
  // Which guesses succeed
  // ---------------------------------------------------------------------------------------

  /** Code i is the newest one unused and unexpired. */
  ghost predicate IsCurrent(codes: seq<Code>, i: nat, now: int) {
    && i < |codes| && !codes[i].used && codes[i].expires > now
    && forall j :: i < j < |codes| ==> codes[j].used || codes[j].expires <= now
  }

  lemma {:induction false} CandidateIsCurrent(codes: seq<Code>, now: int)
    ensures forall i: nat :: IsCurrent(codes, i, now) <==> Candidate(codes, now) == Some(i)
    decreases |codes|
  {
    if codes != [] {
      var n := |codes| - 1;
      CandidateIsCurrent(codes[..n], now);
      forall i: nat
        ensures IsCurrent(codes, i, now) <==> Candidate(codes, now) == Some(i)
      {
        assert IsCurrent(codes[..n], i, now) <==> Candidate(codes[..n], now) == Some(i);
      }
    }
  }

  /** A guess is compared with the current code if its attempts are not used up. */
  ghost predicate Compares(l: Limits, s: Codes, now: int, i: nat) {
    IsCurrent(s.codes, i, now) && s.codes[i].attempts < l.maxAttempts
  }

  /**
   What a guess does: at the current code it spends an attempt, is compared if one was left, and uses the code up
   exactly if it was compared and right. No other code moves.
   */
  lemma VerifyExactly(l: Limits, s: Codes, now: int, correct: bool)
    ensures var s' := Step(l, s, VerifyCode(now, correct));
            && ((forall i: nat :: !IsCurrent(s.codes, i, now)) ==> s' == s)
            && (forall i: nat :: IsCurrent(s.codes, i, now) ==>
                  && s'.codes == s.codes[i := Code(s.codes[i].created, s.codes[i].expires,
                                                   correct && Compares(l, s, now, i), s.codes[i].attempts + 1)]
                  && s'.compared == s.compared + if Compares(l, s, now, i) then [Comparison(now, i)] else [])
  {
    CandidateIsCurrent(s.codes, now);
    var c := Candidate(s.codes, now);
    if c.Some? {
      assert IsCurrent(s.codes, c.value, now);
    }
  }

  /** Used up: the code exists and no guess will be compared with it. */
  ghost predicate UsedUp(s: Codes, i: nat) {
    i < |s.codes| && s.codes[i].used
  }

  /** Guesses were added to the log, none of them at code i. */
  ghost predicate NoneAt(was: seq<Comparison>, now: seq<Comparison>, i: nat) {
    was <= now && forall k :: |was| <= k < |now| ==> now[k].code != i
  }

  lemma StaysUsed(l: Limits, s: Codes, op: Op, i: nat)
    requires UsedUp(s, i)
    ensures UsedUp(Step(l, s, op), i) && NoneAt(s.compared, Step(l, s, op).compared, i)
  {
  }

  lemma NoneAtAll(was: seq<Comparison>, mid: seq<Comparison>, now: seq<Comparison>, i: nat)
    requires NoneAt(was, mid, i) && NoneAt(mid, now, i)
    ensures NoneAt(was, now, i)
  {
  }

  /** A code that logged in, or that a newer one replaced, is never compared with a guess again. */
  lemma {:induction false} CodeWorksOnce(l: Limits, before: seq<Op>, more: seq<Op>, i: nat)
    requires UsedUp(Run(l, before), i)
    ensures UsedUp(Run(l, before + more), i)
    ensures NoneAt(Run(l, before).compared, Run(l, before + more).compared, i)
    decreases |more|
  {
    if more == [] {
      assert before + more == before;
    } else {
      var n := |more| - 1;
      CodeWorksOnce(l, before, more[..n], i);
      var mid := Run(l, before + more[..n]);
      assert before + more == before + more[..n] + [more[n]];
      RunSnoc(l, before + more[..n], more[n]);
      StaysUsed(l, mid, more[n], i);
      NoneAtAll(Run(l, before).compared, mid.compared, Run(l, before + more).compared, i);
    }
  }

  /** What asking for a code does: nothing at the window's cap; otherwise it voids every code and issues one. */
  lemma RequestExactly(l: Limits, s: Codes, now: int)
    ensures var s', recent := Step(l, s, RequestCode(now)),
                              set i | 0 <= i < |s.codes| && s.codes[i].created >= now - l.codeTtl;
            && s'.compared == s.compared
            && (|recent| >= l.maxIssued ==> s' == s)
            && (|recent| < l.maxIssued ==>
                  && |s'.codes| == |s.codes| + 1
                  && s'.codes[|s.codes|] == Code(now, now + l.codeTtl, false, 0)
                  && forall i :: 0 <= i < |s.codes| ==>
                       UsedUp(s', i) && s'.codes[i].(used := s.codes[i].used) == s.codes[i])
  {
    IssuedIsCount(s.codes, now - l.codeTtl);
  }

  lemma {:induction false} IssuedIsCount(codes: seq<Code>, start: int)
    ensures IssuedSince(codes, start) == |set i | 0 <= i < |codes| && codes[i].created >= start|
    decreases |codes|
  {
    if codes != [] {
      var n := |codes| - 1;
      IssuedIsCount(codes[..n], start);
      var fewer := set i | 0 <= i < n && codes[..n][i].created >= start;
      var all := set i | 0 <= i < |codes| && codes[i].created >= start;
      assert all == fewer + if codes[n].created >= start then {n} else {};
      assert n !in fewer;
    }
  }

  // ---------------------------------------------------------------------------------------
  // The guess budget
  // ---------------------------------------------------------------------------------------

  /** Codes issued in the closed window [start, start + ttl]. */
  function IssuedIn(l: Limits, codes: seq<Code>, start: int): set<nat> {
    set i: nat | i < |codes| && start <= codes[i].created <= start + l.codeTtl
  }

  lemma {:induction false} SizeOfRange(s: set<nat>, lo: nat, hi: nat)
    requires forall i :: i in s ==> lo <= i < hi
    ensures |s| <= if lo <= hi then hi - lo else 0
    decreases hi
  {
    if lo < hi {
      SizeOfRange(s - {hi - 1}, lo, hi - 1);
      assert hi - 1 in s ==> |s - {hi - 1}| == |s| - 1;
      assert hi - 1 !in s ==> s - {hi - 1} == s;
    } else {
      assert s == {};
    }
  }

  /** Issuance cap: no window of one code lifetime ever sees more than maxIssued codes. */
  lemma IssuedWithinCap(l: Limits, codes: seq<Code>, now: int, start: int)
    requires CodesOk(l, codes, now)
    ensures |IssuedIn(l, codes, start)| <= l.maxIssued
  {
    var window := IssuedIn(l, codes, start);
    if window != {} {
      var lo := Least(window);
      forall i | i in window
        ensures lo <= i < lo + l.maxIssued
      {
        assert lo < i ==> PairOk(l, codes, lo, i);
      }
      SizeOfRange(window, lo, lo + l.maxIssued);
    }
  }

  lemma Least(s: set<nat>) returns (lo: nat)
    requires s != {}
    ensures lo in s && forall i :: i in s ==> lo <= i
  {
    var pick :| pick in s;
    lo := pick;
    var smaller := set i | i in s && i < pick;
    assert forall i :: i in s && i !in smaller ==> pick <= i;
    if smaller != {} {
      assert pick !in smaller;
      lo := Least(smaller);
    }
  }

  /** Comparisons in [start, end] on codes from a given set. */
  function ComparedIn(log: seq<Comparison>, start: int, end: int, codes: set<nat>): nat {
    if log == [] then 0
    else
      var c := log[|log| - 1];
      ComparedIn(log[..|log| - 1], start, end, codes) + if start <= c.at <= end && c.code in codes then 1 else 0
  }

  /** All comparisons in [start, end]. */
  function Guesses(log: seq<Comparison>, start: int, end: int): nat {
    if log == [] then 0
    else Guesses(log[..|log| - 1], start, end) + if start <= log[|log| - 1].at <= end then 1 else 0
  }

  lemma {:induction false} GuessesAreOnCodes(log: seq<Comparison>, start: int, end: int, codes: set<nat>)
    requires forall k :: 0 <= k < |log| && start <= log[k].at <= end ==> log[k].code in codes
    ensures Guesses(log, start, end) == ComparedIn(log, start, end, codes)
  {
    if log != [] {
      GuessesAreOnCodes(log[..|log| - 1], start, end, codes);
    }
  }

  lemma {:induction false} DropOneCode(log: seq<Comparison>, start: int, end: int, codes: set<nat>, c: nat)
    ensures ComparedIn(log, start, end, codes) <= ComparedIn(log, start, end, codes - {c}) + ComparisonsOf(log, c)
  {
    if log != [] {
      DropOneCode(log[..|log| - 1], start, end, codes, c);
    }
  }

  lemma {:induction false} NoCodesNoGuesses(log: seq<Comparison>, start: int, end: int)
    ensures ComparedIn(log, start, end, {}) == 0
  {
    if log != [] {
      NoCodesNoGuesses(log[..|log| - 1], start, end);
    }
  }

  lemma {:induction false} PerCodeBudget(log: seq<Comparison>, start: int, end: int, codes: set<nat>, each: nat)
    requires forall c :: c in codes ==> ComparisonsOf(log, c) <= each
    ensures ComparedIn(log, start, end, codes) <= |codes| * each
    decreases |codes|
  {
    if codes == {} {
      NoCodesNoGuesses(log, start, end);
    } else {
      var c :| c in codes;
      DropOneCode(log, start, end, codes, c);
      PerCodeBudget(log, start, end, codes - {c}, each);
      assert |codes - {c}| == |codes| - 1;
      assert (|codes| - 1) * each + each == |codes| * each;
    }
  }

  /** The code that was current just before a moment: the last one issued earlier. */
  function CurrentAt(codes: seq<Code>, start: int): (r: Option<nat>)
    ensures r.Some? ==> r.value < |codes| && codes[r.value].created < start
    ensures forall i :: 0 <= i < |codes| && (r.None? || i > r.value) ==> codes[i].created >= start
  {
    if codes == [] then None
    else
      var n := |codes| - 1;
      if codes[n].created < start then Some(n) else CurrentAt(codes[..n], start)
  }

  /** The codes a window's comparisons can be about: those issued in it, and the one current when it began. */
  function CurrentOrIssued(l: Limits, codes: seq<Code>, start: int): set<nat> {
    var c := CurrentAt(codes, start);
    IssuedIn(l, codes, start) + if c.Some? then {c.value} else {}
  }

  lemma GuessedCode(l: Limits, codes: seq<Code>, c: Comparison, start: int)
    requires LoggedWhileCurrent(codes, c) && start <= c.at <= start + l.codeTtl
    ensures c.code in CurrentOrIssued(l, codes, start)
  {
  }

  /**
   Guess budget: with a clock that never runs back, a user never has two unused codes, no window of one
   code lifetime issues more than maxIssued codes, and none sees more than (maxIssued + 1) * maxAttempts
   guesses compared with a code.
   */
  lemma GuessBudget(l: Limits, ops: seq<Op>, start: int)
    requires ClockForward(ops)
    ensures var s := Run(l, ops);
            && (forall i, j :: 0 <= i < j < |s.codes| ==> s.codes[i].used || s.codes[j].used)
            && |IssuedIn(l, s.codes, start)| <= l.maxIssued
            && Guesses(s.compared, start, start + l.codeTtl) <= (l.maxIssued + 1) * l.maxAttempts
  {
    var now := if ops == [] then 0 else ops[|ops| - 1].now;
    ReachableInv(l, ops, now);
    var codes := Run(l, ops).codes;
    forall i, j | 0 <= i < j < |codes|
      ensures codes[i].used || codes[j].used
    {
      assert PairOk(l, codes, i, j);
    }
    IssuedWithinCap(l, codes, now, start);
    WindowGuesses(l, Run(l, ops), now, start);
  }

  lemma WindowGuesses(l: Limits, s: Codes, now: int, start: int)
    requires Inv(l, s, now)
    ensures Guesses(s.compared, start, start + l.codeTtl) <= (l.maxIssued + 1) * l.maxAttempts
  {
    var codes := CurrentOrIssued(l, s.codes, start);
    IssuedWithinCap(l, s.codes, now, start);
    forall k | 0 <= k < |s.compared| && start <= s.compared[k].at <= start + l.codeTtl
      ensures s.compared[k].code in codes
    {
      GuessedCode(l, s.codes, s.compared[k], start);
    }
    GuessesOnCodes(l, s, now, start, codes);
    Monotone(|codes|, l.maxIssued + 1, l.maxAttempts);
  }

  lemma GuessesOnCodes(l: Limits, s: Codes, now: int, start: int, codes: set<nat>)
    requires Inv(l, s, now) && forall c :: c in codes ==> c < |s.codes|
    requires forall k :: 0 <= k < |s.compared| && start <= s.compared[k].at <= start + l.codeTtl ==>
      s.compared[k].code in codes
    ensures Guesses(s.compared, start, start + l.codeTtl) <= |codes| * l.maxAttempts
  {
    GuessesAreOnCodes(s.compared, start, start + l.codeTtl, codes);
    PerCodeBudget(s.compared, start, start + l.codeTtl, codes, l.maxAttempts);
  }

  lemma Monotone(a: nat, b: nat, each: nat)
    requires a <= b
    ensures a * each <= b * each
  {
    assert b * each == a * each + (b - a) * each;
  }

  // ---------------------------------------------------------------------------------------
  // The documented budget
  // ---------------------------------------------------------------------------------------

  /** The budget the comment beside MAX_ISSUED_PER_WINDOW promises: no code carried into the window. */
  ghost predicate WithinDocumentedBudget(l: Limits, ops: seq<Op>, start: int) {
    Guesses(Run(l, ops).compared, start, start + l.codeTtl) <= l.maxIssued * l.maxAttempts
  }

  /** An unused code that may still be guessed at. */
  ghost predicate Open(s: Codes, now: int) {
    s.codes != [] && !s.codes[|s.codes| - 1].used && s.codes[|s.codes| - 1].expires > now
  }

  /** Wrong guesses at one moment, `k` of them, after `ops`. */
  function Tries(ops: seq<Op>, now: int, k: nat): seq<Op> {
    if k == 0 then ops else Tries(ops, now, k - 1) + [VerifyCode(now, false)]
  }

  lemma RunSnoc(l: Limits, ops: seq<Op>, op: Op)
    ensures Run(l, ops + [op]) == Step(l, Run(l, ops), op)
  {
    assert (ops + [op])[..|ops|] == ops;
  }

  lemma GuessesSnoc(log: seq<Comparison>, c: Comparison, start: int, end: int)
    ensures Guesses(log + [c], start, end) == Guesses(log, start, end) + if start <= c.at <= end then 1 else 0
  {
    assert (log + [c])[..|log|] == log;
  }

  /** A wrong guess at an open code with attempts left is compared, and the code stays open. */
  lemma WrongGuess(l: Limits, s: Codes, now: int)
    requires Open(s, now) && s.codes[|s.codes| - 1].attempts < l.maxAttempts
    ensures var n := |s.codes| - 1;
            var s' := Verified(l, s, now, false);
            && s'.codes == s.codes[n := s.codes[n].(attempts := s.codes[n].attempts + 1)]
            && s'.compared == s.compared + [Comparison(now, n)]
  {
  }

  lemma {:induction false} AllTriesCount(l: Limits, ops: seq<Op>, now: int, k: nat, start: int, end: int)
    requires k <= l.maxAttempts && start <= now <= end
    requires Open(Run(l, ops), now) && Run(l, ops).codes[|Run(l, ops).codes| - 1].attempts == 0
    ensures Tried(Run(l, ops), Run(l, Tries(ops, now, k)), k, start, end)
    decreases k
  {
    if k > 0 {
      var before := Tries(ops, now, k - 1);
      AllTriesCount(l, ops, now, k - 1, start, end);
      TriedOnce(l, Run(l, ops), Run(l, before), k - 1, now, start, end);
      RunSnoc(l, before, VerifyCode(now, false));
      assert Tries(ops, now, k) == before + [VerifyCode(now, false)];
    }
  }

  /** After `k` more comparisons in the window, all at the newest code of `s`. */
  ghost predicate Tried(s: Codes, s': Codes, k: nat, start: int, end: int) {
    && s.codes != [] && |s'.codes| == |s.codes|
    && (forall i :: 0 <= i < |s.codes| - 1 ==> s'.codes[i] == s.codes[i])
    && s'.codes[|s.codes| - 1] == s.codes[|s.codes| - 1].(attempts := k)
    && Guesses(s'.compared, start, end) == Guesses(s.compared, start, end) + k
  }

  lemma TriedOnce(l: Limits, s: Codes, mid: Codes, k: nat, now: int, start: int, end: int)
    requires Tried(s, mid, k, start, end) && Open(s, now) && k < l.maxAttempts && start <= now <= end
    ensures Tried(s, Verified(l, mid, now, false), k + 1, start, end)
  {
    WrongGuess(l, mid, now);
    GuessesSnoc(mid.compared, Comparison(now, |mid.codes| - 1), start, end);
  }

  /** One code issued at 0 and guessed at from 1 on, then `n` codes one lifetime later, each guessed at to the limit. */
  function Spree(l: Limits, n: nat): seq<Op> {
    if n == 0 then Tries([RequestCode(0)], 1, l.maxAttempts)
    else Tries(Spree(l, n - 1) + [RequestCode(l.codeTtl + 1)], l.codeTtl + 1, l.maxAttempts)
  }

  lemma {:induction false} SpreeClock(ops: seq<Op>, now: int, k: nat)
    requires ClockForward(ops) && forall i :: 0 <= i < |ops| ==> ops[i].now <= now
    ensures ClockForward(Tries(ops, now, k)) && forall i :: 0 <= i < |Tries(ops, now, k)| ==>
      Tries(ops, now, k)[i].now <= now
    decreases k
  {
    if k > 0 {
      SpreeClock(ops, now, k - 1);
    }
  }

  lemma {:induction false} SpreeForward(l: Limits, n: nat)
    requires l.codeTtl >= 0
    ensures ClockForward(Spree(l, n)) && forall i :: 0 <= i < |Spree(l, n)| ==> Spree(l, n)[i].now <= l.codeTtl + 1
  {
    if n == 0 {
      SpreeClock([RequestCode(0)], 1, l.maxAttempts);
    } else {
      SpreeForward(l, n - 1);
      SpreeClock(Spree(l, n - 1) + [RequestCode(l.codeTtl + 1)], l.codeTtl + 1, l.maxAttempts);
    }
  }

  /** The first code was issued at 0, the others at `later`. */
  ghost predicate IssuedLater(codes: seq<Code>, later: int) {
    codes != [] && codes[0].created == 0 && forall i :: 0 < i < |codes| ==> codes[i].created == later
  }

  lemma {:induction false} LaterAreCounted(codes: seq<Code>, later: int)
    requires IssuedLater(codes, later) && later >= 1
    ensures IssuedSince(codes, 1) == |codes| - 1
    decreases |codes|
  {
    if |codes| == 1 {
      assert codes[..0] == [];
    } else {
      LaterAreCounted(codes[..|codes| - 1], later);
    }
  }

  lemma IssueOpens(l: Limits, s: Codes, now: int)
    requires IssuedSince(s.codes, now - l.codeTtl) < l.maxIssued && l.codeTtl > 1
    ensures var s' := Requested(l, s, now);
            && Open(s', now) && Open(s', now + 1) && |s'.codes| == |s.codes| + 1
            && s'.codes[|s.codes|] == Code(now, now + l.codeTtl, false, 0)
            && s'.compared == s.compared && forall i :: 0 <= i < |s.codes| ==> s'.codes[i].created == s.codes[i].created
  {
  }

  /** One early code and `n` later ones, with `g` guesses in the window that starts at 1. */
  ghost predicate SpreeAt(l: Limits, s: Codes, n: nat, g: nat) {
    |s.codes| == n + 1 && IssuedLater(s.codes, l.codeTtl + 1) && Guesses(s.compared, 1, 1 + l.codeTtl) == g
  }

  lemma SpreeStarts(l: Limits)
    requires l.codeTtl > 1 && 0 < l.maxIssued
    ensures SpreeAt(l, Run(l, Spree(l, 0)), 0, l.maxAttempts)
  {
    RunSnoc(l, [], RequestCode(0));
    assert [] + [RequestCode(0)] == [RequestCode(0)];
    IssueOpens(l, Run(l, []), 0);
    AllTriesCount(l, [RequestCode(0)], 1, l.maxAttempts, 1, 1 + l.codeTtl);
  }

  lemma SpreeGoesOn(l: Limits, ops: seq<Op>, n: nat, g: nat)
    requires l.codeTtl > 1 && n < l.maxIssued && SpreeAt(l, Run(l, ops), n, g)
    ensures var later := l.codeTtl + 1;
            SpreeAt(l, Run(l, Tries(ops + [RequestCode(later)], later, l.maxAttempts)), n + 1, g + l.maxAttempts)
  {
    var later := l.codeTtl + 1;
    var ops' := ops + [RequestCode(later)];
    RunSnoc(l, ops, RequestCode(later));
    IssueKeepsSpree(l, Run(l, ops), n, g);
    AllTriesCount(l, ops', later, l.maxAttempts, 1, 1 + l.codeTtl);
    TriesKeepSpree(l, Run(l, ops'), Run(l, Tries(ops', later, l.maxAttempts)), n + 1, g, l.maxAttempts);
  }

  lemma IssueKeepsSpree(l: Limits, s: Codes, n: nat, g: nat)
    requires l.codeTtl > 1 && n < l.maxIssued && SpreeAt(l, s, n, g)
    ensures var s' := Requested(l, s, l.codeTtl + 1);
            SpreeAt(l, s', n + 1, g) && Open(s', l.codeTtl + 1) && s'.codes[n + 1].attempts == 0
  {
    LaterAreCounted(s.codes, l.codeTtl + 1);
    IssueOpens(l, s, l.codeTtl + 1);
  }

  lemma TriesKeepSpree(l: Limits, s: Codes, s': Codes, n: nat, g: nat, k: nat)
    requires SpreeAt(l, s, n, g) && Tried(s, s', k, 1, 1 + l.codeTtl)
    ensures SpreeAt(l, s', n, g + k)
  {
  }

  lemma {:induction false} SpreeReaches(l: Limits, n: nat)
    requires l.codeTtl > 1 && 0 < l.maxIssued && n <= l.maxIssued
    ensures SpreeAt(l, Run(l, Spree(l, n)), n, (n + 1) * l.maxAttempts)
  {
    if n == 0 {
      SpreeStarts(l);
    } else {
      SpreeReaches(l, n - 1);
      SpreeGoesOn(l, Spree(l, n - 1), n - 1, n * l.maxAttempts);
      OneMoreTime(n, l.maxAttempts);
    }
  }

  lemma OneMoreTime(n: nat, each: nat)
    ensures (n + 1) * each == n * each + each
  {
  }

  /** Under any other limits there is a run and a window that exceed it, by one code's attempts. */
  lemma BudgetExceeded(l: Limits)
    requires l.maxAttempts > 0 && l.maxIssued > 0 && l.codeTtl > 1
    ensures ClockForward(Spree(l, l.maxIssued))
    ensures Guesses(Run(l, Spree(l, l.maxIssued)).compared, 1, 1 + l.codeTtl) == (l.maxIssued + 1) * l.maxAttempts
    ensures !WithinDocumentedBudget(l, Spree(l, l.maxIssued), 1)
  {
    SpreeForward(l, l.maxIssued);
    SpreeReaches(l, l.maxIssued);
    OneMoreTime(l.maxIssued, l.maxAttempts);
  }

  /** When codes expire at once or none are issued, every guess in a window is at a code issued in it. */
  lemma NothingCarriedOver(l: Limits, ops: seq<Op>, start: int)
    requires ClockForward(ops) && (l.codeTtl <= 1 || l.maxIssued == 0)
    ensures WithinDocumentedBudget(l, ops, start)
  {
    var now := if ops == [] then 0 else ops[|ops| - 1].now;
    ReachableInv(l, ops, now);
    var s := Run(l, ops);
    IssuedWithinCap(l, s.codes, now, start);
    forall k | 0 <= k < |s.compared| && start <= s.compared[k].at <= start + l.codeTtl
      ensures s.compared[k].code in IssuedIn(l, s.codes, start)
    {
      assert LoggedWhileCurrent(s.codes, s.compared[k]);
    }
    GuessesOnCodes(l, s, now, start, IssuedIn(l, s.codes, start));
    Monotone(|IssuedIn(l, s.codes, start)|, l.maxIssued, l.maxAttempts);
  }

  /**
   The documented budget of maxIssued * maxAttempts holds of every run and window exactly for the degenerate
   limits: no attempts, no codes, or codes that expire at once. Otherwise a code issued just before the window
   is guessed at inside it, and the budget of GuessBudget is reached.
   */
  lemma DocumentedBudgetExactly(l: Limits)
    ensures (forall ops, start :: ClockForward(ops) ==> WithinDocumentedBudget(l, ops, start)) <==>
            l.maxAttempts == 0 || l.maxIssued == 0 || l.codeTtl <= 1
  {
    if l.maxAttempts > 0 && l.maxIssued > 0 && l.codeTtl > 1 {
      BudgetExceeded(l);
    } else {
      forall ops, start | ClockForward(ops)
        ensures WithinDocumentedBudget(l, ops, start)
      {
        if l.maxAttempts == 0 {
          GuessBudget(l, ops, start);
        } else {
          NothingCarriedOver(l, ops, start);
        }
      }
    }
  }

  // ---------------------------------------------------------------------------------------
  // Passwords
  // ---------------------------------------------------------------------------------------

  datatype Account = Account(hasPassword: bool, failed: nat, lockedUntil: Option<int>)

  /** What a login attempt came to; only Wrong and Success actually checked a password. */
  datatype Attempt = NoPassword | Locked | Wrong | Success

  function LoginPassword(l: Limits, a: Account, now: int, correct: bool): (Account, Attempt) {
    if !a.hasPassword then (a, NoPassword)
    else if a.lockedUntil.Some? && a.lockedUntil.value > now then (a, Locked)
    else if correct then (a.(failed := 0, lockedUntil := None), Success)
    else if a.failed + 1 >= l.lockoutThreshold then (a.(failed := 0, lockedUntil := Some(now + l.lockout)), Wrong)
    else (a.(failed := a.failed + 1), Wrong)
  }

  /** Login attempts, and password resets in between. */
  datatype PasswordOp = Try(now: int, correct: bool) | Reset(now: int)

  function PasswordStep(l: Limits, a: Account, op: PasswordOp): (Account, Option<Attempt>) {
    match op
    case Try(now, correct) => var (a', r) := LoginPassword(l, a, now, correct); (a', Some(r))
    case Reset(_) => (Account(true, 0, None), None)
  }

  function PasswordRun(l: Limits, a: Account, ops: seq<PasswordOp>): Account
    decreases |ops|
  {
    if ops == [] then a else PasswordRun(l, PasswordStep(l, a, ops[0]).0, ops[1..])
  }

  function WrongChecks(l: Limits, a: Account, ops: seq<PasswordOp>): nat
    decreases |ops|
  {
    if ops == [] then 0
    else
      (if PasswordStep(l, a, ops[0]).1 == Some(Wrong) then 1 else 0)
      + WrongChecks(l, PasswordStep(l, a, ops[0]).0, ops[1..])
  }

  /** Neither a successful login nor a reset happens. */
  ghost predicate OnlyFailures(l: Limits, a: Account, ops: seq<PasswordOp>)
    decreases |ops|
  {
    ops != [] ==>
      && ops[0].Try? && PasswordStep(l, a, ops[0]).1 != Some(Success)
      && OnlyFailures(l, PasswordStep(l, a, ops[0]).0, ops[1..])
  }

  ghost predicate Within(ops: seq<PasswordOp>, start: int, end: int) {
    forall i :: 0 <= i < |ops| ==> start <= ops[i].now < end
  }

  lemma {:induction false} LockedOut(l: Limits, a: Account, ops: seq<PasswordOp>, start: int, end: int)
    requires Within(ops, start, end) && OnlyFailures(l, a, ops)
    requires a.lockedUntil.Some? && a.lockedUntil.value >= end
    ensures WrongChecks(l, a, ops) == 0
    decreases |ops|
  {
    if ops != [] {
      LockedOut(l, PasswordStep(l, a, ops[0]).0, ops[1..], start, end);
    }
  }

  /** From any account state, a half-open window as long as a lockout. */
  lemma {:induction false} WindowBound(l: Limits, a: Account, ops: seq<PasswordOp>, start: int)
    requires Sensible(l) && a.failed < l.lockoutThreshold
    requires Within(ops, start, start + l.lockout) && OnlyFailures(l, a, ops)
    ensures WrongChecks(l, a, ops) <= l.lockoutThreshold - a.failed
    decreases |ops|
  {
    if ops != [] {
      var (a', r) := PasswordStep(l, a, ops[0]);
      if r == Some(Wrong) && a.failed + 1 >= l.lockoutThreshold {
        LockedOut(l, a', ops[1..], start, start + l.lockout);
      } else {
        WindowBound(l, a', ops[1..], start);
      }
    }
  }

  lemma {:induction false} FailedBelowThreshold(l: Limits, a: Account, ops: seq<PasswordOp>)
    requires Sensible(l) && a.failed < l.lockoutThreshold
    ensures PasswordRun(l, a, ops).failed < l.lockoutThreshold
    decreases |ops|
  {
    if ops != [] {
      FailedBelowThreshold(l, PasswordStep(l, a, ops[0]).0, ops[1..]);
    }
  }

  /**
   Lockout: after any history, a half-open window of one lockout length with no success and no reset sees
   at most lockoutThreshold wrong password checks.
   */
  lemma LockoutBound(l: Limits, hasPassword: bool, before: seq<PasswordOp>, window: seq<PasswordOp>, start: int)
    requires Sensible(l)
    requires Within(window, start, start + l.lockout)
    requires OnlyFailures(l, PasswordRun(l, Account(hasPassword, 0, None), before), window)
    ensures WrongChecks(l, PasswordRun(l, Account(hasPassword, 0, None), before), window) <= l.lockoutThreshold
  {
    FailedBelowThreshold(l, Account(hasPassword, 0, None), before);
    WindowBound(l, PasswordRun(l, Account(hasPassword, 0, None), before), window, start);
  }

  // ---------------------------------------------------------------------------------------
  // What an attempt comes to
  // ---------------------------------------------------------------------------------------

  /** One thing that happened: a login attempt with its outcome, or (None) a password set anew. */
  datatype Happened = Happened(at: int, outcome: Option<Attempt>)

  /** What a run of operations came to. */
  function History(l: Limits, a: Account, ops: seq<PasswordOp>): (h: seq<Happened>)
    ensures |h| == |ops| && forall k :: 0 <= k < |h| ==> h[k].at == ops[k].now
    decreases |ops|
  {
    if ops == [] then []
    else
      var n := |ops| - 1;
      History(l, a, ops[..n]) + [Happened(ops[n].now, PasswordStep(l, PasswordRun(l, a, ops[..n]), ops[n]).1)]
  }

  /** Wrong passwords since the last success or new password. */
  function WrongSince(h: seq<Happened>): nat {
    if h == [] then 0
    else
      var rest := WrongSince(h[..|h| - 1]);
      match h[|h| - 1].outcome
      case None => 0
      case Some(Success) => 0
      case Some(Wrong) => rest + 1
      case Some(_) => rest
  }

  /** When the last lock ends: one begins each time the threshold is reached; success or a new password ends it. */
  function LockEnd(l: Limits, h: seq<Happened>): Option<int>
    requires l.lockoutThreshold > 0
  {
    if h == [] then None
    else
      var n := |h| - 1;
      match h[n].outcome
      case None => None
      case Some(Success) => None
      case Some(Wrong) =>
        if WrongSince(h) % l.lockoutThreshold == 0 then Some(h[n].at + l.lockout) else LockEnd(l, h[..n])
      case Some(_) => LockEnd(l, h[..n])
  }

  ghost predicate PasswordSet(hasPassword: bool, h: seq<Happened>) {
    hasPassword || exists k :: 0 <= k < |h| && h[k].outcome.None?
  }

  predicate LockedAt(l: Limits, h: seq<Happened>, now: int)
    requires l.lockoutThreshold > 0
  {
    LockEnd(l, h).Some? && LockEnd(l, h).value > now
  }

  /** The account holds what the history says. */
  ghost predicate Remembers(l: Limits, a: Account, hasPassword: bool, h: seq<Happened>)
    requires l.lockoutThreshold > 0
  {
    && (a.hasPassword <==> PasswordSet(hasPassword, h))
    && a.failed == WrongSince(h) % l.lockoutThreshold && a.lockedUntil == LockEnd(l, h)
  }

  lemma {:induction false} RunSplits(l: Limits, a: Account, ops: seq<PasswordOp>)
    requires ops != []
    ensures PasswordRun(l, a, ops) == PasswordStep(l, PasswordRun(l, a, ops[..|ops| - 1]), ops[|ops| - 1]).0
    decreases |ops|
  {
    var n := |ops| - 1;
    if n > 0 {
      RunSplits(l, PasswordStep(l, a, ops[0]).0, ops[1..]);
      assert ops[1..][..n - 1] == ops[..n][1..];
    }
  }

  lemma TimesAtLeast(k: int, m: int)
    requires m > 0 && k >= 1
    ensures k * m >= m
  {
  }

  lemma QuotientsMeet(m: int, q: int, r: int, q': int, r': int)
    requires 0 <= r < m && 0 <= r' < m && q * m + r == q' * m + r'
    ensures q == q' && r == r'
  {
    if q > q' {
      assert (q - q') * m == q * m - q' * m;
      TimesAtLeast(q - q', m);
    } else if q < q' {
      assert (q' - q) * m == q' * m - q * m;
      TimesAtLeast(q' - q, m);
    }
  }

  lemma RemainderIs(n: int, m: int, q: int, r: int)
    requires m > 0 && 0 <= r < m && n == q * m + r
    ensures n % m == r
  {
    assert n == (n / m) * m + n % m;
    QuotientsMeet(m, n / m, n % m, q, r);
  }

  lemma OneMoreWrong(n: nat, m: nat)
    requires m > 0
    ensures (n + 1) % m == if n % m + 1 == m then 0 else n % m + 1
  {
    var q, r := n / m, n % m;
    assert n == q * m + r;
    if r + 1 == m {
      assert (q + 1) * m == q * m + m;
      RemainderIs(n + 1, m, q + 1, 0);
    } else {
      RemainderIs(n + 1, m, q, r + 1);
    }
  }

  lemma PasswordSetLonger(hasPassword: bool, h: seq<Happened>, last: Happened)
    ensures PasswordSet(hasPassword, h + [last]) <==> PasswordSet(hasPassword, h) || last.outcome.None?
  {
    var longer := h + [last];
    if PasswordSet(hasPassword, h) && !hasPassword {
      var k :| 0 <= k < |h| && h[k].outcome.None?;
      assert longer[k] == h[k];
    }
    assert longer[|h|] == last;
  }

  lemma RemembersStep(l: Limits, a: Account, hasPassword: bool, h: seq<Happened>, op: PasswordOp)
    requires l.lockoutThreshold > 0 && Remembers(l, a, hasPassword, h)
    ensures var (a', r) := PasswordStep(l, a, op); Remembers(l, a', hasPassword, h + [Happened(op.now, r)])
  {
    var last := Happened(op.now, PasswordStep(l, a, op).1);
    PasswordSetLonger(hasPassword, h, last);
    HistorySnoc(l, h, last);
    if last.outcome == Some(Wrong) {
      OneMoreWrong(WrongSince(h), l.lockoutThreshold);
    } else {
      NothingLeft(l.lockoutThreshold);
    }
  }

  lemma NothingLeft(m: nat)
    requires m > 0
    ensures 0 % m == 0
  {
  }

  /** One step of the count and the lock. */
  lemma HistorySnoc(l: Limits, h: seq<Happened>, last: Happened)
    requires l.lockoutThreshold > 0
    ensures WrongSince(h + [last]) ==
            if last.outcome == None || last.outcome == Some(Success) then 0
            else if last.outcome == Some(Wrong) then WrongSince(h) + 1 else WrongSince(h)
    ensures LockEnd(l, h + [last]) ==
            if last.outcome == None || last.outcome == Some(Success) then None
            else if last.outcome == Some(Wrong) && WrongSince(h + [last]) % l.lockoutThreshold == 0
            then Some(last.at + l.lockout) else LockEnd(l, h)
  {
    assert (h + [last])[..|h|] == h;
  }

  lemma {:induction false} AccountRemembers(l: Limits, hasPassword: bool, ops: seq<PasswordOp>)
    requires l.lockoutThreshold > 0
    ensures var a := Account(hasPassword, 0, None);
            Remembers(l, PasswordRun(l, a, ops), hasPassword, History(l, a, ops))
    decreases |ops|
  {
    if ops != [] {
      var a, n := Account(hasPassword, 0, None), |ops| - 1;
      AccountRemembers(l, hasPassword, ops[..n]);
      RunSplits(l, a, ops);
      RemembersStep(l, PasswordRun(l, a, ops[..n]), hasPassword, History(l, a, ops[..n]), ops[n]);
    }
  }

  /**
   What every attempt of every run comes to, told from what happened before it: refused without a password, and
   while a lock lasts; otherwise a success exactly if the password is right.
   */
  ghost predicate AttemptDecided(l: Limits, hasPassword: bool, ops: seq<PasswordOp>, k: nat)
    requires l.lockoutThreshold > 0 && k < |ops|
  {
    var before := History(l, Account(hasPassword, 0, None), ops)[..k];
    var now, outcome := ops[k].now, History(l, Account(hasPassword, 0, None), ops)[k].outcome;
    if ops[k].Reset? then outcome.None?
    else
      && outcome.Some?
      && (outcome == Some(NoPassword) <==> !PasswordSet(hasPassword, before))
      && (outcome == Some(Locked) <==> PasswordSet(hasPassword, before) && LockedAt(l, before, now))
      && (outcome == Some(Wrong) <==>
            PasswordSet(hasPassword, before) && !LockedAt(l, before, now) && !ops[k].correct)
      && (outcome == Some(Success) <==>
            PasswordSet(hasPassword, before) && !LockedAt(l, before, now) && ops[k].correct)
  }

  lemma {:induction false} HistoryPrefix(l: Limits, a: Account, ops: seq<PasswordOp>, k: nat)
    requires k <= |ops|
    ensures History(l, a, ops)[..k] == History(l, a, ops[..k])
    decreases |ops|
  {
    if k < |ops| {
      HistoryPrefix(l, a, ops[..|ops| - 1], k);
      assert ops[..|ops| - 1][..k] == ops[..k];
    } else {
      assert ops[..k] == ops;
    }
  }

  lemma AttemptExactly(l: Limits, hasPassword: bool, ops: seq<PasswordOp>, k: nat)
    requires l.lockoutThreshold > 0 && k < |ops|
    ensures AttemptDecided(l, hasPassword, ops, k)
  {
    var a := Account(hasPassword, 0, None);
    HistoryPrefix(l, a, ops, k);
    HistoryPrefix(l, a, ops, k + 1);
    assert ops[..k + 1][..k] == ops[..k];
    assert History(l, a, ops)[k] == History(l, a, ops)[..k + 1][k];
    AccountRemembers(l, hasPassword, ops[..k]);
  }

  /** No password is set from here to there. */
  ghost predicate NoReset(ops: seq<PasswordOp>, from: nat, to: nat) {
    forall i :: from <= i < to && i < |ops| ==> ops[i].Try?
  }

  lemma {:induction false} LockStays(l: Limits, hasPassword: bool, ops: seq<PasswordOp>, k: nat, m: nat)
    requires l.lockoutThreshold > 0 && k < m <= |ops| && NoReset(ops, k, m)
    requires var h := History(l, Account(hasPassword, 0, None), ops);
             && h[k].outcome == Some(Wrong) && WrongSince(h[..k + 1]) % l.lockoutThreshold == 0
    requires forall i :: k < i < m ==> ops[i].now < ops[k].now + l.lockout
    ensures LockEnd(l, History(l, Account(hasPassword, 0, None), ops)[..m]) == Some(ops[k].now + l.lockout)
    ensures PasswordSet(hasPassword, History(l, Account(hasPassword, 0, None), ops)[..m])
    decreases m
  {
    var h := History(l, Account(hasPassword, 0, None), ops);
    AttemptExactly(l, hasPassword, ops, m - 1);
    if m > k + 1 {
      LockStays(l, hasPassword, ops, k, m - 1);
      LockGoesOn(l, hasPassword, h, m - 1);
    } else {
      LockBegins(l, hasPassword, h, k);
    }
  }

  lemma LockBegins(l: Limits, hasPassword: bool, h: seq<Happened>, k: nat)
    requires l.lockoutThreshold > 0 && k < |h| && h[k].outcome == Some(Wrong) && PasswordSet(hasPassword, h[..k])
    requires WrongSince(h[..k + 1]) % l.lockoutThreshold == 0
    ensures LockEnd(l, h[..k + 1]) == Some(h[k].at + l.lockout) && PasswordSet(hasPassword, h[..k + 1])
  {
    assert h[..k] + [h[k]] == h[..k + 1];
    PasswordSetLonger(hasPassword, h[..k], h[k]);
    HistorySnoc(l, h[..k], h[k]);
  }

  lemma LockGoesOn(l: Limits, hasPassword: bool, h: seq<Happened>, m: nat)
    requires l.lockoutThreshold > 0 && m < |h| && h[m].outcome == Some(Locked) && PasswordSet(hasPassword, h[..m])
    ensures LockEnd(l, h[..m + 1]) == LockEnd(l, h[..m]) && PasswordSet(hasPassword, h[..m + 1])
  {
    assert h[..m] + [h[m]] == h[..m + 1];
    PasswordSetLonger(hasPassword, h[..m], h[m]);
    HistorySnoc(l, h[..m], h[m]);
  }

  /**
   The lock is there: when the wrong passwords since the last success or new password reach the threshold, or a
   multiple of it, every later attempt before the lock's end is refused, with the right password too, unless a
   new password is set.
   */
  lemma LockHolds(l: Limits, hasPassword: bool, ops: seq<PasswordOp>, k: nat, m: nat)
    requires l.lockoutThreshold > 0 && k < m < |ops| && NoReset(ops, k, m + 1)
    requires var h := History(l, Account(hasPassword, 0, None), ops);
             && h[k].outcome == Some(Wrong) && WrongSince(h[..k + 1]) % l.lockoutThreshold == 0
    requires forall i :: k < i <= m ==> ops[i].now < ops[k].now + l.lockout
    ensures History(l, Account(hasPassword, 0, None), ops)[m].outcome == Some(Locked)
  {
    LockStays(l, hasPassword, ops, k, m);
    AttemptExactly(l, hasPassword, ops, m);
  }

  // ---------------------------------------------------------------------------------------
  // The service
  // ---------------------------------------------------------------------------------------

  class HumanAuth {
    const l: Limits
    var codes: seq<Code>
    var hasPassword: bool
    var failed: nat
    var lockedUntil: Option<int>
    ghost var compared: seq<Comparison>

    ghost function View(): Codes
      reads this
    {
      Codes(codes, compared)
    }

    ghost function Password(): Account
      reads this
    {
      Account(hasPassword, failed, lockedUntil)
    }

    constructor (l: Limits)
      ensures this.l == l && View() == Codes([], []) && Password() == Account(false, 0, None)
    {
      this.l := l;
      codes, compared, hasPassword, failed, lockedUntil := [], [], false, 0, None;
    }

    method RequestLoginCode(now: int) returns (issued: bool)
      modifies this`codes
      ensures View() == Step(l, old(View()), RequestCode(now))
      ensures issued <==> IssuedSince(old(codes), now - l.codeTtl) < l.maxIssued
    {
      var recent := 0;
      for i := 0 to |codes|
        invariant recent == IssuedSince(codes[..i], now - l.codeTtl)
      {
        assert codes[..i + 1][..i] == codes[..i];
        if codes[i].created >= now - l.codeTtl {
          recent := recent + 1;
        }
      }
      assert codes[..|codes|] == codes;
      if recent >= l.maxIssued {
        return false;
      }
      for i := 0 to |codes|
        invariant |codes| == |old(codes)|
        invariant forall k :: 0 <= k < i ==> codes[k] == old(codes)[k].(used := true)
        invariant forall k :: i <= k < |codes| ==> codes[k] == old(codes)[k]
      {
        if !codes[i].used {
          codes := codes[i := codes[i].(used := true)];
        }
      }
      assert codes == Voided(old(codes));
      codes := codes + [Code(now, now + l.codeTtl, false, 0)];
      return true;
    }

    method VerifyLoginCode(now: int, matches: bool) returns (ok: bool)
      modifies this`codes, this`compared
      ensures View() == Step(l, old(View()), VerifyCode(now, matches))
      ensures ok <==> matches && exists i: nat :: Compares(l, old(View()), now, i)
    {
      var candidate := Candidate(codes, now);
      CandidateIsCurrent(codes, now);
      assert candidate.Some? ==> (Compares(l, View(), now, candidate.value) <==>
                                  codes[candidate.value].attempts < l.maxAttempts);
      if candidate.None? {
        return false;
      }
      var i := candidate.value;
      codes := codes[i := codes[i].(attempts := codes[i].attempts + 1)];
      if codes[i].attempts > l.maxAttempts {
        return false;
      }
      compared := compared + [Comparison(now, i)];
      if !matches {
        assert codes[i].(used := false) == codes[i];
        return false;
      }
      codes := codes[i := codes[i].(used := true)];
      return true;
    }

    method TryPassword(now: int, matches: bool) returns (r: Attempt)
      modifies this`failed, this`lockedUntil
      ensures (Password(), r) == LoginPassword(l, old(Password()), now, matches)
      ensures var locked := old(lockedUntil).Some? && old(lockedUntil).value > now;
              && (r == NoPassword <==> !hasPassword)
              && (r == Locked <==> hasPassword && locked)
              && (r == Wrong <==> hasPassword && !locked && !matches)
              && (r == Success <==> hasPassword && !locked && matches)
      ensures r == NoPassword || r == Locked ==> failed == old(failed) && lockedUntil == old(lockedUntil)
      ensures r == Success ==> failed == 0 && lockedUntil == None
      ensures r == Wrong && old(failed) + 1 < l.lockoutThreshold ==>
        failed == old(failed) + 1 && lockedUntil == old(lockedUntil)
      ensures r == Wrong && old(failed) + 1 >= l.lockoutThreshold ==>
        failed == 0 && lockedUntil == Some(now + l.lockout)
    {
      if !hasPassword {
        return NoPassword;
      }
      if lockedUntil.Some? && lockedUntil.value > now {
        return Locked;
      }
      if !matches {
        failed := failed + 1;
        if failed >= l.lockoutThreshold {
          lockedUntil := Some(now + l.lockout);
          failed := 0;
        }
        return Wrong;
      }
      failed, lockedUntil := 0, None;
      return Success;
    }

    /** A change from a password session must prove the current password; a code session need not. */
    method SetPassword(acceptable: bool, byPassword: bool, currentMatches: bool) returns (ok: bool)
      modifies this`hasPassword, this`failed, this`lockedUntil
      ensures ok <==> acceptable && (old(hasPassword) && byPassword ==> currentMatches)
      ensures Password() == if ok then Account(true, 0, None) else old(Password())
    {
      if !acceptable || (hasPassword && byPassword && !currentMatches) {
        return false;
      }
      hasPassword, failed, lockedUntil := true, 0, None;
      return true;
    }
  }
}
