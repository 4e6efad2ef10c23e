/** Counting failed logins per client and refusing clients that fail too often. */
module AuthLimiter {
  import opened Bytes
  import opened Results

  const MAX_AUTH_FAILURES: nat := 5
  const AUTH_FAILURE_WINDOW_SECS: nat := 60
  const AUTH_BLOCK_DURATION_SECS: nat := 120

  /** Instants in milliseconds. */
  datatype Entry = Entry(count: nat, first: nat, blockedUntil: Option<nat>)

  predicate Blocked(e: Option<Entry>, now: nat) {
    e.Some? && e.value.blockedUntil.Some? && now < e.value.blockedUntil.value
  }

  /** Whole seconds between two instants, none if they are the wrong way round. */
  function SecondsSince(now: nat, since: nat): nat { if now < since then 0 else (now - since) / 1000 }

  /** The entry after one more failure. */
  function Recorded(e: Option<Entry>, now: nat): Entry {
    var was := if e.Some? then e.value else Entry(0, now, None);
    var kept := if SecondsSince(now, was.first) > AUTH_FAILURE_WINDOW_SECS then Entry(0, now, None) else was;
    if kept.count + 1 >= MAX_AUTH_FAILURES then
      Entry(kept.count + 1, kept.first, Some(now + 1000 * AUTH_BLOCK_DURATION_SECS))
    else kept.(count := kept.count + 1)
  }

  datatype Verdict = Granted(uid: i64) | RateLimited(seconds: nat) | UnknownToken

  class AuthFailureCache {
    var failures: map<string, Entry>

    constructor ()
      ensures failures == map[]
    {
      failures := map[];
    }

    function Of(key: string): Option<Entry>
      reads this
    {
      if key in failures then Some(failures[key]) else None
    }

    method IsBlocked(key: string, now: nat) returns (blocked: bool)
      ensures blocked <==> Blocked(Of(key), now)
    {
      if key in failures {
        var entry := failures[key];
        if entry.blockedUntil.Some? {
          if now < entry.blockedUntil.value { return true; }
        }
      }
      return false;
    }

    method RemainingBlockTime(key: string, now: nat) returns (seconds: nat)
      ensures Blocked(Of(key), now) ==> seconds == (failures[key].blockedUntil.value - now) / 1000
      ensures !Blocked(Of(key), now) ==> seconds == 0
    {
      if key in failures {
        var entry := failures[key];
        if entry.blockedUntil.Some? {
          if now < entry.blockedUntil.value { return (entry.blockedUntil.value - now) / 1000; }
        }
      }
      return 0;
    }

    method RecordFailure(key: string, now: nat)
      modifies this
      ensures failures == old(failures)[key := Recorded(old(Of(key)), now)]
    {
      var entry := if key in failures then failures[key] else Entry(0, now, None);
      if SecondsSince(now, entry.first) > AUTH_FAILURE_WINDOW_SECS {
        entry := entry.(count := 0, first := now, blockedUntil := None);
      }
      entry := entry.(count := entry.count + 1);
      if entry.count >= MAX_AUTH_FAILURES {
        entry := entry.(blockedUntil := Some(now + 1000 * AUTH_BLOCK_DURATION_SECS));
      }
      failures := failures[key := entry];
    }

    method ClearFailures(key: string)
      modifies this
      ensures failures == old(failures) - {key}
    {
      failures := failures - {key};
    }

    /** `owner`: whose token it is, if anybody's. `later`: when the outcome is written down. */
    method ValidateToken(key: string, owner: Option<i64>, now: nat, later: nat) returns (v: Verdict)
      modifies this
      ensures v.RateLimited? <==> Blocked(old(Of(key)), now)
      ensures v.RateLimited? ==>
                failures == old(failures) && v.seconds == (failures[key].blockedUntil.value - now) / 1000
      ensures v.UnknownToken? <==> !v.RateLimited? && owner.None?
      ensures v.UnknownToken? ==> failures == old(failures)[key := Recorded(old(Of(key)), later)]
      ensures v.Granted? ==> owner == Some(v.uid) && failures == old(failures) - {key}
    {
      var blocked := IsBlocked(key, now);
      if blocked {
        var remaining := RemainingBlockTime(key, now);
        return RateLimited(remaining);
      }
      if owner.None? {
        RecordFailure(key, later);
        return UnknownToken;
      }
      ClearFailures(key);
      return Granted(owner.value);
    }
  }

  // ---------- one attempt after the other ----------

  /** One attempt with a wrong token: when it is checked, and when its failure is written down. */
  datatype Try = Try(checked: nat, recorded: nat)

  /** The entry after the attempts, and how many of them were recorded as failures. */
  function Attempts(tries: seq<Try>): (Option<Entry>, nat) {
    if tries == [] then (None, 0) else
      var (e, n) := Attempts(tries[..|tries| - 1]);
      var t := tries[|tries| - 1];
      if Blocked(e, t.checked) then (e, n) else (Some(Recorded(e, t.recorded)), n + 1)
  }

  /** Each attempt is over before the next one is checked. */
  predicate OneByOne(tries: seq<Try>) {
    && (forall i :: 0 <= i < |tries| ==> tries[i].checked <= tries[i].recorded)
    && (forall i, j :: 0 <= i < j < |tries| ==> tries[i].recorded <= tries[j].checked)
  }

  /** `windows`: how often counting has started afresh. */
  ghost predicate Windowed(tries: seq<Try>, e: Entry, n: nat, windows: nat) {
    && tries != [] && windows >= 1 && tries[0].recorded <= e.first <= tries[|tries| - 1].recorded
    && 1 <= e.count <= MAX_AUTH_FAILURES && n <= 5 * (windows - 1) + e.count
    && e.first >= tries[0].recorded + 61000 * (windows - 1)
    && (e.count == MAX_AUTH_FAILURES <==> e.blockedUntil.Some?)
    && (e.blockedUntil.Some? ==> e.blockedUntil.value >= e.first + 120000)
  }

  lemma {:induction false} AttemptsWindowed(tries: seq<Try>) returns (windows: nat)
    requires tries != [] && OneByOne(tries)
    ensures Attempts(tries).0.Some? && Windowed(tries, Attempts(tries).0.value, Attempts(tries).1, windows)
  {
    var before, t := tries[..|tries| - 1], tries[|tries| - 1];
    if before == [] {
      windows := 1;
      assert Attempts(before) == (None, 0);
    } else {
      windows := AttemptsWindowed(before);
      var (e, n) := Attempts(before);
      assert before[0] == tries[0] && before[|before| - 1].recorded <= t.checked <= t.recorded;
      if !Blocked(e, t.checked) && SecondsSince(t.recorded, e.value.first) > AUTH_FAILURE_WINDOW_SECS {
        windows := windows + 1;
      }
    }
  }

  /** The count never exceeds five, and a client that has failed five times is refused from then
      on for two minutes. */
  lemma CountIsBounded(tries: seq<Try>)
    requires tries != [] && OneByOne(tries)
    ensures var e := Attempts(tries).0;
            && e.Some? && 1 <= e.value.count <= MAX_AUTH_FAILURES
            && (e.value.count == MAX_AUTH_FAILURES ==>
              e.value.blockedUntil.Some? && e.value.blockedUntil.value >= e.value.first + 120000)
  {
    var windows := AttemptsWindowed(tries);
  }

  /** Over any stretch of time, at most five failures are recorded for every 61 seconds begun. */
  lemma FailuresAreBounded(tries: seq<Try>)
    requires tries != [] && OneByOne(tries)
    ensures Attempts(tries).1 <= 5 * ((tries[|tries| - 1].recorded - tries[0].recorded) / 61000 + 1)
  {
    var windows := AttemptsWindowed(tries);
    var span := tries[|tries| - 1].recorded - tries[0].recorded;
    assert span >= 61000 * (windows - 1);
    assert span / 61000 >= windows - 1;
  }

  // ---------- what an entry remembers ----------

  /** The entry after failures recorded at these moments. */
  function Failures(times: seq<nat>): Option<Entry> {
    if times == [] then None else Some(Recorded(Failures(times[..|times| - 1]), times[|times| - 1]))
  }

  predicate InTime(times: seq<nat>) { forall i, j :: 0 <= i <= j < |times| ==> times[i] <= times[j] }

  /** The count is that of the failures since the one that began the window, all within 61 seconds of it; a failure
      begins a new window exactly when it comes later than that; and five failures in a window block for two minutes
      from the last of them. */
  lemma {:induction false} CountsTheWindow(times: seq<nat>) returns (s: nat)
    requires times != [] && InTime(times)
    ensures s < |times| && Failures(times).Some?
    ensures var e := Failures(times).value;
            && e.first == times[s] && e.count == |times| - s
            && times[|times| - 1] < times[s] + 61000
            && (s > 0 ==> Failures(times[..s]).Some? && times[s] >= Failures(times[..s]).value.first + 61000)
            && e.blockedUntil == (if |times| - s >= 5 then Some(times[|times| - 1] + 120000) else None)
  {
    var last := |times| - 1;
    var before := times[..last];
    if before == [] {
      s := 0;
      assert Failures(before) == None;
    } else {
      s := CountsTheWindow(before);
      assert before[..s] == times[..s] && before[|before| - 1] <= times[last];
      if times[last] >= times[s] + 61000 { s := last; }
    }
  }

  // ---------- attempts that overlap ----------

  /** `pending`: attempts that have passed the check and whose outcome is not written down yet. */
  datatype State = State(entry: Option<Entry>, now: nat, pending: set<nat>)

  datatype Step = Wait(millis: nat) | Check(tid: nat) | Fail(tid: nat) | Succeed(tid: nat)

  ghost predicate Enabled(st: State, step: Step, concurrency: nat) {
    match step
    case Wait(_) => true
    case Check(tid) => tid !in st.pending && |st.pending| < concurrency
    case Fail(tid) => tid in st.pending
    case Succeed(tid) => tid in st.pending
  }

  ghost function Take(st: State, step: Step): State {
    match step
    case Wait(millis) => st.(now := st.now + millis)
    case Check(tid) => if Blocked(st.entry, st.now) then st else st.(pending := st.pending + {tid})
    case Fail(tid) => st.(entry := Some(Recorded(st.entry, st.now)), pending := st.pending - {tid})
    case Succeed(tid) => st.(entry := None, pending := st.pending - {tid})
  }

  ghost function Run(start: State, steps: seq<Step>, concurrency: nat): State {
    if steps == [] then start else
      var st := Run(start, steps[..|steps| - 1], concurrency);
      if Enabled(st, steps[|steps| - 1], concurrency) then Take(st, steps[|steps| - 1]) else st
  }

  ghost predicate Inv(st: State, concurrency: nat) {
    && |st.pending| <= concurrency
    && (st.entry.Some? ==>
          var e := st.entry.value;
          && e.count <= 4 + concurrency && e.first <= st.now
          && (e.blockedUntil.Some? ==> e.count >= MAX_AUTH_FAILURES && e.blockedUntil.value <= st.now + 120000)
          && (e.count >= MAX_AUTH_FAILURES ==> e.blockedUntil.Some? && e.blockedUntil.value >= e.first + 120000)
          && (e.count >= MAX_AUTH_FAILURES && Blocked(st.entry, st.now) ==> e.count + |st.pending| <= 4 + concurrency))
  }

  lemma StepKeeps(st: State, step: Step, concurrency: nat)
    requires Inv(st, concurrency) && Enabled(st, step, concurrency)
    ensures Inv(Take(st, step), concurrency)
  {}

  /** With `concurrency` attempts at a time the count can exceed four by no more than that number: those
      that had passed the check before the fifth failure was written down. */
  lemma {:induction false} OverlappingCountIsBounded(steps: seq<Step>, concurrency: nat)
    ensures var st := Run(START, steps, concurrency);
            Inv(st, concurrency) && (st.entry.Some? ==> st.entry.value.count <= 4 + concurrency)
  {
    if steps != [] {
      OverlappingCountIsBounded(steps[..|steps| - 1], concurrency);
      var st := Run(START, steps[..|steps| - 1], concurrency);
      if Enabled(st, steps[|steps| - 1], concurrency) { StepKeeps(st, steps[|steps| - 1], concurrency); }
    }
  }

  const START: State := State(None, 0, {})

  ghost function Alternate(n: nat): seq<Step> { if n == 0 then [] else Alternate(n - 1) + [Check(0)] + [Fail(0)] }
  ghost function Checks(n: nat): seq<Step> { if n == 0 then [] else Checks(n - 1) + [Check(n - 1)] }
  ghost function Fails(n: nat): seq<Step> { if n == 0 then [] else Fails(n - 1) + [Fail(n - 1)] }

  function Below(n: nat): set<nat> { if n == 0 then {} else Below(n - 1) + {n - 1} }

  lemma {:induction false} BelowFacts(n: nat)
    ensures |Below(n)| == n && forall i :: i in Below(n) ==> i < n
  {
    if n > 0 { BelowFacts(n - 1); }
  }

  lemma {:induction false} BelowGrows(i: nat, n: nat)
    requires i < n
    ensures i in Below(n)
  {
    if i < n - 1 { BelowGrows(i, n - 1); }
  }

  lemma RunSnoc(start: State, steps: seq<Step>, step: Step, concurrency: nat)
    ensures var st := Run(start, steps, concurrency);
            Run(start, steps + [step], concurrency) == if Enabled(st, step, concurrency) then Take(st, step) else st
  {
    assert (steps + [step])[..|steps|] == steps;
  }

  /** After that many failures at the moment 0. */
  function FailedTimes(n: nat): State { State(if n == 0 then None else Some(Entry(n, 0, None)), 0, {}) }

  lemma OneFailureMore(n: nat, concurrency: nat)
    requires n < 4 && concurrency >= 1
    ensures var st := FailedTimes(n);
            && Enabled(st, Check(0), concurrency) && Take(st, Check(0)) == st.(pending := {0})
            && Enabled(st.(pending := {0}), Fail(0), concurrency)
            && Take(st.(pending := {0}), Fail(0)) == FailedTimes(n + 1)
  {
    assert {} + {0} == {0} && {0} - {0} == {};
  }

  lemma {:induction false} AfterAlternating(n: nat, concurrency: nat)
    requires n <= 4 && concurrency >= 1
    ensures Run(START, Alternate(n), concurrency) == FailedTimes(n)
  {
    if n > 0 {
      AfterAlternating(n - 1, concurrency);
      OneFailureMore(n - 1, concurrency);
      hide Run, Take, Enabled, FailedTimes;
      RunSnoc(START, Alternate(n - 1), Check(0), concurrency);
      RunSnoc(START, Alternate(n - 1) + [Check(0)], Fail(0), concurrency);
    }
  }

  /** With four failures behind them and attempts under way, one more passes the check. */
  lemma OneCheckMore(n: nat, concurrency: nat)
    requires n < concurrency
    ensures var st := FailedTimes(4).(pending := Below(n));
            && Enabled(st, Check(n), concurrency) && Take(st, Check(n)) == st.(pending := Below(n + 1))
  {
    BelowFacts(n);
  }

  lemma {:induction false} AfterChecks(n: nat, concurrency: nat)
    requires n <= concurrency && concurrency >= 1
    ensures Run(START, Alternate(4) + Checks(n), concurrency) == State(Some(Entry(4, 0, None)), 0, Below(n))
  {
    hide Run, Alternate, Take, Enabled;
    if n == 0 {
      AfterAlternating(4, concurrency);
      assert Alternate(4) + Checks(0) == Alternate(4);
    } else {
      AfterChecks(n - 1, concurrency);
      OneCheckMore(n - 1, concurrency);
      RunSnoc(START, Alternate(4) + Checks(n - 1), Check(n - 1), concurrency);
      assert Alternate(4) + Checks(n) == Alternate(4) + Checks(n - 1) + [Check(n - 1)];
    }
  }

  lemma CountsOn(e: Entry)
    requires e.first == 0
    ensures Recorded(Some(e), 0).count == e.count + 1 && Recorded(Some(e), 0).first == 0
  {}

  /** The bound is reached: four failures one after the other, then all attempts at once. */
  lemma {:induction false} OverlappingBoundIsReached(n: nat, concurrency: nat)
    requires n <= concurrency && concurrency >= 1
    ensures var st := Run(START, Alternate(4) + Checks(concurrency) + Fails(n), concurrency);
            && st.entry.Some? && st.entry.value.count == 4 + n && st.entry.value.first == 0
            && st.now == 0 && st.pending == Below(concurrency) - Below(n)
  {
    hide Run, Recorded;
    var before := Alternate(4) + Checks(concurrency);
    if n == 0 {
      AfterChecks(concurrency, concurrency);
      assert before + Fails(0) == before;
    } else {
      OverlappingBoundIsReached(n - 1, concurrency);
      var st := Run(START, before + Fails(n - 1), concurrency);
      BelowGrows(n - 1, concurrency);
      BelowFacts(n - 1);
      CountsOn(st.entry.value);
      RunSnoc(START, before + Fails(n - 1), Fail(n - 1), concurrency);
      assert before + Fails(n) == before + Fails(n - 1) + [Fail(n - 1)];
    }
  }

  // ---------- when a block ends early ----------

  /** Some continuation in which nobody succeeds has the client unblocked before `until`. */
  ghost predicate MayEndEarly(st: State, until: nat, concurrency: nat) {
    exists more :: NobodySucceeds(more) && EndsEarly(Run(st, more, concurrency), until)
  }

  predicate NobodySucceeds(steps: seq<Step>) { forall i :: 0 <= i < |steps| ==> !steps[i].Succeed? }

  predicate EndsEarly(st: State, until: nat) { st.now < until && !Blocked(st.entry, st.now) }

  /** At some point of the run the client is let in before the block is over. */
  ghost predicate CutShort(st: State, more: seq<Step>, until: nat, concurrency: nat) {
    exists n: nat :: n <= |more| && EndsEarly(Run(st, more[..n], concurrency), until)
  }

  /** The step at `n` writes down, before the block is over, a success or a failure behind the window that
      led to the block. */
  ghost predicate Lifts(st: State, more: seq<Step>, n: nat, until: nat, concurrency: nat) {
    && st.entry.Some? && n < |more|
    && var s := Run(st, more[..n], concurrency);
       && Enabled(s, more[n], concurrency) && s.now < until
       && (more[n].Succeed?
           || (more[n].Fail? && SecondsSince(s.now, st.entry.value.first) > AUTH_FAILURE_WINDOW_SECS))
  }

  /** The block still stands, for failures of the same window. */
  ghost predicate Standing(st: State, s: State, until: nat) {
    && st.entry.Some? && s.entry.Some? && s.entry.value.first == st.entry.value.first
    && s.entry.value.count >= MAX_AUTH_FAILURES && s.entry.value.blockedUntil.Some?
    && s.entry.value.blockedUntil.value >= until && until <= s.now + 120000
  }

  lemma CutShortEarlier(st: State, more: seq<Step>, k: nat, until: nat, concurrency: nat)
    requires k <= |more| && CutShort(st, more[..k], until, concurrency)
    ensures CutShort(st, more, until, concurrency)
  {
    var n: nat :| n <= k && EndsEarly(Run(st, more[..k][..n], concurrency), until);
    assert more[..k][..n] == more[..n];
  }

  lemma StandingStep(st: State, s: State, step: Step, until: nat)
    requires Standing(st, s, until) && s.now < until
    ensures EndsEarly(Take(s, step), until) <==>
            step.Succeed? || (step.Fail? && SecondsSince(s.now, st.entry.value.first) > AUTH_FAILURE_WINDOW_SECS)
    ensures EndsEarly(Take(s, step), until) || Take(s, step).now >= until || Standing(st, Take(s, step), until)
  {}

  lemma {:induction false} StandsUnlessCut(st: State, more: seq<Step>, until: nat, concurrency: nat)
    requires Standing(st, st, until)
    ensures CutShort(st, more, until, concurrency) || Run(st, more, concurrency).now >= until
            || Standing(st, Run(st, more, concurrency), until)
  {
    if more != [] {
      var before, step := more[..|more| - 1], more[|more| - 1];
      StandsUnlessCut(st, before, until, concurrency);
      assert more[..|more|] == more;
      var s := Run(st, before, concurrency);
      hide Standing, Blocked;
      if CutShort(st, before, until, concurrency) {
        CutShortEarlier(st, more, |more| - 1, until, concurrency);
      } else if s.now < until && Enabled(s, step, concurrency) {
        StandingStep(st, s, step, until);
      }
    }
  }

  lemma {:induction false} CutShortHasCause(st: State, more: seq<Step>, until: nat, concurrency: nat)
    requires Standing(st, st, until) && Blocked(st.entry, st.now) && CutShort(st, more, until, concurrency)
    ensures exists n: nat :: Lifts(st, more, n, until, concurrency)
  {
    if more != [] {
      var before := more[..|more| - 1];
      assert more[..|more|] == more;
      if CutShort(st, before, until, concurrency) {
        CutShortHasCause(st, before, until, concurrency);
        var n: nat :| Lifts(st, before, n, until, concurrency);
        assert before[..n] == more[..n];
        assert Lifts(st, more, n, until, concurrency);
      } else {
        LastStepCuts(st, more, until, concurrency);
      }
    }
  }

  lemma LastStepCuts(st: State, more: seq<Step>, until: nat, concurrency: nat)
    requires Standing(st, st, until) && more != [] && CutShort(st, more, until, concurrency)
    requires !CutShort(st, more[..|more| - 1], until, concurrency)
    ensures Lifts(st, more, |more| - 1, until, concurrency)
  {
    var before := more[..|more| - 1];
    assert forall k: nat :: k < |more| ==> before[..k] == more[..k];
    var n: nat :| n <= |more| && EndsEarly(Run(st, more[..n], concurrency), until);
    assert n == |more|;
    assert before[..|before|] == before && more[..|more|] == more;
    StandsUnlessCut(st, before, until, concurrency);
    StandingStep(st, Run(st, before, concurrency), more[|more| - 1], until);
  }

  lemma LiftCuts(st: State, more: seq<Step>, n: nat, until: nat, concurrency: nat)
    requires Standing(st, st, until) && Lifts(st, more, n, until, concurrency)
    ensures CutShort(st, more, until, concurrency)
  {
    if CutShort(st, more[..n], until, concurrency) {
      CutShortEarlier(st, more, n, until, concurrency);
    } else {
      StandsUnlessCut(st, more[..n], until, concurrency);
      StandingStep(st, Run(st, more[..n], concurrency), more[n], until);
      assert more[..n + 1][..n] == more[..n];
      assert EndsEarly(Run(st, more[..n + 1], concurrency), until);
    }
  }

  /** Along any run a block is cut short exactly when, before it is over, a success is written down or a failure
      more than a minute after the first one of the window: the count starts afresh then. */
  lemma BlockIsCutShort(st: State, more: seq<Step>, concurrency: nat)
    requires Inv(st, concurrency) && Blocked(st.entry, st.now)
    ensures CutShort(st, more, st.entry.value.blockedUntil.value, concurrency)
            <==> exists n: nat :: Lifts(st, more, n, st.entry.value.blockedUntil.value, concurrency)
  {
    var until := st.entry.value.blockedUntil.value;
    if CutShort(st, more, until, concurrency) { CutShortHasCause(st, more, until, concurrency); }
    if n: nat :| Lifts(st, more, n, until, concurrency) { LiftCuts(st, more, n, until, concurrency); }
  }

  /** Without attempts under way nothing changes while the block lasts: new ones are refused. */
  lemma {:induction false} QuietBlockLasts(st: State, more: seq<Step>, concurrency: nat)
    requires Blocked(st.entry, st.now) && st.pending == {}
    ensures var end := Run(st, more, concurrency);
            end.now < st.entry.value.blockedUntil.value ==>
              end.entry == st.entry && end.pending == {} && st.now <= end.now
  {
    if more != [] { QuietBlockLasts(st, more[..|more| - 1], concurrency); }
  }

  /** A block is cut short in some continuation, by failures alone, exactly when an attempt that passed the check
      before is still under way: written down more than a minute after the first failure of the window, it starts
      the count afresh. */
  lemma BlockMayEndEarly(st: State, concurrency: nat)
    requires Inv(st, concurrency) && Blocked(st.entry, st.now)
    ensures MayEndEarly(st, st.entry.value.blockedUntil.value, concurrency) <==> st.pending != {}
  {
    var until := st.entry.value.blockedUntil.value;
    if tid :| tid in st.pending {
      LateFailure(st, tid, concurrency);
    } else {
      forall more | NobodySucceeds(more) ensures !EndsEarly(Run(st, more, concurrency), until) {
        QuietBlockLasts(st, more, concurrency);
      }
    }
  }

  lemma LateFailure(st: State, tid: nat, concurrency: nat)
    requires Inv(st, concurrency) && tid in st.pending && Blocked(st.entry, st.now)
    ensures MayEndEarly(st, st.entry.value.blockedUntil.value, concurrency)
  {
    hide Run, Take, Enabled, Inv, EndsEarly, MayEndEarly;
    var first := st.entry.value.first;
    var wait: nat := if st.now < first + 61000 then first + 61000 - st.now else 0;
    FailureLifts(st, tid, wait, concurrency);
    WaitAndFail(st, wait, tid, concurrency);
    EndsIn(st, [] + [Wait(wait)] + [Fail(tid)], st.entry.value.blockedUntil.value, concurrency);
  }

  lemma WaitAndFail(st: State, wait: nat, tid: nat, concurrency: nat)
    requires Enabled(st, Wait(wait), concurrency) && Enabled(Take(st, Wait(wait)), Fail(tid), concurrency)
    ensures Run(st, [] + [Wait(wait)] + [Fail(tid)], concurrency) == Take(Take(st, Wait(wait)), Fail(tid))
  {
    assert Run(st, [], concurrency) == st;
    hide *;
    RunSnoc(st, [], Wait(wait), concurrency);
    RunSnoc(st, [] + [Wait(wait)], Fail(tid), concurrency);
  }

  lemma EndsIn(st: State, more: seq<Step>, until: nat, concurrency: nat)
    requires NobodySucceeds(more) && EndsEarly(Run(st, more, concurrency), until)
    ensures MayEndEarly(st, until, concurrency)
  {
    hide Run, EndsEarly, NobodySucceeds;
  }

  /** A failure behind the window starts the count afresh. */
  lemma FailureLifts(st: State, tid: nat, wait: nat, concurrency: nat)
    requires Inv(st, concurrency) && tid in st.pending && Blocked(st.entry, st.now)
    requires wait == if st.now < st.entry.value.first + 61000 then st.entry.value.first + 61000 - st.now else 0
    ensures Enabled(st, Wait(wait), concurrency) && Enabled(Take(st, Wait(wait)), Fail(tid), concurrency)
    ensures EndsEarly(Take(Take(st, Wait(wait)), Fail(tid)), st.entry.value.blockedUntil.value)
  {}

  /** A run that gets there: two attempts at a time, the fifth failure blocks the client for two minutes, and the
      sixth, written down 61 seconds later, lets it in again. */
  lemma BlockLiftedAfterAMinute()
    ensures var blocked := Run(START, Alternate(4) + [Check(0)] + [Check(1)] + [Fail(0)], 2);
            var lifted := Run(START, Alternate(4) + [Check(0)] + [Check(1)] + [Fail(0)] + [Wait(61000)] + [Fail(1)], 2);
            && blocked == State(Some(Entry(5, 0, Some(120000))), 0, {1}) && Blocked(blocked.entry, 0)
            && lifted == State(Some(Entry(1, 61000, None)), 61000, {}) && !Blocked(lifted.entry, 61000)
  {
    AfterAlternating(4, 2);
    hide Run;
    var s0 := Alternate(4);
    RunSnoc(START, s0, Check(0), 2);
    RunSnoc(START, s0 + [Check(0)], Check(1), 2);
    RunSnoc(START, s0 + [Check(0)] + [Check(1)], Fail(0), 2);
    RunSnoc(START, s0 + [Check(0)] + [Check(1)] + [Fail(0)], Wait(61000), 2);
    RunSnoc(START, s0 + [Check(0)] + [Check(1)] + [Fail(0)] + [Wait(61000)], Fail(1), 2);
  }
}
