/** Every run of opening, handing out ids, writing, closing and crashing: what the
    id sequence guarantees when a crash may lose the tail of the writes. */
module Durability {
  import opened Bytes
  import opened Results
  import opened MessageLog
  import opened MessageDb

  /** One atomic write of the store, as `insert` or `apply_batch` makes it. */
  datatype Write =
    | Lease(value: i64)
    | Message(mid: i64, entry: Entry)
    | MergedPut(mid: i64, data: bytes)
    | MergedRemoved(mid: i64)
    | GroupCleared(gid: i64)

  ghost function Do(s: Stored, w: Write): Stored {
    match w
    case Lease(value) => PutLease(s, value)
    case Message(mid, entry) => Append(s, mid, entry)
    case MergedPut(mid, data) => PutMerged(s, mid, data)
    case MergedRemoved(mid) => s.(merged := s.merged - {mid})
    case GroupCleared(gid) => Clear(s, gid)
  }

  /** What is on disk after the given writes. */
  ghost function Replay(history: seq<Write>): Stored {
    if history == [] then EMPTY else Do(Replay(history[..|history| - 1]), history[|history| - 1])
  }

  datatype Session = Session(next: i64, leased: i64)

  /** `inFlight`: ids handed out whose message is not written yet. `issued`: all ids
      ever handed out. `crashes`: how often the process died. */
  datatype Machine = Machine(
    history: seq<Write>, session: Option<Session>, inFlight: set<i64>, issued: seq<i64>, crashes: nat)

  /** A crash keeps the first `keep` writes and loses the others: the store persists
      its writes in order. */
  datatype Step =
    | Open
    | Generate
    | Commit(mid: i64, entry: Entry)
    | Touch(write: Write)
    | Close
    | Crash(keep: nat)

  const START: Machine := Machine([], None, {}, [], 0)

  ghost predicate Enabled(m: Machine, step: Step) {
    match step
    case Open => m.session.None? && FirstId(Replay(m.history).lease) <= ID_LIMIT
    case Generate =>
      m.session.Some? && m.session.value.next <= ID_LIMIT
        && (m.session.value.next >= m.session.value.leased ==> FirstId(Replay(m.history).lease) <= ID_LIMIT)
    case Commit(mid, entry) => m.session.Some? && mid in m.inFlight && WellFormedEntry(mid, entry)
    case Touch(write) => m.session.Some? && !write.Lease? && !write.Message?
    case Close => m.session.Some? && m.inFlight == {}
    case Crash(keep) => keep <= |m.history|
  }

  ghost function Take(m: Machine, step: Step): Machine
    requires Enabled(m, step)
  {
    match step
    case Open =>
      var first := FirstId(Replay(m.history).lease);
      var leased := first + SEQUENCE_BANDWIDTH;
      m.(history := m.history + [Lease(leased)], session := Some(Session(first, leased)))
    case Generate =>
      var Session(next, leased) := m.session.value;
      if next >= leased then
        var first := FirstId(Replay(m.history).lease);
        var renewed := first + SEQUENCE_BANDWIDTH;
        m.(history := m.history + [Lease(renewed)], session := Some(Session(first + 1, renewed)),
           inFlight := m.inFlight + {first}, issued := m.issued + [first])
      else
        m.(session := Some(Session(next + 1, leased)),
           inFlight := m.inFlight + {next}, issued := m.issued + [next])
    case Commit(mid, entry) => m.(history := m.history + [Message(mid, entry)], inFlight := m.inFlight - {mid})
    case Touch(write) => m.(history := m.history + [write])
    case Close => m.(history := m.history + [Lease(m.session.value.next)], session := None)
    case Crash(keep) => m.(history := m.history[..keep], session := None, inFlight := {}, crashes := m.crashes + 1)
  }

  /** A step that is not possible in a state changes nothing, so every list of steps is a run. */
  ghost function Run(steps: seq<Step>): Machine {
    if steps == [] then START else
      var m := Run(steps[..|steps| - 1]);
      var step := steps[|steps| - 1];
      if Enabled(m, step) then Take(m, step) else m
  }

  lemma RunSnoc(steps: seq<Step>, step: Step)
    ensures Run(steps + [step]) == if Enabled(Run(steps), step) then Take(Run(steps), step) else Run(steps)
  {
    assert (steps + [step])[..|steps|] == steps;
  }

  // ---------- the steps are what the database does ----------

  /** An open database is in the state of the machine: its session, and what is on disk. */
  ghost predicate Matches(db: MsgDb, m: Machine)
    reads db
  {
    db.Valid() && m.session == Some(Session(db.next, db.leased)) && Replay(m.history) == db.stored
  }

  method OpenStep(disk: Tree, ghost table: Table, ghost m: Machine) returns (r: Result<MsgDb, Error>)
    requires Enabled(m, Open) && Refines(disk, table, Replay(m.history)) && LeaseCovers(Replay(m.history))
    ensures r.Ok? && fresh(r.value) && Matches(r.value, Take(m, Open))
  {
    LeaseReadBack(disk, table, Replay(m.history));
    r := MsgDb.Open(disk, table, Replay(m.history));
    HistoryEnd(m.history, Take(m, Open).history);
  }

  /** An empty disk opens as the machine starts, and counting begins at 1. */
  method FirstOpen() returns (r: Result<MsgDb, Error>)
    ensures r.Ok? && fresh(r.value) && Matches(r.value, Take(START, Open)) && r.value.next == 1
  {
    EmptyRefines();
    r := OpenStep(map[], map[], START);
  }

  method GenerateStep(db: MsgDb, ghost m: Machine) returns (id: i64)
    requires Matches(db, m) && db.next <= ID_LIMIT
    modifies db
    ensures Enabled(m, Generate) && Matches(db, Take(m, Generate))
    ensures Take(m, Generate).issued == m.issued + [id]
  {
    id := db.GenerateId();
    HistoryEnd(m.history, Take(m, Generate).history);
  }

  method CommitStep(db: MsgDb, gid: i64, to: seq<i64>, msg: bytes, ghost m: Machine) returns (id: i64)
    requires Matches(db, m) && db.next <= ID_LIMIT
    modifies db
    ensures Enabled(m, Generate) && Take(m, Generate).issued == m.issued + [id]
    ensures var entry := Entry(InGroup(gid), (set u | u in to), msg);
            && Enabled(Take(m, Generate), Commit(id, entry))
            && Matches(db, Take(Take(m, Generate), Commit(id, entry)))
  {
    hide WellFormed, Refines, Tabulates, LeaseCovers;
    id := db.SendToGroup(gid, to, msg);
    var generated := Take(m, Generate);
    HistoryEnd(m.history, generated.history);
    ghost var entry := Entry(InGroup(gid), (set u | u in to), msg);
    HistoryEnd(generated.history, Take(generated, Commit(id, entry)).history);
  }

  method CloseStep(db: MsgDb, ghost m: Machine)
    requires Matches(db, m) && m.inFlight == {}
    modifies db
    ensures Enabled(m, Close) && Take(m, Close).session.None?
    ensures Refines(db.tree, db.table, Replay(Take(m, Close).history))
  {
    db.Close();
    HistoryEnd(m.history, Take(m, Close).history);
  }

  lemma HistoryEnd(history: seq<Write>, longer: seq<Write>)
    requires longer == history || (|longer| == |history| + 1 && longer[..|history|] == history)
    ensures longer != history ==> Replay(longer) == Do(Replay(history), longer[|history|])
  {}

  // ---------- what every reachable state satisfies ----------

  ghost predicate PrefixesCovered(history: seq<Write>) {
    forall n {:trigger history[..n]} :: 0 <= n <= |history| ==> LeaseCovers(Replay(history[..n]))
  }

  /** No lease ever written exceeds `bound`. */
  ghost predicate LeasesBounded(history: seq<Write>, bound: int) {
    forall n {:trigger history[..n]} :: 0 <= n <= |history| ==> FirstId(Replay(history[..n]).lease) <= bound
  }

  ghost predicate Safe(m: Machine) {
    && PrefixesCovered(m.history)
    && LeasesBounded(m.history, |m.issued| + 32 * m.crashes + 33)
    && (m.session.None? ==> m.inFlight == {} && FirstId(Replay(m.history).lease) <= |m.issued| + 32 * m.crashes + 1)
    && (m.session.Some? ==>
          var Session(next, leased) := m.session.value;
          && Replay(m.history).lease == Some(leased)
          && 1 <= next <= leased <= next + 32
          && next <= |m.issued| + 32 * m.crashes + 1
          && (forall mid :: mid in Replay(m.history).log ==> mid < next && mid !in m.inFlight)
          && (forall mid :: mid in m.inFlight ==> 1 <= mid < next))
    && (m.crashes == 0 ==> NoGap(m))
  }

  /** Without a crash the ids handed out are exactly 1, 2, 3, ... */
  ghost predicate NoGap(m: Machine) {
    && (forall i :: 0 <= i < |m.issued| ==> m.issued[i] == i + 1)
    && |m.issued| + 1 == if m.session.Some? then m.session.value.next else FirstId(Replay(m.history).lease)
  }

  lemma ExtendHistory(history: seq<Write>, w: Write, bound: int)
    requires PrefixesCovered(history) && LeasesBounded(history, bound)
    requires LeaseCovers(Do(Replay(history), w)) && FirstId(Do(Replay(history), w).lease) <= bound
    ensures PrefixesCovered(history + [w]) && LeasesBounded(history + [w], bound)
    ensures Replay(history + [w]) == Do(Replay(history), w)
  {
    var longer := history + [w];
    assert longer[..|history|] == history;
    forall n | 0 <= n <= |longer|
      ensures LeaseCovers(Replay(longer[..n])) && FirstId(Replay(longer[..n]).lease) <= bound
    {
      if n <= |history| { assert longer[..n] == history[..n]; } else { assert longer[..n] == longer; }
    }
  }

  lemma TruncateHistory(history: seq<Write>, keep: nat, bound: int)
    requires keep <= |history| && PrefixesCovered(history) && LeasesBounded(history, bound)
    ensures PrefixesCovered(history[..keep]) && LeasesBounded(history[..keep], bound)
  {
    forall n | 0 <= n <= keep
      ensures LeaseCovers(Replay(history[..keep][..n])) && FirstId(Replay(history[..keep][..n]).lease) <= bound
    {
      assert history[..keep][..n] == history[..n];
    }
  }

  lemma CurrentCovered(m: Machine)
    requires Safe(m)
    ensures LeaseCovers(Replay(m.history))
  {
    assert m.history[..|m.history|] == m.history;
  }

  lemma WeakenBound(history: seq<Write>, bound: int, weaker: int)
    requires LeasesBounded(history, bound) && bound <= weaker
    ensures LeasesBounded(history, weaker)
  {}

  lemma OpenSafe(m: Machine)
    requires Safe(m) && Enabled(m, Open)
    ensures Safe(Take(m, Open))
  {
    CurrentCovered(m);
    var leased := FirstId(Replay(m.history).lease) + SEQUENCE_BANDWIDTH;
    ExtendHistory(m.history, Lease(leased), |m.issued| + 32 * m.crashes + 33);
  }

  lemma GenerateSafe(m: Machine)
    requires Safe(m) && Enabled(m, Generate)
    ensures Safe(Take(m, Generate))
  {
    WeakenBound(m.history, |m.issued| + 32 * m.crashes + 33, |m.issued| + 32 * m.crashes + 34);
    if m.session.value.next >= m.session.value.leased { RenewSafe(m); }
  }

  lemma RenewSafe(m: Machine)
    requires Safe(m) && Enabled(m, Generate) && m.session.value.next >= m.session.value.leased
    requires LeasesBounded(m.history, |m.issued| + 32 * m.crashes + 34)
    ensures Safe(Take(m, Generate))
  {
    hide Replay, PrefixesCovered, LeasesBounded;
    CurrentCovered(m);
    var renewed := FirstId(Replay(m.history).lease) + SEQUENCE_BANDWIDTH;
    ExtendHistory(m.history, Lease(renewed), |m.issued| + 32 * m.crashes + 34);
  }

  lemma CommitSafe(m: Machine, mid: i64, entry: Entry)
    requires Safe(m) && Enabled(m, Commit(mid, entry))
    ensures Safe(Take(m, Commit(mid, entry)))
  {
    CurrentCovered(m);
    ExtendHistory(m.history, Message(mid, entry), |m.issued| + 32 * m.crashes + 33);
  }

  lemma TouchSafe(m: Machine, write: Write)
    requires Safe(m) && Enabled(m, Touch(write))
    ensures Safe(Take(m, Touch(write)))
  {
    CurrentCovered(m);
    ExtendHistory(m.history, write, |m.issued| + 32 * m.crashes + 33);
  }

  lemma CloseSafe(m: Machine)
    requires Safe(m) && Enabled(m, Close)
    ensures Safe(Take(m, Close))
  {
    CurrentCovered(m);
    ExtendHistory(m.history, Lease(m.session.value.next), |m.issued| + 32 * m.crashes + 33);
  }

  lemma CrashSafe(m: Machine, keep: nat)
    requires Safe(m) && Enabled(m, Crash(keep))
    ensures Safe(Take(m, Crash(keep)))
  {
    var bound := |m.issued| + 32 * m.crashes + 33;
    TruncateHistory(m.history, keep, bound);
    WeakenBound(m.history[..keep], bound, bound + 32);
    assert m.history[..keep][..keep] == m.history[..keep];
  }

  lemma StepSafe(m: Machine, step: Step)
    requires Safe(m) && Enabled(m, step)
    ensures Safe(Take(m, step))
  {
    match step {
      case Open => OpenSafe(m);
      case Generate => GenerateSafe(m);
      case Commit(mid, entry) => CommitSafe(m, mid, entry);
      case Touch(write) => TouchSafe(m, write);
      case Close => CloseSafe(m);
      case Crash(keep) => CrashSafe(m, keep);
    }
  }

  lemma {:induction false} RunSafe(steps: seq<Step>)
    ensures Safe(Run(steps))
  {
    if steps == [] {
      assert START.history[..0] == [];
    } else {
      RunSafe(steps[..|steps| - 1]);
      var m := Run(steps[..|steps| - 1]);
      if Enabled(m, steps[|steps| - 1]) { StepSafe(m, steps[|steps| - 1]); }
    }
  }

  // ---------- the guarantees ----------

  /** Whatever prefix of the writes a crash leaves behind, the lease in it is above
      every message in it: the database can be opened again, as `MsgDb.Open` requires. */
  lemma EveryCrashImageOpens(steps: seq<Step>, n: nat)
    requires n <= |Run(steps).history|
    ensures LeaseCovers(Replay(Run(steps).history[..n]))
  {
    RunSafe(steps);
  }

  /** A message is only ever written under an id that no stored message has. */
  lemma NothingIsOverwritten(steps: seq<Step>, mid: i64, entry: Entry)
    requires Enabled(Run(steps), Commit(mid, entry))
    ensures mid !in Replay(Run(steps).history).log
  {
    RunSafe(steps);
  }

  /** After n ids and k crashes the next id is at most n + 32 k + 1. */
  lemma WasteIsBounded(steps: seq<Step>)
    ensures var m := Run(steps);
            var next := if m.session.Some? then m.session.value.next else FirstId(Replay(m.history).lease);
            next <= |m.issued| + 32 * m.crashes + 1
  {
    RunSafe(steps);
  }

  /** Clean closes and renewed leases waste nothing: without a crash the ids are 1, 2, 3, ... */
  lemma NoCrashNoWaste(steps: seq<Step>, i: nat)
    requires Run(steps).crashes == 0 && i < |Run(steps).issued|
    ensures Run(steps).issued[i] == i + 1
  {
    RunSafe(steps);
  }

  ghost function CrashLoop(k: nat): seq<Step> {
    if k == 0 then [] else CrashLoop(k - 1) + [Open, Crash(k)]
  }

  /** k times open and crash, keeping all writes, moves the next id to 32 k + 1. */
  lemma {:induction false} CrashLoopWastes(k: nat)
    requires 32 * k + 1 <= ID_LIMIT
    ensures var m := Run(CrashLoop(k));
            && m.crashes == k && m.issued == [] && m.session.None? && |m.history| == k
            && FirstId(Replay(m.history).lease) == 32 * k + 1
  {
    if k > 0 {
      CrashLoopWastes(k - 1);
      var m0 := Run(CrashLoop(k - 1));
      RunSnoc(CrashLoop(k - 1), Open);
      RunSnoc(CrashLoop(k - 1) + [Open], Crash(k));
      assert CrashLoop(k) == CrashLoop(k - 1) + [Open] + [Crash(k)];
      OpenThenCrash(m0, k);
    }
  }

  lemma OpenThenCrash(m: Machine, k: nat)
    requires m.session.None? && |m.history| + 1 == k && FirstId(Replay(m.history).lease) <= ID_LIMIT
    ensures var m1 := Take(m, Open);
            && Enabled(m1, Crash(k)) && Take(m1, Crash(k)).history == m1.history
            && Replay(m1.history).lease == Some(FirstId(Replay(m.history).lease) + 32)
  {
    var m1 := Take(m, Open);
    assert m1.history[..k] == m1.history && m1.history[..k - 1] == m.history;
  }

  // ---------- when ids are issued twice ----------

  /** The id that is handed out next, now or after the next opening. */
  ghost function NextOf(m: Machine): int {
    if m.session.Some? then m.session.value.next else FirstId(Replay(m.history).lease)
  }

  ghost predicate AllBelow(m: Machine) { forall i :: 0 <= i < |m.issued| ==> m.issued[i] < NextOf(m) }

  ghost predicate Increasing(ids: seq<i64>) { forall i, j :: 0 <= i < j < |ids| ==> ids[i] < ids[j] }

  /** Every crash leaves a lease above every id issued before it. */
  ghost predicate CrashesKeepLease(steps: seq<Step>) {
    forall i :: 0 <= i < |steps| ==> KeepsLeaseAt(steps, i)
  }

  ghost predicate KeepsLeaseAt(steps: seq<Step>, i: nat)
    requires i < |steps|
  {
    steps[i].Crash? ==> AllBelow(Run(steps[..i + 1]))
  }

  /** Without a crash the next id never falls behind, and an id handed out is the next one. */
  lemma StepIssues(m: Machine, step: Step)
    requires Safe(m) && Enabled(m, step) && !step.Crash?
    ensures NextOf(m) <= NextOf(Take(m, step))
    ensures Take(m, step).issued == if step.Generate? then m.issued + [NextOf(m)] else m.issued
    ensures step.Generate? ==> NextOf(Take(m, step)) == NextOf(m) + 1
  {
    HistoryEnd(m.history, Take(m, step).history);
  }

  lemma KeepsLeasePrefix(steps: seq<Step>)
    requires steps != [] && CrashesKeepLease(steps)
    ensures CrashesKeepLease(steps[..|steps| - 1])
  {
    hide AllBelow, Run, KeepsLeaseAt;
    var before := steps[..|steps| - 1];
    forall i | 0 <= i < |before| ensures KeepsLeaseAt(before, i) {
      assert KeepsLeaseAt(steps, i);
      SameLeaseAt(steps, before, i);
    }
  }

  /** Then ids strictly increase over the whole life of the database. */
  lemma {:induction false} IdsIncrease(steps: seq<Step>)
    requires CrashesKeepLease(steps)
    ensures Increasing(Run(steps).issued) && AllBelow(Run(steps))
  {
    if steps != [] {
      var before, step := steps[..|steps| - 1], steps[|steps| - 1];
      KeepsLeasePrefix(steps);
      assert KeepsLeaseAt(steps, |steps| - 1);
      IdsIncrease(before);
      RunSafe(before);
      assert steps[..|steps|] == steps;
      hide Replay, Safe, LeaseCovers, CrashesKeepLease;
      if Enabled(Run(before), step) && !step.Crash? { StepIssues(Run(before), step); }
    }
  }

  ghost predicate Durable(steps: seq<Step>) {
    forall i :: 0 <= i < |steps| && steps[i].Crash? ==> steps[i].keep == |Run(steps[..i]).history|
  }

  lemma SameLeaseAt(steps: seq<Step>, before: seq<Step>, i: nat)
    requires before <= steps && i < |before|
    ensures KeepsLeaseAt(before, i) <==> KeepsLeaseAt(steps, i)
  {
    hide AllBelow, Run;
    assert before[..i + 1] == steps[..i + 1];
  }

  lemma LastLease(steps: seq<Step>)
    requires steps != [] && (steps[|steps| - 1].Crash? ==> AllBelow(Run(steps)))
    ensures KeepsLeaseAt(steps, |steps| - 1)
  {
    hide AllBelow, Run;
    assert steps[..|steps|] == steps;
  }

  lemma CrashesKeepLeaseSnoc(steps: seq<Step>)
    requires steps != [] && CrashesKeepLease(steps[..|steps| - 1])
    requires steps[|steps| - 1].Crash? ==> AllBelow(Run(steps))
    ensures CrashesKeepLease(steps)
  {
    hide AllBelow, Run, KeepsLeaseAt;
    var before := steps[..|steps| - 1];
    LastLease(steps);
    forall i | 0 <= i < |before| ensures KeepsLeaseAt(steps, i) {
      assert KeepsLeaseAt(before, i);
      SameLeaseAt(steps, before, i);
    }
  }

  lemma DurablePrefix(steps: seq<Step>)
    requires steps != [] && Durable(steps)
    ensures Durable(steps[..|steps| - 1])
  {
    hide Run;
    var before := steps[..|steps| - 1];
    forall i | 0 <= i < |before| && before[i].Crash? ensures before[i].keep == |Run(before[..i]).history| {
      assert before[..i] == steps[..i];
    }
  }

  /** In particular when crashes lose no completed write. */
  lemma {:induction false} DurableIdsIncrease(steps: seq<Step>)
    requires Durable(steps)
    ensures CrashesKeepLease(steps) && Increasing(Run(steps).issued)
  {
    if steps != [] {
      hide Safe, Replay, AllBelow, CrashesKeepLease;
      var before, step := steps[..|steps| - 1], steps[|steps| - 1];
      DurablePrefix(steps);
      DurableIdsIncrease(before);
      IdsIncrease(before);
      RunSafe(before);
      if step.Crash? { DurableCrash(Run(before)); }
      CrashesKeepLeaseSnoc(steps);
      IdsIncrease(steps);
    }
  }

  lemma DurableCrash(m: Machine)
    requires Safe(m) && AllBelow(m)
    ensures AllBelow(Take(m, Crash(|m.history|)))
  {
    assert m.history[..|m.history|] == m.history;
  }

  ghost predicate Distinct(ids: seq<i64>) { forall i, j :: 0 <= i < j < |ids| ==> ids[i] != ids[j] }

  ghost predicate CrashFree(more: seq<Step>) { forall i :: 0 <= i < |more| ==> !more[i].Crash? }

  /** Going on without a crash, some id is handed out a second time. */
  ghost predicate Reissues(steps: seq<Step>, more: seq<Step>) {
    CrashFree(more) && !Distinct(Run(steps + more).issued)
  }

  lemma StepDistinct(m: Machine, step: Step)
    requires Safe(m) && Enabled(m, step) && !step.Crash? && Distinct(m.issued) && AllBelow(m)
    ensures Distinct(Take(m, step).issued) && AllBelow(Take(m, step))
  {
    StepIssues(m, step);
    hide Safe, Replay, Take, NextOf;
  }

  lemma {:induction false} StaysDistinct(steps: seq<Step>, more: seq<Step>)
    requires CrashFree(more) && Distinct(Run(steps).issued) && AllBelow(Run(steps))
    ensures Distinct(Run(steps + more).issued) && AllBelow(Run(steps + more))
  {
    hide Safe, Distinct, AllBelow, Run, Take;
    if more == [] {
      assert steps + more == steps;
    } else {
      var before, step := steps + more[..|more| - 1], more[|more| - 1];
      StaysDistinct(steps, more[..|more| - 1]);
      assert steps + more == before + [step];
      RunSnoc(before, step);
      RunSafe(before);
      if Enabled(Run(before), step) { StepDistinct(Run(before), step); }
    }
  }

  ghost function Generates(k: nat): seq<Step> { if k == 0 then [] else Generates(k - 1) + [Generate] }

  lemma GenerateNext(m: Machine)
    requires Safe(m) && m.session.Some? && m.session.value.next <= ID_LIMIT
    ensures Enabled(m, Generate)
    ensures var next, end := m.session.value.next, Take(m, Generate);
            && end.issued == m.issued + [next] && end.session.Some? && end.session.value.next == next + 1
            && end.crashes == m.crashes
  {}

  /** Ids are handed out one by one from the lease on. */
  lemma {:induction false} HandsOut(steps: seq<Step>, k: nat)
    requires Run(steps).session.None? && FirstId(Replay(Run(steps).history).lease) <= ID_LIMIT
    requires FirstId(Replay(Run(steps).history).lease) + k <= ID_LIMIT + 1
    ensures var first, m := FirstId(Replay(Run(steps).history).lease), Run(steps + [Open] + Generates(k));
            && m.session.Some? && m.session.value.next == first + k && m.crashes == Run(steps).crashes
            && |m.issued| == |Run(steps).issued| + k && Run(steps).issued <= m.issued
            && (k > 0 ==> m.issued[|m.issued| - 1] == first + k - 1)
  {
    hide Run, Safe, Replay;
    var running := steps + [Open];
    if k == 0 {
      RunSnoc(steps, Open);
      assert running + Generates(0) == running;
    } else {
      hide Take, Enabled;
      HandsOut(steps, k - 1);
      assert running + Generates(k) == (running + Generates(k - 1)) + [Generate];
      RunSnoc(running + Generates(k - 1), Generate);
      RunSafe(running + Generates(k - 1));
      GenerateNext(Run(running + Generates(k - 1)));
    }
  }

  lemma {:induction false} IssuedInRange(steps: seq<Step>)
    ensures forall i :: 0 <= i < |Run(steps).issued| ==> Run(steps).issued[i] <= ID_LIMIT
  {
    if steps != [] {
      IssuedInRange(steps[..|steps| - 1]);
      RunSafe(steps[..|steps| - 1]);
    }
  }

  lemma {:induction false} GeneratesOnly(k: nat)
    ensures |Generates(k)| == k && forall i :: 0 <= i < k ==> Generates(k)[i] == Generate
  {
    if k > 0 { GeneratesOnly(k - 1); }
  }

  lemma IssuesAgain(steps: seq<Step>, i: nat)
    requires var m := Run(steps);
             m.session.None? && i < |m.issued| && m.issued[i] >= FirstId(Replay(m.history).lease)
    ensures exists more :: Reissues(steps, more)
  {
    hide Safe, Run, Replay, Generates, LeaseCovers;
    var m := Run(steps);
    RunSafe(steps);
    CurrentCovered(m);
    IssuedInRange(steps);
    var first: int, again: int := FirstId(Replay(m.history).lease), m.issued[i];
    var k: nat := again - first + 1;
    HandsOut(steps, k);
    GeneratesOnly(k);
    var more := [Open] + Generates(k);
    assert steps + more == steps + [Open] + Generates(k);
    var end := Run(steps + more).issued;
    assert end[i] == m.issued[i] == end[|end| - 1];
    assert Reissues(steps, more);
  }

  /** The bound is reached for every number of ids and of crashes. */
  lemma WasteBoundIsTight(n: nat, k: nat)
    requires n + 32 * k <= ID_LIMIT
    ensures var m := Run(CrashLoop(k) + [Open] + Generates(n));
            && m.crashes == k && |m.issued| == n && m.session.Some? && m.session.value.next == n + 32 * k + 1
  {
    CrashLoopWastes(k);
    HandsOut(CrashLoop(k), n);
  }

  /** While the database is closed, after a crash for instance, and no id has been issued twice: it can go on to
      issue one twice, without a further crash, exactly when its lease is not above every id issued. */
  lemma LostLeaseReissues(steps: seq<Step>)
    requires Run(steps).session.None? && Distinct(Run(steps).issued)
    ensures (exists more :: Reissues(steps, more)) <==> !AllBelow(Run(steps))
  {
    hide Run, Replay, Distinct;
    var m := Run(steps);
    if AllBelow(m) {
      forall more ensures !Reissues(steps, more) {
        if CrashFree(more) { StaysDistinct(steps, more); }
      }
    } else {
      var i :| 0 <= i < |m.issued| && m.issued[i] >= NextOf(m);
      IssuesAgain(steps, i);
    }
  }
}
