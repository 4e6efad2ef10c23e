/** Editing senders, the background updater and the handlers that pin and unpin, step by
    step: pinned copies agree with the merged view once everything has settled. */
module PinCoherence {
  import opened Bytes
  import opened Results
  import opened Ordered
  import opened GroupKinds
  import Payloads
  import MergedView
  import MessageDb
  import Sending
  import opened Pinned

  /** The updater takes an id off the queue, reads the merged message without any lock, and
      only then takes the write guard. */
  datatype Updater = Idle | Holding(mid: i64) | InHand(mid: i64, merged: Option<Payloads.Content>)

  /** `pending`: senders that have written the merged view and not yet queued the id. They hold
      the read guard, so nobody has the write guard meanwhile. */
  datatype State = State(groups: Groups, merged: map<i64, Payloads.Content>, queue: seq<i64>, pending: map<nat, i64>,
      updater: Updater)

  datatype Step =
    | Insert(tid: nat, mid: i64, content: Payloads.Content)
    | Edit(tid: nat, mid: i64, content: Payloads.Content)
    | Enqueue(tid: nat)
    | Pop
    | Read
    | ApplyUpdate
    | PinIt(gid: i64, uid: i64, isAdmin: bool, mid: i64, now: int)
    | UnpinIt(gid: i64, uid: i64, isAdmin: bool, mid: i64)
    | Clear(gid: i64, mids: set<i64>, fault: bool)
    | CreateGroup(gid: i64, kind: GroupKind)
    | DeleteGroup(gid: i64)

  function Current(merged: map<i64, Payloads.Content>, mid: i64): Option<Payloads.Content> {
    if mid in merged then Some(merged[mid]) else None
  }

  ghost predicate Enabled(st: State, step: Step) {
    match step
    case Insert(tid, _, _) => tid !in st.pending
    case Edit(tid, _, _) => tid !in st.pending
    case Enqueue(tid) => tid in st.pending
    case Pop => st.updater.Idle? && st.queue != []
    case Read => st.updater.Holding?
    case ApplyUpdate => st.updater.InHand? && st.pending == map[]
    case PinIt(gid, uid, isAdmin, mid, now) => st.pending == map[]
    case UnpinIt(gid, uid, isAdmin, mid) => st.pending == map[]
    case Clear(gid, _, _) => st.pending == map[] && gid in st.groups
    case CreateGroup(gid, _) => st.pending == map[] && gid !in st.groups
    case DeleteGroup(gid) => st.pending == map[] && gid in st.groups
  }

  ghost function Take(st: State, step: Step): State
    requires Enabled(st, step)
  {
    match step
    case Insert(tid, mid, content) => st.(merged := st.merged[mid := content], pending := st.pending[tid := mid])
    case Edit(tid, mid, content) =>
      st.(merged := if mid in st.merged then st.merged[mid := content] else st.merged,
          pending := st.pending[tid := mid])
    case Enqueue(tid) => st.(queue := st.queue + [st.pending[tid]], pending := st.pending - {tid})
    case Pop => st.(queue := st.queue[1..], updater := Holding(st.queue[0]))
    case Read => st.(updater := InHand(st.updater.mid, Current(st.merged, st.updater.mid)))
    case ApplyUpdate => st.(groups := Updated(st.groups, st.updater.mid, st.updater.merged), updater := Idle)
    case PinIt(gid, uid, isAdmin, mid, now) =>
      var r := PinResult(st.groups, gid, uid, isAdmin, mid, now, Current(st.merged, mid));
      if r.Ok? then st.(groups := WithPin(st.groups, gid, r.value)) else st
    case UnpinIt(gid, uid, isAdmin, mid) =>
      if UnpinResult(st.groups, gid, uid, isAdmin, mid).Ok? then st.(groups := WithoutPin(st.groups, gid, mid)) else st
    case Clear(gid, mids, fault) =>
      st.(groups := if fault then st.groups else st.groups[gid := st.groups[gid].(pins := [])],
          merged := st.merged - mids)
    case CreateGroup(gid, kind) => st.(groups := st.groups[gid := PinGroup(kind, [])])
    case DeleteGroup(gid) => st.(groups := st.groups - {gid})
  }

  ghost function Run(start: State, steps: seq<Step>): State {
    if steps == [] then start else
      var st := Run(start, steps[..|steps| - 1]);
      var step := steps[|steps| - 1];
      if Enabled(st, step) then Take(st, step) else st
  }

  // ---------- what a sender does to the merged view is these steps ----------

  /** What the merged view shows of each message. */
  function ContentsOf(view: MergedView.View): map<i64, Payloads.Content> { map mid | mid in view :: view[mid].content }

  /** The step a sender takes when the merged view takes in its message; none for likes and withdrawals. */
  function WriteOf(tid: nat, mid: i64, p: Payloads.Payload): Option<Step> {
    match p.detail
    case Normal(content, _) => Some(Insert(tid, mid, content))
    case Reply(_, content) => Some(Insert(tid, mid, content))
    case Reaction(aimedAt, action) => if action.Edit? then Some(Edit(tid, aimedAt, action.content)) else None
  }

  /** Contents with what a message writes: its own content, or an edit of a message that is there. */
  function Written(contents: map<i64, Payloads.Content>, mid: i64, p: Payloads.Payload): map<i64, Payloads.Content> {
    match p.detail
    case Normal(content, _) => contents[mid := content]
    case Reply(_, content) => contents[mid := content]
    case Reaction(aimedAt, action) =>
      if action.Edit? && aimedAt in contents then contents[aimedAt := action.content] else contents
  }

  lemma ContentsAfter(v: MergedView.View, mid: i64, p: Payloads.Payload)
    ensures ContentsOf(MergedView.Apply(v, mid, p)) == Written(ContentsOf(v), mid, p)
  {}

  lemma ViewAfter(h: seq<MergedView.Event>, mid: i64, p: Payloads.Payload)
    ensures MergedView.ViewOf(h + [MergedView.Applied(mid, p)]) == MergedView.Apply(MergedView.ViewOf(h), mid, p)
  {
    MergedView.StepSnoc(h, MergedView.Applied(mid, p));
  }

  lemma WriteIs(st: State, tid: nat, mid: i64, p: Payloads.Payload)
    requires tid !in st.pending
    ensures match WriteOf(tid, mid, p)
            case None => Sending.ToQueue(mid, p).None? && Written(st.merged, mid, p) == st.merged
            case Some(step) =>
              && Enabled(st, step) && Take(st, step).merged == Written(st.merged, mid, p)
              && Enabled(Take(st, step), Enqueue(tid))
              && Sending.ToQueue(mid, p).Some?
              && Take(Take(st, step), Enqueue(tid)).queue == st.queue + [Sending.ToQueue(mid, p).value]
  {
    hide Updated;
  }

  /** The contents afterwards are those after the step, and the id that is queued then is the one the sender
      owes the queue. */
  method WriteStep(db: MessageDb.MsgDb, c: Sending.Codec, mid: i64, p: Payloads.Payload,
      ghost h: seq<MergedView.Event>, ghost st: State, ghost tid: nat) returns (queued: Option<i64>)
    requires db.Valid() && Sending.Lawful(c) && Sending.Holds(c, db.stored, db.next, h) && Sending.Pending(h, mid, p)
    requires st.merged == ContentsOf(MergedView.ViewOf(h)) && tid !in st.pending
    modifies db`tree, db`table, db`stored
    ensures var after := h + [MergedView.Applied(mid, p)];
            && Sending.Holds(c, db.stored, db.next, after) && (queued.Some? <==> WriteOf(tid, mid, p).Some?)
            && (queued.None? ==> st.merged == ContentsOf(MergedView.ViewOf(after)))
            && (queued.Some? ==>
                  var step := WriteOf(tid, mid, p).value;
                  && Enabled(st, step) && Take(st, step).merged == ContentsOf(MergedView.ViewOf(after))
                  && Enabled(Take(st, step), Enqueue(tid))
                  && Take(Take(st, step), Enqueue(tid)).queue == st.queue + [queued.value])
  {
    hide *;
    queued := Sending.UpdateMerged(db, c, mid, p, h);
    WriteIs(st, tid, mid, p);
    ViewAfter(h, mid, p);
    ContentsAfter(MergedView.ViewOf(h), mid, p);
  }

  // ---------- what updater and handlers do to the groups is these steps ----------

  method UpdateStep(board: PinBoard, mid: i64, merged: Option<Payloads.Content>, fault: bool, ghost st: State)
    requires board.Valid() && board.groups == st.groups
    requires st.updater == InHand(mid, merged) && Enabled(st, ApplyUpdate)
    modifies board
    ensures board.Valid() && board.groups == Take(st, ApplyUpdate).groups
  {
    board.ProcessUpdate(mid, merged, fault);
  }

  method PinStep(board: PinBoard, gid: i64, uid: i64, isAdmin: bool, mid: i64, now: int, ghost st: State,
      merged: Option<Payloads.Content>) returns (r: Result<Pin, ApiError>)
    requires board.Valid() && board.groups == st.groups && merged == Current(st.merged, mid)
    requires Enabled(st, PinIt(gid, uid, isAdmin, mid, now))
    modifies board
    ensures board.Valid() && board.groups == Take(st, PinIt(gid, uid, isAdmin, mid, now)).groups
  {
    r := board.PinMessage(gid, uid, isAdmin, mid, now, merged, false);
  }

  method UnpinStep(board: PinBoard, gid: i64, uid: i64, isAdmin: bool, mid: i64, ghost st: State)
      returns (r: Result<(), ApiError>)
    requires board.Valid() && board.groups == st.groups && Enabled(st, UnpinIt(gid, uid, isAdmin, mid))
    modifies board
    ensures board.Valid() && board.groups == Take(st, UnpinIt(gid, uid, isAdmin, mid)).groups
  {
    r := board.UnpinMessage(gid, uid, isAdmin, mid, false);
  }

  /** Clearing that gets as far as removing the messages. */
  method ClearStep(board: PinBoard, gid: i64, uid: i64, isAdmin: bool, fault: bool, ghost mids: set<i64>,
      ghost st: State) returns (r: Result<(), ApiError>, messagesGone: bool)
    requires board.Valid() && board.groups == st.groups && Enabled(st, Step.Clear(gid, mids, fault))
    modifies board
    ensures board.Valid()
    ensures board.groups == if messagesGone then Take(st, Step.Clear(gid, mids, fault)).groups else st.groups
  {
    r, messagesGone := board.Clear(gid, uid, isAdmin, false, fault);
  }

  /** Groups come without pins and go with theirs; neither changes another group, a message or what is under way. */
  lemma GroupsComeAndGo(st: State, gid: i64, kind: GroupKind)
    requires st.pending == map[]
    ensures gid !in st.groups ==>
              var after := Take(st, CreateGroup(gid, kind));
              && after.groups.Keys == st.groups.Keys + {gid} && after.groups[gid] == PinGroup(kind, [])
              && after.groups - {gid} == st.groups && after.(groups := st.groups) == st
    ensures gid in st.groups ==>
              var after := Take(st, DeleteGroup(gid));
              && after.groups.Keys == st.groups.Keys - {gid}
              && after.groups == st.groups - {gid} && after.(groups := st.groups) == st
  {}

  // ---------- coherence ----------

  ghost predicate Coming(st: State, mid: i64) {
    mid in st.queue || exists t :: t in st.pending && st.pending[t] == mid
  }

  /** The updater will bring `mid` up to date: its id is queued or about to be, or the updater has
      yet to read it, or holds the current content. */
  ghost predicate Expected(st: State, mid: i64) {
    || Coming(st, mid)
    || st.updater == Holding(mid)
    || (mid in st.merged && st.updater == InHand(mid, Some(st.merged[mid])))
  }

  ghost predicate Coherent(st: State, pin: Pin) {
    pin.mid in st.merged && pin.content != st.merged[pin.mid] ==> Expected(st, pin.mid)
  }

  /** No message is pinned in two groups. */
  ghost predicate Unshared(groups: Groups) {
    forall g, h, p, q :: g in groups && h in groups && g != h && p in groups[g].pins && q in groups[h].pins ==>
      p.mid != q.mid
  }

  ghost predicate AllCoherent(st: State) {
    forall gid, pin :: gid in st.groups && pin in st.groups[gid].pins ==> Coherent(st, pin)
  }

  ghost predicate HandCurrent(st: State) {
    st.updater.InHand? && st.updater.mid in st.merged && st.updater.merged != Some(st.merged[st.updater.mid])
    ==> Coming(st, st.updater.mid)
  }

  ghost predicate Inv(st: State) {
    WellKept(st.groups) && Unshared(st.groups) && AllCoherent(st) && HandCurrent(st)
  }

  /** The step does not pin a message that another group has pinned already. */
  ghost predicate PinsAlone(st: State, step: Step) {
    step.PinIt? ==> Holders(st.groups, step.mid) <= {step.gid}
  }

  // ---------- every step keeps it ----------

  /** What the steps that leave the groups alone must do to keep everything coherent. */
  lemma SettledElsewhere(st: State, after: State)
    requires Inv(st) && after.groups == st.groups && HandCurrent(after)
    requires forall mid :: mid in after.merged && (mid !in st.merged || st.merged[mid] != after.merged[mid]) ==>
          Coming(after, mid)
    requires forall mid :: mid in after.merged && Expected(st, mid) ==> Expected(after, mid)
    ensures Inv(after)
  {
    forall gid, pin | gid in after.groups && pin in after.groups[gid].pins ensures Coherent(after, pin) {
      assert Coherent(st, pin);
    }
  }

  lemma StillComing(st: State, after: State, mid: i64)
    requires Coming(st, mid) && |after.queue| >= |st.queue| && after.queue[..|st.queue|] == st.queue
    requires forall t :: t in st.pending ==>
          (t in after.pending && after.pending[t] == st.pending[t]) || st.pending[t] in after.queue
    ensures Coming(after, mid)
  {
    if mid !in st.queue {
      var t :| t in st.pending && st.pending[t] == mid;
      assert t in st.pending;
    }
  }

  lemma WriteKeeps(st: State, step: Step)
    requires Inv(st) && Enabled(st, step) && (step.Insert? || step.Edit?)
    ensures Inv(Take(st, step))
  {
    var after := Take(st, step);
    forall mid | Coming(st, mid) ensures Coming(after, mid) { StillComing(st, after, mid); }
    assert Coming(after, step.mid) by { assert step.tid in after.pending && after.pending[step.tid] == step.mid; }
    SettledElsewhere(st, after);
  }

  lemma EnqueueKeeps(st: State, tid: nat)
    requires Inv(st) && Enabled(st, Enqueue(tid))
    ensures Inv(Take(st, Enqueue(tid)))
  {
    var after := Take(st, Enqueue(tid));
    assert after.queue[|st.queue|] == st.pending[tid];
    forall mid | Coming(st, mid) ensures Coming(after, mid) { StillComing(st, after, mid); }
    SettledElsewhere(st, after);
  }

  lemma PopKeeps(st: State)
    requires Inv(st) && Enabled(st, Pop)
    ensures Inv(Take(st, Pop))
  {
    var after := Take(st, Pop);
    forall mid | mid in after.merged && Expected(st, mid) ensures Expected(after, mid) {
      if mid in st.queue { assert mid == st.queue[0] || mid in st.queue[1..]; }
    }
    SettledElsewhere(st, after);
  }

  lemma ReadKeeps(st: State)
    requires Inv(st) && Enabled(st, Read)
    ensures Inv(Take(st, Read))
  {
    var after := Take(st, Read);
    forall mid | Coming(st, mid) ensures Coming(after, mid) { StillComing(st, after, mid); }
    SettledElsewhere(st, after);
  }

  lemma HolderOf(groups: Groups, gid: i64, mid: i64)
    requires Unshared(groups) && gid in groups && Holds(groups[gid].pins, mid)
    ensures Holders(groups, mid) == {gid} && Sorted(Holders(groups, mid)) == [gid]
  {
    forall g | g in Holders(groups, mid) ensures g == gid {
      var p, q := groups[g].pins[Find(groups[g].pins, mid)], groups[gid].pins[Find(groups[gid].pins, mid)];
      assert p in groups[g].pins && q in groups[gid].pins;
    }
    var holders := Holders(groups, mid);
    assert holders == {gid};
    assert Sorted(holders)[0] in Sorted(holders);
  }

  /** With no sharing the updater changes the only group that has the message pinned. */
  lemma UpdatedOnly(groups: Groups, mid: i64, merged: Option<Payloads.Content>, holder: i64)
    requires Unshared(groups) && holder in groups && Holds(groups[holder].pins, mid)
    ensures Updated(groups, mid, merged) ==
          groups[holder := groups[holder].(pins := Refresh(groups[holder].pins, mid, merged))]
  {
    HolderOf(groups, holder, mid);
  }

  /** Whatever is pinned after the updater has worked was pinned before, or carries what the updater read. */
  lemma UpdatedPins(groups: Groups, mid: i64, merged: Option<Payloads.Content>, gid: i64, pin: Pin)
    requires Unshared(groups) && (forall g :: g in groups ==> Distinct(groups[g].pins))
    requires var after := Updated(groups, mid, merged); gid in after && pin in after[gid].pins
    ensures gid in groups
    ensures || (pin in groups[gid].pins && pin.mid != mid)
            || (pin.mid == mid && merged == Some(pin.content) && Holds(groups[gid].pins, mid))
  {
    hide Updated, Refresh, Unshared;
    if holder :| holder in Holders(groups, mid) {
      UpdatedOnly(groups, mid, merged, holder);
      if gid == holder {
        RefreshElements(groups[gid].pins, mid, merged, pin);
      } else {
        OtherGroup(groups, holder, gid, mid, pin);
      }
    } else {
      NotUpdated(groups, mid, merged);
      NotHeld(groups[gid].pins, mid);
      assert gid !in Holders(groups, mid);
    }
  }

  lemma NotUpdated(groups: Groups, mid: i64, merged: Option<Payloads.Content>)
    requires forall holder :: holder !in Holders(groups, mid)
    ensures Updated(groups, mid, merged) == groups
  {}

  lemma OtherGroup(groups: Groups, holder: i64, gid: i64, mid: i64, pin: Pin)
    requires Unshared(groups) && holder in groups && gid in groups && gid != holder
    requires Holds(groups[holder].pins, mid) && pin in groups[gid].pins
    ensures pin.mid != mid
  {
    assert groups[holder].pins[Find(groups[holder].pins, mid)] in groups[holder].pins;
  }

  lemma UpdatedWellKept(groups: Groups, mid: i64, merged: Option<Payloads.Content>)
    requires WellKept(groups) && Unshared(groups)
    ensures WellKept(Updated(groups, mid, merged))
  {
    hide Refresh, Distinct, ByTime, Unshared;
    if Holders(groups, mid) != {} {
      var holder := Sorted(Holders(groups, mid))[0];
      assert holder in Sorted(Holders(groups, mid));
      RefreshDistinct(groups[holder].pins, mid, merged);
      RefreshByTime(groups[holder].pins, mid, merged);
    }
  }

  lemma WasPinned(groups: Groups, mid: i64, merged: Option<Payloads.Content>, gid: i64, pin: Pin) returns (before: Pin)
    requires WellKept(groups) && Unshared(groups)
    requires var after := Updated(groups, mid, merged); gid in after && pin in after[gid].pins
    ensures gid in groups && before in groups[gid].pins && before.mid == pin.mid
  {
    UpdatedPins(groups, mid, merged, gid, pin);
    before := if pin in groups[gid].pins then pin else groups[gid].pins[Find(groups[gid].pins, mid)];
  }

  lemma UpdatedUnshared(groups: Groups, mid: i64, merged: Option<Payloads.Content>)
    requires WellKept(groups) && Unshared(groups)
    ensures Unshared(Updated(groups, mid, merged))
  {
    var after := Updated(groups, mid, merged);
    forall g, h, p, q | g in after && h in after && g != h && p in after[g].pins && q in after[h].pins
      ensures p.mid != q.mid {
      var p0 := WasPinned(groups, mid, merged, g, p);
      var q0 := WasPinned(groups, mid, merged, h, q);
    }
  }

  lemma ApplyKeeps(st: State)
    requires Inv(st) && Enabled(st, ApplyUpdate)
    ensures Inv(Take(st, ApplyUpdate))
  {
    var after := Take(st, ApplyUpdate);
    UpdatedWellKept(st.groups, st.updater.mid, st.updater.merged);
    UpdatedUnshared(st.groups, st.updater.mid, st.updater.merged);
    forall gid, pin | gid in after.groups && pin in after.groups[gid].pins ensures Coherent(after, pin) {
      UpdatedPins(st.groups, st.updater.mid, st.updater.merged, gid, pin);
      if pin in st.groups[gid].pins && pin.mid != st.updater.mid { assert Coherent(st, pin); }
    }
  }

  /** Pins of the other groups stay; a pin of this one was there before or is the new one. */
  lemma PinKeeps(st: State, gid: i64, uid: i64, isAdmin: bool, mid: i64, now: int)
    requires Inv(st) && Enabled(st, PinIt(gid, uid, isAdmin, mid, now))
    requires PinsAlone(st, PinIt(gid, uid, isAdmin, mid, now))
    ensures Inv(Take(st, PinIt(gid, uid, isAdmin, mid, now)))
  {
    hide Coherent, Unshared, Place, Distinct, ByTime, Holds;
    var r := PinResult(st.groups, gid, uid, isAdmin, mid, now, Current(st.merged, mid));
    PinCoherent(st, gid, uid, isAdmin, mid, now);
    if r.Ok? {
      var pins := st.groups[gid].pins;
      NotHeld(pins, mid);
      PlaceDistinct(pins, r.value);
      PlaceByTime(pins, r.value);
      PinUnshared(st.groups, gid, r.value);
    }
  }

  lemma PinCoherent(st: State, gid: i64, uid: i64, isAdmin: bool, mid: i64, now: int)
    requires AllCoherent(st) && Enabled(st, PinIt(gid, uid, isAdmin, mid, now))
    ensures AllCoherent(Take(st, PinIt(gid, uid, isAdmin, mid, now)))
  {
    var r := PinResult(st.groups, gid, uid, isAdmin, mid, now, Current(st.merged, mid));
    if r.Ok? {
      PlaceElements(st.groups[gid].pins, r.value);
      var after := Take(st, PinIt(gid, uid, isAdmin, mid, now));
      forall g, pin | g in after.groups && pin in after.groups[g].pins ensures Coherent(after, pin) {
        if pin != r.value || g != gid { assert Coherent(st, pin); }
      }
    }
  }

  lemma PinUnshared(groups: Groups, gid: i64, pin: Pin)
    requires Unshared(groups) && gid in groups && Holders(groups, pin.mid) <= {gid}
    ensures Unshared(WithPin(groups, gid, pin))
  {
    hide Place, Holds, Distinct;
    PlaceElements(groups[gid].pins, pin);
    forall g | g in groups && g != gid ensures Free(groups[g].pins, pin.mid) {
      assert g !in Holders(groups, pin.mid);
      NotHeld(groups[g].pins, pin.mid);
    }
  }

  /** A step that only drops pins, and may drop merged messages, keeps everything coherent. */
  lemma FewerPins(st: State, after: State)
    requires Inv(st) && after.queue == st.queue && after.pending == st.pending && after.updater == st.updater
    requires forall g :: g in after.groups ==> Distinct(after.groups[g].pins) && ByTime(after.groups[g].pins)
    requires forall g, pin :: g in after.groups && pin in after.groups[g].pins ==>
          g in st.groups && pin in st.groups[g].pins
    requires forall mid :: mid in after.merged ==> mid in st.merged && after.merged[mid] == st.merged[mid]
    ensures Inv(after)
  {
    forall g, pin | g in after.groups && pin in after.groups[g].pins ensures Coherent(after, pin) {
      assert Coherent(st, pin);
    }
  }

  lemma UnpinKeeps(st: State, gid: i64, uid: i64, isAdmin: bool, mid: i64)
    requires Inv(st) && Enabled(st, UnpinIt(gid, uid, isAdmin, mid))
    ensures Inv(Take(st, UnpinIt(gid, uid, isAdmin, mid)))
  {
    if UnpinResult(st.groups, gid, uid, isAdmin, mid).Ok? {
      var after := Take(st, UnpinIt(gid, uid, isAdmin, mid));
      RefreshDistinct(st.groups[gid].pins, mid, None);
      RefreshByTime(st.groups[gid].pins, mid, None);
      forall g, pin | g in after.groups && pin in after.groups[g].pins ensures pin in st.groups[g].pins {
        if g == gid { RefreshElements(st.groups[gid].pins, mid, None, pin); }
      }
      FewerPins(st, after);
    }
  }

  lemma GroupStepKeeps(st: State, step: Step)
    requires Inv(st) && Enabled(st, step) && (step.Clear? || step.CreateGroup? || step.DeleteGroup?)
    ensures Inv(Take(st, step))
  {
    FewerPins(st, Take(st, step));
  }

  lemma StepKeeps(st: State, step: Step)
    requires Inv(st) && Enabled(st, step) && PinsAlone(st, step)
    ensures Inv(Take(st, step))
  {
    hide Inv;
    match step {
      case Insert(_, _, _) => WriteKeeps(st, step);
      case Edit(_, _, _) => WriteKeeps(st, step);
      case Enqueue(tid) => EnqueueKeeps(st, tid);
      case Pop => PopKeeps(st);
      case Read => ReadKeeps(st);
      case ApplyUpdate => ApplyKeeps(st);
      case PinIt(gid, uid, isAdmin, mid, now) => PinKeeps(st, gid, uid, isAdmin, mid, now);
      case UnpinIt(gid, uid, isAdmin, mid) => UnpinKeeps(st, gid, uid, isAdmin, mid);
      case _ => GroupStepKeeps(st, step);
    }
  }

  /** Along the whole run no message is pinned while another group has it pinned. */
  ghost predicate PinnedOnce(start: State, steps: seq<Step>) {
    forall i :: 0 <= i < |steps| ==> PinsAlone(Run(start, steps[..i]), steps[i])
  }

  lemma {:induction false} RunKeeps(start: State, steps: seq<Step>)
    requires Inv(start) && PinnedOnce(start, steps)
    ensures Inv(Run(start, steps))
  {
    if steps != [] {
      var before := steps[..|steps| - 1];
      forall i | 0 <= i < |before| ensures PinsAlone(Run(start, before[..i]), before[i]) {
        assert before[..i] == steps[..i];
      }
      RunKeeps(start, before);
      assert PinsAlone(Run(start, before), steps[|steps| - 1]);
      if Enabled(Run(start, before), steps[|steps| - 1]) { StepKeeps(Run(start, before), steps[|steps| - 1]); }
    }
  }

  // ---------- once everything has settled ----------

  ghost predicate Settled(st: State) { st.queue == [] && st.pending == map[] && st.updater.Idle? }

  /** At every moment a pinned copy that is out of date is about to be brought up to date ... */
  lemma OutdatedPinsAreExpected(start: State, steps: seq<Step>, gid: i64, pin: Pin)
    requires Inv(start) && PinnedOnce(start, steps)
    requires var st := Run(start, steps); gid in st.groups && pin in st.groups[gid].pins && pin.mid in st.merged
    ensures var st := Run(start, steps); pin.content == st.merged[pin.mid] || Expected(st, pin.mid)
  {
    RunKeeps(start, steps);
    assert Coherent(Run(start, steps), pin);
  }

  /** ... so when nothing is under way every pinned copy equals the merged message. */
  lemma SettledPinsAreCurrent(start: State, steps: seq<Step>, gid: i64, pin: Pin)
    requires Inv(start) && PinnedOnce(start, steps) && Settled(Run(start, steps))
    requires var st := Run(start, steps); gid in st.groups && pin in st.groups[gid].pins && pin.mid in st.merged
    ensures pin.content == Run(start, steps).merged[pin.mid]
  {
    OutdatedPinsAreExpected(start, steps, gid, pin);
  }

  // ---------- a message pinned in several groups ----------

  ghost predicate PinsCarry(groups: Groups, mid: i64, content: Payloads.Content) {
    forall gid, pin :: gid in groups && pin in groups[gid].pins && pin.mid == mid ==> pin.content == content
  }

  /** One edit, from the sender's write to the end of the updater's turn. */
  function EditRound(tid: nat, mid: i64, content: Payloads.Content): seq<Step> {
    [Edit(tid, mid, content), Enqueue(tid), Pop, Read, ApplyUpdate]
  }

  lemma EditRoundSteps(st: State, tid: nat, mid: i64, content: Payloads.Content)
    requires Settled(st) && mid in st.merged
    ensures var s1 := st.(merged := st.merged[mid := content], pending := map[tid := mid]);
            var s2 := s1.(pending := map[], queue := [mid]);
            var s3 := s2.(queue := [], updater := Holding(mid));
            var s4 := s3.(updater := InHand(mid, Some(content)));
            && Enabled(st, Edit(tid, mid, content)) && Take(st, Edit(tid, mid, content)) == s1
            && Enabled(s1, Enqueue(tid)) && Take(s1, Enqueue(tid)) == s2
            && Enabled(s2, Pop) && Take(s2, Pop) == s3
            && Enabled(s3, Read) && Take(s3, Read) == s4
            && Enabled(s4, ApplyUpdate)
            && Take(s4, ApplyUpdate) ==
                 st.(merged := st.merged[mid := content], groups := Updated(st.groups, mid, Some(content)))
  {
    hide Updated, PinResult, UnpinResult, WithPin, WithoutPin;
    assert map[tid := mid] - {tid} == map[];
  }

  lemma EditRoundRuns(st: State, tid: nat, mid: i64, content: Payloads.Content)
    requires Settled(st) && mid in st.merged
    ensures Run(st, EditRound(tid, mid, content))
            == st.(merged := st.merged[mid := content], groups := Updated(st.groups, mid, Some(content)))
  {
    hide Updated, Take, Enabled;
    EditRoundSteps(st, tid, mid, content);
    assert Run(st, []) == st;
    hide Run, Settled;
    RunSnoc(st, [], Edit(tid, mid, content));
    RunSnoc(st, [] + [Edit(tid, mid, content)], Enqueue(tid));
    RunSnoc(st, [] + [Edit(tid, mid, content)] + [Enqueue(tid)], Pop);
    RunSnoc(st, [] + [Edit(tid, mid, content)] + [Enqueue(tid)] + [Pop], Read);
    RunSnoc(st, [] + [Edit(tid, mid, content)] + [Enqueue(tid)] + [Pop] + [Read], ApplyUpdate);
    assert EditRound(tid, mid, content)
        == [] + [Edit(tid, mid, content)] + [Enqueue(tid)] + [Pop] + [Read] + [ApplyUpdate];
  }

  lemma RunSnoc(start: State, steps: seq<Step>, step: Step)
    ensures Run(start, steps + [step]) ==
              var st := Run(start, steps); if Enabled(st, step) then Take(st, step) else st
  {
    assert (steps + [step])[..|steps|] == steps;
  }

  lemma UpdateReachesAll(groups: Groups, mid: i64, before: Payloads.Content, content: Payloads.Content)
    requires forall g :: g in groups ==> Distinct(groups[g].pins)
    requires PinsCarry(groups, mid, before) && before != content
    ensures PinsCarry(Updated(groups, mid, Some(content)), mid, content) <==> |Holders(groups, mid)| <= 1
  {
    var holders := Holders(groups, mid);
    var after := Updated(groups, mid, Some(content));
    if |holders| > 1 {
      var first, second := Sorted(holders)[0], Sorted(holders)[1];
      assert second in Sorted(holders) && first != second;
      var pin := groups[second].pins[Find(groups[second].pins, mid)];
      assert pin in after[second].pins && pin.content == before;
    } else {
      forall gid, pin | gid in after && pin in after[gid].pins && pin.mid == mid ensures pin.content == content {
        OnlyHolder(groups, mid, content, gid, pin);
      }
    }
  }

  lemma OnlyHolder(groups: Groups, mid: i64, content: Payloads.Content, gid: i64, pin: Pin)
    requires (forall g :: g in groups ==> Distinct(groups[g].pins)) && |Holders(groups, mid)| <= 1
    requires var after := Updated(groups, mid, Some(content)); gid in after && pin in after[gid].pins && pin.mid == mid
    ensures pin.content == content
  {
    var holders := Holders(groups, mid);
    if holders == {} {
      assert gid !in holders;
      NotHeld(groups[gid].pins, mid);
    } else {
      var first := Sorted(holders)[0];
      assert first in Sorted(holders);
      if gid == first {
        RefreshElements(groups[gid].pins, mid, Some(content), pin);
      } else {
        NotHeld(groups[gid].pins, mid);
        assert {first, gid} <= holders;
        SubsetSize({first, gid}, holders);
      }
    }
  }

  /** After an edit has been worked off, all pinned copies of the message carry the new
      content exactly when at most one group had it pinned: the updater stops at the first. */
  lemma EditReachesAllPins(st: State, tid: nat, mid: i64, content: Payloads.Content)
    requires Settled(st) && mid in st.merged && st.merged[mid] != content
    requires (forall g :: g in st.groups ==> Distinct(st.groups[g].pins)) && PinsCarry(st.groups, mid, st.merged[mid])
    ensures var after := Run(st, EditRound(tid, mid, content));
            && Settled(after) && after.merged == st.merged[mid := content]
            && (PinsCarry(after.groups, mid, content) <==> |Holders(st.groups, mid)| <= 1)
  {
    EditRoundRuns(st, tid, mid, content);
    UpdateReachesAll(st.groups, mid, st.merged[mid], content);
  }
}
