/** Pinned messages: copies of message contents kept in the groups, brought up to
    date by a background updater after every edit. */
module Pinned {
  import opened Bytes
  import opened Results
  import opened Ordered
  import opened GroupKinds
  import Payloads

  datatype Pin = Pin(mid: i64, createdBy: i64, createdAt: int, content: Payloads.Content)
  datatype PinGroup = PinGroup(kind: GroupKind, pins: seq<Pin>)
  type Groups = map<i64, PinGroup>

  // ---------- one list of pinned messages ----------

  /** The position of the first pin of `mid`, or the length if there is none. */
  function Find(pins: seq<Pin>, mid: i64): (k: nat)
    ensures k <= |pins| && (k < |pins| ==> pins[k].mid == mid)
    ensures forall i :: 0 <= i < k ==> pins[i].mid != mid
  {
    if pins == [] then 0 else if pins[0].mid == mid then 0 else 1 + Find(pins[1..], mid)
  }

  predicate Holds(pins: seq<Pin>, mid: i64) { Find(pins, mid) < |pins| }

  predicate Distinct(pins: seq<Pin>) {
    forall i, j :: 0 <= i < j < |pins| ==> pins[i].mid != pins[j].mid
  }

  predicate ByTime(pins: seq<Pin>) {
    forall i, j :: 0 <= i < j < |pins| ==> pins[i].createdAt <= pins[j].createdAt
  }

  /** The pin takes its new content, or goes if its message is gone. */
  function Refresh(pins: seq<Pin>, mid: i64, merged: Option<Payloads.Content>): seq<Pin>
    requires Holds(pins, mid)
  {
    var k := Find(pins, mid);
    match merged
    case Some(content) => pins[k := pins[k].(content := content)]
    case None => pins[..k] + pins[k + 1..]
  }

  function Without(pins: seq<Pin>, mid: i64): seq<Pin>
    requires Holds(pins, mid)
  {
    Refresh(pins, mid, None)
  }

  /** Appending and a stable sort by time: the pin goes behind all that are not newer. */
  function Place(pins: seq<Pin>, pin: Pin): (r: seq<Pin>)
    ensures |r| == |pins| + 1 && multiset(r) == multiset(pins) + multiset{pin}
  {
    if pins == [] || pins[|pins| - 1].createdAt <= pin.createdAt then pins + [pin]
    else
      var last := |pins| - 1;
      assert pins == pins[..last] + [pins[last]];
      Place(pins[..last], pin) + [pins[last]]
  }

  // ---------- what the background updater changes ----------

  ghost function Holders(groups: Groups, mid: i64): set<i64> {
    set gid | gid in groups && Holds(groups[gid].pins, mid)
  }

  /** Only the first group that has the message pinned is brought up to date. */
  ghost function Updated(groups: Groups, mid: i64, merged: Option<Payloads.Content>): Groups {
    if Holders(groups, mid) == {} then groups else
      var gid := Sorted(Holders(groups, mid))[0];
      assert gid in Sorted(Holders(groups, mid));
      groups[gid := groups[gid].(pins := Refresh(groups[gid].pins, mid, merged))]
  }

  // ---------- the rows behind the pins ----------

  /** A row of the table of pinned messages. */
  datatype Row = Row(gid: i64, mid: i64, createdBy: i64, createdAt: int)

  function RowOf(gid: i64, pin: Pin): Row { Row(gid, pin.mid, pin.createdBy, pin.createdAt) }

  /** What a deletion by group and message removes. */
  function Deleted(rows: set<Row>, gid: i64, mid: i64): set<Row> {
    set row | row in rows && !(row.gid == gid && row.mid == mid)
  }

  ghost predicate WellKept(groups: Groups) {
    forall gid :: gid in groups ==> Distinct(groups[gid].pins) && ByTime(groups[gid].pins)
  }

  /** Every pin has its row. */
  ghost predicate HasRows(groups: Groups, rows: set<Row>) {
    forall gid, pin :: gid in groups && pin in groups[gid].pins ==> RowOf(gid, pin) in rows
  }

  /** Every row of a group has its pin. */
  ghost predicate NoStrayRows(groups: Groups, rows: set<Row>) {
    forall row :: row in rows && row.gid in groups ==>
      exists pin :: pin in groups[row.gid].pins && RowOf(row.gid, pin) == row
  }

  /** The groups as the cache holds them, and the table behind it. */
  class PinBoard {
    var groups: Groups
    var rows: set<Row>

    ghost predicate Valid()
      reads this
    {
      WellKept(groups) && HasRows(groups, rows)
    }

    constructor (groups: Groups, rows: set<Row>)
      requires WellKept(groups) && HasRows(groups, rows)
      ensures Valid() && this.groups == groups && this.rows == rows
    {
      this.groups, this.rows := groups, rows;
    }

    /** The loop over the groups, in ascending order, up to the first that has `mid` pinned. */
    method FirstGroupWith(mid: i64) returns (found: Option<i64>)
      ensures found == if Holders(groups, mid) == {} then None else Some(Sorted(Holders(groups, mid))[0])
      ensures found.Some? ==> found.value in groups && Holds(groups[found.value].pins, mid)
    {
      IntOrder();
      var gids := Iterate<i64>(IntLess, groups.Keys);
      for i := 0 to |gids|
        invariant forall j :: 0 <= j < i ==> gids[j] in groups && !Holds(groups[gids[j]].pins, mid)
      {
        assert gids[i] in groups.Keys;
        if Find(groups[gids[i]].pins, mid) < |groups[gids[i]].pins| {
          FirstHolder(groups, mid, gids, i);
          return Some(gids[i]);
        }
      }
      NoHolder(groups, mid, gids);
      found := None;
    }

    /** `process_msg_updated` for one message, under the write guard. A pin whose message is gone is dropped first;
        if its row cannot be deleted then, the row stays. */
    method ProcessUpdate(mid: i64, merged: Option<Payloads.Content>, fault: bool)
      requires Valid()
      modifies this
      ensures Valid() && groups == Updated(old(groups), mid, merged)
      ensures rows == if merged.Some? || fault || Holders(old(groups), mid) == {} then old(rows)
                      else Deleted(old(rows), Sorted(Holders(old(groups), mid))[0], mid)
      ensures old(NoStrayRows(groups, rows)) && !fault ==> NoStrayRows(groups, rows)
    {
      hide WellKept, HasRows, NoStrayRows, Deleted, Refresh, Holders;
      var found := FirstGroupWith(mid);
      if found.Some? {
        RefreshKeeps(groups, rows, found.value, mid, merged);
        Updates(groups, mid, merged, found.value);
        var group := groups[found.value];
        var idx := Find(group.pins, mid);
        match merged {
          case Some(content) =>
            RefreshIs(group.pins, mid, merged);
            groups := groups[found.value := group.(pins := group.pins[idx := group.pins[idx].(content := content)])];
          case None =>
            RefreshIs(group.pins, mid, merged);
            groups := groups[found.value := group.(pins := group.pins[..idx] + group.pins[idx + 1..])];
            if !fault { rows := Deleted(rows, found.value, mid); }
        }
      }
    }

    method PinMessage(gid: i64, uid: i64, isAdmin: bool, mid: i64, now: int, merged: Option<Payloads.Content>,
        fault: bool)
        returns (r: Result<Pin, ApiError>)
      requires Valid()
      modifies this
      ensures Valid() && r == OrFailed(PinResult(old(groups), gid, uid, isAdmin, mid, now, merged), fault)
      ensures groups == if r.Ok? then WithPin(old(groups), gid, r.value) else old(groups)
      ensures rows == if r.Ok? then old(rows) + {RowOf(gid, r.value)} else old(rows)
      ensures old(NoStrayRows(groups, rows)) ==> NoStrayRows(groups, rows)
    {
      if gid !in groups { return Err(NotFound); }
      var group := groups[gid];
      if !MayManage(group.kind, uid, isAdmin) { return Err(Forbidden); }
      if Find(group.pins, mid) < |group.pins| { return Err(Conflict); }
      if merged.None? { return Err(NotFound); }
      if fault { return Err(Internal); }
      var pin := Pin(mid, uid, now, merged.value);
      hide WellKept, HasRows, NoStrayRows;
      WithPinKeeps(groups, rows, gid, pin);
      rows := rows + {Row(gid, mid, uid, now)};
      groups := groups[gid := group.(pins := Place(group.pins, pin))];
      return Ok(pin);
    }

    method UnpinMessage(gid: i64, uid: i64, isAdmin: bool, mid: i64, fault: bool) returns (r: Result<(), ApiError>)
      requires Valid()
      modifies this
      ensures Valid() && r == OrFailed(UnpinResult(old(groups), gid, uid, isAdmin, mid), fault)
      ensures groups == if r.Ok? then WithoutPin(old(groups), gid, mid) else old(groups)
      ensures rows == if r.Ok? then Deleted(old(rows), gid, mid) else old(rows)
      ensures old(NoStrayRows(groups, rows)) ==> NoStrayRows(groups, rows)
    {
      if gid !in groups { return Err(NotFound); }
      var group := groups[gid];
      if !MayManage(group.kind, uid, isAdmin) { return Err(Forbidden); }
      var idx := Find(group.pins, mid);
      if idx == |group.pins| { return Err(NotFound); }
      if fault { return Err(Internal); }
      hide WellKept, HasRows, NoStrayRows, Deleted;
      RefreshKeeps(groups, rows, gid, mid, None);
      RefreshIs(group.pins, mid, None);
      rows := Deleted(rows, gid, mid);
      groups := groups[gid := group.(pins := group.pins[..idx] + group.pins[idx + 1..])];
      return Ok(());
    }

    /** The part of clearing a group that concerns pins. The messages go first; if the transaction fails then,
        pins and rows stay although their messages are gone. */
    method Clear(gid: i64, uid: i64, isAdmin: bool, messagesFault: bool, fault: bool)
        returns (r: Result<(), ApiError>, messagesGone: bool)
      requires Valid()
      modifies this
      ensures Valid()
      ensures r == OrFailed(ClearResult(old(groups), gid, uid, isAdmin), messagesFault || fault)
      ensures messagesGone <==> ClearResult(old(groups), gid, uid, isAdmin).Ok? && !messagesFault
      ensures groups == if r.Ok? then old(groups)[gid := old(groups)[gid].(pins := [])] else old(groups)
      ensures rows == if r.Ok? then (set row | row in old(rows) && row.gid != gid) else old(rows)
      ensures old(NoStrayRows(groups, rows)) ==> NoStrayRows(groups, rows)
    {
      if gid !in groups { return Err(NotFound), false; }
      if !MayManage(groups[gid].kind, uid, isAdmin) { return Err(Forbidden), false; }
      if messagesFault { return Err(Internal), false; }
      if fault { return Err(Internal), true; }
      rows := set row | row in rows && row.gid != gid;
      groups := groups[gid := groups[gid].(pins := [])];
      return Ok(()), true;
    }
  }

  // ---------- what pinning and unpinning answer and change ----------

  function PinResult(groups: Groups, gid: i64, uid: i64, isAdmin: bool, mid: i64, now: int,
      merged: Option<Payloads.Content>)
      : Result<Pin, ApiError>
  {
    if gid !in groups then Err(NotFound)
    else if !MayManage(groups[gid].kind, uid, isAdmin) then Err(Forbidden)
    else if Holds(groups[gid].pins, mid) then Err(Conflict)
    else match merged
      case None => Err(NotFound)
      case Some(content) => Ok(Pin(mid, uid, now, content))
  }

  /** A statement that fails turns a success into an error. */
  function OrFailed<T>(r: Result<T, ApiError>, fault: bool): Result<T, ApiError> {
    if r.Ok? && fault then Err(Internal) else r
  }

  function ClearResult(groups: Groups, gid: i64, uid: i64, isAdmin: bool): Result<(), ApiError> {
    if gid !in groups then Err(NotFound)
    else if !MayManage(groups[gid].kind, uid, isAdmin) then Err(Forbidden)
    else Ok(())
  }

  function WithPin(groups: Groups, gid: i64, pin: Pin): Groups
    requires gid in groups
  {
    groups[gid := groups[gid].(pins := Place(groups[gid].pins, pin))]
  }

  function UnpinResult(groups: Groups, gid: i64, uid: i64, isAdmin: bool, mid: i64): Result<(), ApiError> {
    if gid !in groups then Err(NotFound)
    else if !MayManage(groups[gid].kind, uid, isAdmin) then Err(Forbidden)
    else if !Holds(groups[gid].pins, mid) then Err(NotFound)
    else Ok(())
  }

  function WithoutPin(groups: Groups, gid: i64, mid: i64): Groups
    requires gid in groups && Holds(groups[gid].pins, mid)
  {
    groups[gid := groups[gid].(pins := Without(groups[gid].pins, mid))]
  }

  /** Pinning is for administrators and the owner of a private group. It succeeds for a message that is there and not
      pinned in the group yet, and the pin says who pinned it, when, and what the message says now. */
  lemma PinningIs(groups: Groups, gid: i64, uid: i64, isAdmin: bool, mid: i64, now: int,
      merged: Option<Payloads.Content>)
    ensures var r := PinResult(groups, gid, uid, isAdmin, mid, now, merged);
            && (r == Err(Forbidden) <==> gid in groups && !isAdmin && groups[gid].kind != Private(uid))
            && (gid in groups && (isAdmin || groups[gid].kind == Private(uid)) ==>
                  && (r == Err(Conflict) <==> exists i :: 0 <= i < |groups[gid].pins| && groups[gid].pins[i].mid == mid)
                  && (r == Err(NotFound) <==> r != Err(Conflict) && merged.None?))
            && (gid !in groups ==> r == Err(NotFound))
            && (r.Ok? ==>
                  && r.value.mid == mid && r.value.createdBy == uid && r.value.createdAt == now
                  && merged == Some(r.value.content))
            && (r.Err? ==> r.error in {Forbidden, Conflict, NotFound})
  {
    if gid in groups { NotHeld(groups[gid].pins, mid); }
  }

  lemma UnpinningIs(groups: Groups, gid: i64, uid: i64, isAdmin: bool, mid: i64)
    ensures var r := UnpinResult(groups, gid, uid, isAdmin, mid);
            && (r == Err(Forbidden) <==> gid in groups && !isAdmin && groups[gid].kind != Private(uid))
            && (r == Err(NotFound) <==>
                  || gid !in groups
                  || ((isAdmin || groups[gid].kind == Private(uid))
                      && forall i :: 0 <= i < |groups[gid].pins| ==> groups[gid].pins[i].mid != mid))
            && (r.Err? ==> r.error in {Forbidden, NotFound})
    ensures var r := ClearResult(groups, gid, uid, isAdmin);
            && (r == Err(NotFound) <==> gid !in groups)
            && (r == Err(Forbidden) <==> gid in groups && !isAdmin && groups[gid].kind != Private(uid))
            && (r.Err? ==> r.error in {Forbidden, NotFound})
  {
    if gid in groups { NotHeld(groups[gid].pins, mid); }
  }

  /** The new pin stands behind all that are not newer, and all others stay in their order. */
  lemma {:induction false} PlacedBehind(pins: seq<Pin>, pin: Pin) returns (k: nat)
    requires ByTime(pins)
    ensures k <= |pins| && Place(pins, pin) == pins[..k] + [pin] + pins[k..]
    ensures forall i :: 0 <= i < |pins| ==> (pins[i].createdAt <= pin.createdAt <==> i < k)
  {
    hide Place, ByTime;
    BeforeLast(pins);
    PlaceStep(pins, pin);
    if pins == [] || pins[|pins| - 1].createdAt <= pin.createdAt {
      k := |pins|;
      assert pins[..k] == pins && pins[k..] == [];
      forall i | 0 <= i < |pins| ensures pins[i].createdAt <= pin.createdAt { assert pins[i] in pins; }
    } else {
      var last := |pins| - 1;
      k := PlacedBehind(pins[..last], pin);
      PutBack(pins, pin, k);
      forall i | 0 <= i < |pins| ensures pins[i].createdAt <= pin.createdAt <==> i < k {
        if i < last { assert pins[..last][i] == pins[i]; }
      }
    }
  }

  lemma PlaceStep(pins: seq<Pin>, pin: Pin)
    ensures Place(pins, pin) ==
            if pins == [] || pins[|pins| - 1].createdAt <= pin.createdAt then pins + [pin]
            else Place(pins[..|pins| - 1], pin) + [pins[|pins| - 1]]
  {}

  lemma PutBack(pins: seq<Pin>, pin: Pin, k: nat)
    requires k < |pins|
    ensures var last := |pins| - 1;
            pins[..last][..k] + [pin] + pins[..last][k..] + [pins[last]] == pins[..k] + [pin] + pins[k..]
  {
    var last := |pins| - 1;
    assert pins[..last][..k] == pins[..k] && pins[..last][k..] + [pins[last]] == pins[k..];
  }

  /** Unpinning takes away that pin and nothing else, whatever stands where. */
  lemma UnpinnedIs(groups: Groups, gid: i64, mid: i64) returns (k: nat)
    requires gid in groups && Holds(groups[gid].pins, mid)
    ensures var pins, after := groups[gid].pins, WithoutPin(groups, gid, mid);
            && k < |pins| && pins[k].mid == mid
            && after == groups[gid := groups[gid].(pins := pins[..k] + pins[k + 1..])]
  {
    k := Find(groups[gid].pins, mid);
  }

  // ---------- lists stay free of duplicates and in order of time ----------

  lemma RefreshElements(pins: seq<Pin>, mid: i64, merged: Option<Payloads.Content>, pin: Pin)
    requires Distinct(pins) && Holds(pins, mid) && pin in Refresh(pins, mid, merged)
    ensures (pin in pins && pin.mid != mid) || (pin.mid == mid && merged == Some(pin.content))
  {}

  lemma RefreshDistinct(pins: seq<Pin>, mid: i64, merged: Option<Payloads.Content>)
    requires Distinct(pins) && Holds(pins, mid)
    ensures Distinct(Refresh(pins, mid, merged))
  {}

  lemma RefreshByTime(pins: seq<Pin>, mid: i64, merged: Option<Payloads.Content>)
    requires ByTime(pins) && Holds(pins, mid)
    ensures ByTime(Refresh(pins, mid, merged))
  {}

  lemma {:induction false} PlaceElements(pins: seq<Pin>, pin: Pin)
    ensures forall p :: p in Place(pins, pin) <==> p in pins || p == pin
  {
    assert forall p :: p in Place(pins, pin) <==> p in multiset(Place(pins, pin));
    assert forall p :: p in pins <==> p in multiset(pins);
  }

  lemma AppendByTime(pins: seq<Pin>, last: Pin)
    requires ByTime(pins) && forall p :: p in pins ==> p.createdAt <= last.createdAt
    ensures ByTime(pins + [last])
  {
    forall i, j | 0 <= i < j < |pins| + 1 ensures (pins + [last])[i].createdAt <= (pins + [last])[j].createdAt {
      if j == |pins| { assert pins[i] in pins; }
    }
  }

  lemma {:induction false} PlaceByTime(pins: seq<Pin>, pin: Pin)
    requires ByTime(pins)
    ensures ByTime(Place(pins, pin))
  {
    if pins != [] && pins[|pins| - 1].createdAt > pin.createdAt {
      var last := |pins| - 1;
      PlaceByTime(pins[..last], pin);
      PlaceElements(pins[..last], pin);
      hide ByTime;
      assert forall p :: p in pins[..last] ==> p.createdAt <= pins[last].createdAt by { BeforeLast(pins); }
      AppendByTime(Place(pins[..last], pin), pins[last]);
    } else {
      BeforeLast(pins);
      AppendByTime(pins, pin);
    }
  }

  lemma BeforeLast(pins: seq<Pin>)
    requires ByTime(pins)
    ensures pins != [] ==> ByTime(pins[..|pins| - 1])
    ensures pins != [] ==> forall p :: p in pins ==> p.createdAt <= pins[|pins| - 1].createdAt
  {}

  predicate Free(pins: seq<Pin>, mid: i64) { forall i :: 0 <= i < |pins| ==> pins[i].mid != mid }

  lemma NotHeld(pins: seq<Pin>, mid: i64)
    ensures Holds(pins, mid) <==> !Free(pins, mid)
  {}

  lemma AppendDistinct(pins: seq<Pin>, last: Pin)
    requires Distinct(pins) && forall p :: p in pins ==> p.mid != last.mid
    ensures Distinct(pins + [last])
  {
    forall i, j | 0 <= i < j < |pins| + 1 ensures (pins + [last])[i].mid != (pins + [last])[j].mid {
      if j == |pins| { assert pins[i] in pins; }
    }
  }

  lemma {:induction false} PlaceDistinct(pins: seq<Pin>, pin: Pin)
    requires Distinct(pins) && Free(pins, pin.mid)
    ensures Distinct(Place(pins, pin))
  {
    if pins != [] && pins[|pins| - 1].createdAt > pin.createdAt {
      var last := |pins| - 1;
      PlaceDistinct(pins[..last], pin);
      PlaceElements(pins[..last], pin);
      assert forall p :: p in pins[..last] ==> p.mid != pins[last].mid;
      AppendDistinct(Place(pins[..last], pin), pins[last]);
    } else {
      AppendDistinct(pins, pin);
    }
  }

  // ---------- pins and rows stay together ----------

  lemma WithPinKeeps(groups: Groups, rows: set<Row>, gid: i64, pin: Pin)
    requires WellKept(groups) && HasRows(groups, rows) && gid in groups && !Holds(groups[gid].pins, pin.mid)
    ensures var after := WithPin(groups, gid, pin);
            && WellKept(after) && HasRows(after, rows + {RowOf(gid, pin)})
            && (NoStrayRows(groups, rows) ==> NoStrayRows(after, rows + {RowOf(gid, pin)}))
  {
    var pins := groups[gid].pins;
    NotHeld(pins, pin.mid);
    PlaceDistinct(pins, pin);
    PlaceByTime(pins, pin);
    PlaceElements(pins, pin);
    if NoStrayRows(groups, rows) { PinnedRows(groups, rows, gid, pin); }
  }

  lemma PinnedRows(groups: Groups, rows: set<Row>, gid: i64, pin: Pin)
    requires NoStrayRows(groups, rows) && gid in groups
    ensures NoStrayRows(WithPin(groups, gid, pin), rows + {RowOf(gid, pin)})
  {
    PlaceElements(groups[gid].pins, pin);
    var after := WithPin(groups, gid, pin);
    forall row | row in rows + {RowOf(gid, pin)} && row.gid in after
      ensures exists p :: p in after[row.gid].pins && RowOf(row.gid, p) == row
    {
      if row in rows {
        var p :| p in groups[row.gid].pins && RowOf(row.gid, p) == row;
        assert p in after[row.gid].pins;
      } else {
        assert pin in after[gid].pins;
      }
    }
  }

  function RefreshedIn(groups: Groups, gid: i64, mid: i64, merged: Option<Payloads.Content>): Groups
    requires gid in groups && Holds(groups[gid].pins, mid)
  {
    groups[gid := groups[gid].(pins := Refresh(groups[gid].pins, mid, merged))]
  }

  lemma Updates(groups: Groups, mid: i64, merged: Option<Payloads.Content>, gid: i64)
    requires Holders(groups, mid) != {} && Sorted(Holders(groups, mid))[0] == gid
    ensures gid in groups && Holds(groups[gid].pins, mid)
    ensures Updated(groups, mid, merged) == RefreshedIn(groups, gid, mid, merged)
  {
    assert gid in Sorted(Holders(groups, mid));
  }

  lemma RefreshIs(pins: seq<Pin>, mid: i64, merged: Option<Payloads.Content>)
    requires Holds(pins, mid)
    ensures var k := Find(pins, mid);
            Refresh(pins, mid, merged) == match merged
                                          case Some(content) => pins[k := pins[k].(content := content)]
                                          case None => pins[..k] + pins[k + 1..]
  {}

  lemma RefreshKeeps(groups: Groups, rows: set<Row>, gid: i64, mid: i64, merged: Option<Payloads.Content>)
    requires WellKept(groups) && HasRows(groups, rows) && gid in groups && Holds(groups[gid].pins, mid)
    ensures var after := RefreshedIn(groups, gid, mid, merged);
            && WellKept(after) && HasRows(after, rows)
            && (merged.None? ==> HasRows(after, Deleted(rows, gid, mid)))
            && (NoStrayRows(groups, rows) ==>
                  NoStrayRows(after, if merged.None? then Deleted(rows, gid, mid) else rows))
  {
    RefreshDistinct(groups[gid].pins, mid, merged);
    RefreshByTime(groups[gid].pins, mid, merged);
    RefreshedRows(groups, rows, gid, mid, merged);
    if NoStrayRows(groups, rows) { RefreshedStray(groups, rows, gid, mid, merged); }
  }

  lemma RefreshedRows(groups: Groups, rows: set<Row>, gid: i64, mid: i64, merged: Option<Payloads.Content>)
    requires WellKept(groups) && HasRows(groups, rows) && gid in groups && Holds(groups[gid].pins, mid)
    ensures var after := RefreshedIn(groups, gid, mid, merged);
            HasRows(after, rows) && (merged.None? ==> HasRows(after, Deleted(rows, gid, mid)))
  {
    var after := RefreshedIn(groups, gid, mid, merged);
    var pins := groups[gid].pins;
    forall g, pin | g in after && pin in after[g].pins
      ensures RowOf(g, pin) in rows && (merged.None? ==> RowOf(g, pin) in Deleted(rows, gid, mid))
    {
      if g == gid {
        RefreshElements(pins, mid, merged, pin);
        if pin.mid == mid {
          RefreshedPin(pins, mid, merged, pin);
          assert pins[Find(pins, mid)] in pins;
        }
      }
    }
  }

  /** The refreshed pin keeps all but its content. */
  lemma RefreshedPin(pins: seq<Pin>, mid: i64, merged: Option<Payloads.Content>, pin: Pin)
    requires Distinct(pins) && Holds(pins, mid) && pin in Refresh(pins, mid, merged) && pin.mid == mid
    ensures merged.Some? && pin == pins[Find(pins, mid)].(content := merged.value)
  {}

  lemma RefreshedStray(groups: Groups, rows: set<Row>, gid: i64, mid: i64, merged: Option<Payloads.Content>)
    requires WellKept(groups) && NoStrayRows(groups, rows) && gid in groups && Holds(groups[gid].pins, mid)
    ensures NoStrayRows(RefreshedIn(groups, gid, mid, merged), if merged.None? then Deleted(rows, gid, mid) else rows)
  {
    var after, left := RefreshedIn(groups, gid, mid, merged), if merged.None? then Deleted(rows, gid, mid) else rows;
    forall row | row in left && row.gid in after
      ensures exists pin :: pin in after[row.gid].pins && RowOf(row.gid, pin) == row
    {
      var pin :| pin in groups[row.gid].pins && RowOf(row.gid, pin) == row;
      if row.gid == gid { StillThere(groups[gid].pins, mid, merged, gid, pin); }
    }
  }

  lemma StillThere(pins: seq<Pin>, mid: i64, merged: Option<Payloads.Content>, gid: i64, pin: Pin)
    requires Distinct(pins) && Holds(pins, mid) && pin in pins && (merged.None? ==> pin.mid != mid)
    ensures exists p :: p in Refresh(pins, mid, merged) && RowOf(gid, p) == RowOf(gid, pin)
  {
    var k, i := Find(pins, mid), Find(pins, pin.mid);
    assert pins[i] == pin;
    var r := Refresh(pins, mid, merged);
    var j := if merged.Some? || i < k then i else i - 1;
    assert r[j] in r && RowOf(gid, r[j]) == RowOf(gid, pin);
  }

  lemma NoHolder(groups: Groups, mid: i64, gids: seq<i64>)
    requires forall gid :: gid in groups ==> gid in gids
    requires forall j :: 0 <= j < |gids| ==> gids[j] in groups && !Holds(groups[gids[j]].pins, mid)
    ensures Holders(groups, mid) == {}
  {}

  lemma FirstHolder(groups: Groups, mid: i64, gids: seq<i64>, i: nat)
    requires Lists(IntLess, gids, groups.Keys) && i < |gids|
    requires forall j :: 0 <= j < i ==> gids[j] in groups && !Holds(groups[gids[j]].pins, mid)
    requires gids[i] in groups && Holds(groups[gids[i]].pins, mid)
    ensures Holders(groups, mid) != {} && Sorted(Holders(groups, mid))[0] == gids[i]
  {
    var holders := Holders(groups, mid);
    assert gids[i] in holders;
    var first := Sorted(holders)[0];
    assert first in Sorted(holders);
    assert first in gids && gids[i] in Sorted(holders);
    var k :| 0 <= k < |gids| && gids[k] == first;
    if k > i { assert IntLess(gids[i], gids[k]); }
  }
}
