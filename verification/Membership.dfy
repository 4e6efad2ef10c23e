/** What a group is after any run of requests: its members are those who were let in last, its values those
    that were given last. */
module Membership {
  import opened Bytes
  import opened Results
  import opened GroupKinds
  import opened Groups
  import opened LastGiven

  // ---------- which requests go through ----------

  predicate Manages(st: State, token: Token, gid: i64) {
    gid in st.groups && (token.isAdmin || st.groups[gid].kind == Private(token.uid))
  }

  predicate IsPrivate(st: State, gid: i64) { gid in st.groups && st.groups[gid].kind.Private? }

  /** Whom a group that becomes private gets as members. */
  predicate Invited(st: State, token: Token, requested: set<i64>, uid: i64) {
    uid == token.uid || if requested == {} then uid in st.users && !st.users[uid] else uid in requested
  }

  /** Who may do what: managing belongs to administrators and the owner, adding to every member as well, leaving
      to every member but the owner. */
  ghost predicate Permitted(st: State, r: Request) {
    match r
    case Create(token, isPublic, _, _, members) =>
      && (isPublic ==> token.isAdmin && members == {})
      && (!isPublic ==> token.uid in st.users && forall uid :: uid in members ==> uid in st.users)
      && st.db.lastGid < I64_MAX
    case Delete(token, gid) => Manages(st, token, gid)
    case Update(token, gid, name, description, owner) =>
      && (name.Some? || description.Some? || owner.Some?) && Manages(st, token, gid)
      && (owner.Some? ==> IsPrivate(st, gid) && owner.value in st.groups[gid].members)
    case ChangeType(token, gid, isPublic, requested) =>
      && Manages(st, token, gid)
      && (!isPublic && !IsPrivate(st, gid) ==> forall uid :: Invited(st, token, requested, uid) ==> uid in st.users)
    case Leave(token, gid) =>
      IsPrivate(st, gid) && token.uid in st.groups[gid].members && st.groups[gid].kind.owner != token.uid
    case AddMembers(token, gid, uids) =>
      && IsPrivate(st, gid) && (Manages(st, token, gid) || token.uid in st.groups[gid].members)
      && (forall i :: 0 <= i < |uids| ==> uids[i] in st.users && uids[i] !in st.groups[gid].members)
      && (forall i, j :: 0 <= i < j < |uids| ==> uids[i] != uids[j])
    case RemoveMembers(token, gid, uids) =>
      && IsPrivate(st, gid) && Manages(st, token, gid)
      && (forall i :: 0 <= i < |uids| ==> uids[i] in st.groups[gid].members && uids[i] != st.groups[gid].kind.owner)
    case CreateUser(_) => st.db.lastUid < I64_MAX
    case DeleteUser(uid) => uid in st.users
  }

  lemma {:induction false} RemovalIsClean(g: Group, owner: i64, uids: seq<i64>)
    requires g.kind.Private?
    ensures RemovalError(g, owner, uids).None? <==>
            forall i :: 0 <= i < |uids| ==> uids[i] in g.members && uids[i] != owner
  {
    if uids != [] {
      RemovalIsClean(g, owner, uids[1..]);
      assert uids == [uids[0]] + uids[1..];
    }
  }

  /** A request goes through exactly when it is permitted. */
  lemma PermittedIsGranted(st: State, r: Request)
    requires Inv(st)
    ensures Refusal(st, r).None? <==> Permitted(st, r)
  {
    hide Sound, Orphans, Safe;
    match r {
      case RemoveMembers(token, gid, uids) =>
        if IsPrivate(st, gid) { RemovalIsClean(st.groups[gid], st.groups[gid].kind.owner, uids); }
      case ChangeType(token, gid, isPublic, requested) => InvitedAre(st, token, requested);
      case AddMembers(_, gid, uids) =>
        ElementsWithin(uids, st.users.Keys);
        if IsPrivate(st, gid) { NoneContained(st.groups[gid], uids); }
      case _ =>
    }
  }

  lemma InvitedAre(st: State, token: Token, requested: set<i64>)
    ensures forall uid :: uid in PrivateMembers(st.users, token.uid, requested) <==> Invited(st, token, requested, uid)
  {}

  lemma NoneContained(g: Group, uids: seq<i64>)
    requires g.kind.Private?
    ensures (exists uid | uid in uids :: ContainsUser(g, uid))
            <==> exists i :: 0 <= i < |uids| && uids[i] in g.members
  {
    if i :| 0 <= i < |uids| && uids[i] in g.members { assert uids[i] in uids && ContainsUser(g, uids[i]); }
  }

  lemma ElementsWithin(uids: seq<i64>, all: set<i64>)
    ensures Elements(uids) <= all <==> forall i :: 0 <= i < |uids| ==> uids[i] in all
  {
    if Elements(uids) <= all {
      forall i | 0 <= i < |uids| ensures uids[i] in all { assert uids[i] in Elements(uids); }
    }
  }

  /** What the request is about is not there; for a removal, this may be its first member that cannot be removed. */
  ghost predicate Nowhere(st: State, r: Request) {
    match r
    case Delete(_, gid) => gid !in st.groups
    case Update(_, gid, name, description, owner) =>
      (name.Some? || description.Some? || owner.Some?) && gid !in st.groups
    case ChangeType(_, gid, _, _) => gid !in st.groups
    case Leave(_, gid) => gid !in st.groups
    case AddMembers(_, gid, uids) => gid !in st.groups && forall i :: 0 <= i < |uids| ==> uids[i] in st.users
    case RemoveMembers(token, gid, uids) =>
      || gid !in st.groups
      || (IsPrivate(st, gid) && Manages(st, token, gid)
          && exists k :: 0 <= k < |uids| && uids[k] !in st.groups[gid].members && CleanUpTo(st.groups[gid], uids, k))
    case DeleteUser(uid) => uid !in st.users
    case _ => false
  }

  predicate CleanUpTo(g: Group, uids: seq<i64>, k: nat) {
    g.kind.Private? && k <= |uids| && forall i :: 0 <= i < k ==> uids[i] in g.members && uids[i] != g.kind.owner
  }

  /** The request contradicts itself or the users and members there are. */
  ghost predicate Malformed(st: State, r: Request) {
    match r
    case Create(token, isPublic, _, _, members) =>
      || (isPublic && token.isAdmin && members != {})
      || (!isPublic && exists uid :: (uid == token.uid || uid in members) && uid !in st.users)
    case Update(token, gid, name, description, owner) =>
      || (name.None? && description.None? && owner.None?)
      || (Manages(st, token, gid) && IsPrivate(st, gid) && owner.Some? && owner.value !in st.groups[gid].members)
    case AddMembers(token, gid, uids) =>
      || (exists i :: 0 <= i < |uids| && uids[i] !in st.users)
      || (IsPrivate(st, gid) && (Manages(st, token, gid) || token.uid in st.groups[gid].members)
          && exists i :: 0 <= i < |uids| && uids[i] in st.groups[gid].members)
    case _ => false
  }

  lemma {:induction false} FirstBadMember(g: Group, owner: i64, uids: seq<i64>)
    requires g.kind == Private(owner) && owner in g.members
    ensures RemovalError(g, owner, uids) == Some(NotFound) <==>
            exists k :: 0 <= k < |uids| && uids[k] !in g.members && CleanUpTo(g, uids, k)
    ensures RemovalError(g, owner, uids).Some? ==> RemovalError(g, owner, uids).value in {NotFound, Forbidden}
  {
    if uids != [] {
      FirstBadMember(g, owner, uids[1..]);
      if uids[0] != owner && uids[0] in g.members {
        forall k: nat | k < |uids| - 1 ensures CleanUpTo(g, uids, k + 1) <==> CleanUpTo(g, uids[1..], k) {
          assert uids[..k + 1] == [uids[0]] + uids[1..][..k];
          OneLonger(g, uids, k);
        }
        if k :| 0 <= k < |uids[1..]| && uids[1..][k] !in g.members && CleanUpTo(g, uids[1..], k) {
          assert uids[k + 1] !in g.members && CleanUpTo(g, uids, k + 1);
        }
        if k :| 0 <= k < |uids| && uids[k] !in g.members && CleanUpTo(g, uids, k) {
          assert uids[1..][k - 1] !in g.members && CleanUpTo(g, uids[1..], k - 1);
        }
      } else if uids[0] != owner {
        assert CleanUpTo(g, uids, 0);
      }
    }
  }

  lemma OneLonger(g: Group, uids: seq<i64>, k: nat)
    requires k < |uids| - 1 && g.kind.Private? && uids[0] in g.members && uids[0] != g.kind.owner
    ensures CleanUpTo(g, uids, k + 1) <==> CleanUpTo(g, uids[1..], k)
  {
    if CleanUpTo(g, uids, k + 1) {
      forall i | 0 <= i < k ensures uids[1..][i] in g.members && uids[1..][i] != g.kind.owner {
        assert uids[1..][i] == uids[i + 1];
      }
    }
    if CleanUpTo(g, uids[1..], k) {
      forall i | 0 <= i < k + 1 ensures uids[i] in g.members && uids[i] != g.kind.owner {
        if i > 0 { assert uids[1..][i - 1] == uids[i]; }
      }
    }
  }

  /** A refused request is told whether something is missing, or the request is wrong in itself; only exhausted ids,
      unknown users as members of a group made private, and a member listed twice are internal errors; everything
      else is forbidden. */
  lemma ErrorsTell(st: State, r: Request)
    requires Inv(st)
    ensures Refusal(st, r) == Some(NotFound) <==> Nowhere(st, r)
    ensures Refusal(st, r) == Some(BadRequest) <==> Malformed(st, r)
    ensures Refusal(st, r).Some? ==> Refusal(st, r).value in {NotFound, BadRequest, Internal, Forbidden}
    ensures Refusal(st, r) == Some(Internal) ==> r.Create? || r.ChangeType? || r.AddMembers? || r.CreateUser?
  {
    hide Sound, Orphans;
    match r {
      case RemoveMembers(token, gid, uids) =>
        if IsPrivate(st, gid) {
          assert GroupSafe(st.groups[gid], st.users.Keys);
          hide Safe, CleanUpTo;
          FirstBadMember(st.groups[gid], st.groups[gid].kind.owner, uids);
        }
      case AddMembers(_, gid, uids) =>
        ElementsWithin(uids, st.users.Keys);
        if IsPrivate(st, gid) { NoneContained(st.groups[gid], uids); }
      case Create(token, _, _, _, members) => assert token.uid in members + {token.uid};
      case _ =>
    }
  }

  // ---------- what one request does to a group ----------

  /** The request makes the user a member of a private group. */
  ghost predicate LetsIn(st: State, r: Request, gid: i64, uid: i64) {
    match r
    case Create(token, isPublic, _, _, members) =>
      gid == st.db.lastGid + 1 && !isPublic && (uid == token.uid || uid in members)
    case ChangeType(token, g, isPublic, requested) =>
      g == gid && !isPublic && !IsPrivate(st, gid) && Invited(st, token, requested, uid)
    case AddMembers(_, g, uids) => g == gid && uid in uids
    case _ => false
  }

  /** The request ends the user's membership, or the group. */
  ghost predicate PutsOut(st: State, r: Request, gid: i64, uid: i64) {
    match r
    case Delete(_, g) => g == gid
    case ChangeType(_, g, isPublic, _) => g == gid && isPublic
    case Leave(token, g) => g == gid && uid == token.uid
    case RemoveMembers(_, g, uids) => g == gid && uid in uids
    case DeleteUser(u) => u == uid || (gid in st.groups && st.groups[gid].kind == Private(u))
    case _ => false
  }

  ghost predicate Member(st: State, gid: i64, uid: i64) { IsPrivate(st, gid) && uid in st.groups[gid].members }

  ghost predicate Founds(st: State, r: Request, gid: i64) { r.Create? && gid == st.db.lastGid + 1 }

  /** A group ends when it is deleted, or its owner is. */
  ghost predicate Ends(st: State, r: Request, gid: i64) {
    || (r.Delete? && r.gid == gid)
    || (r.DeleteUser? && gid in st.groups && st.groups[gid].kind == Private(r.uid))
  }

  datatype Facet = Name | Description | Kind
  datatype Value = Words(text: string) | Sort(kind: GroupKind)

  function ValueOf(g: Group, f: Facet): Value {
    match f
    case Name => Words(g.name)
    case Description => Words(g.description)
    case Kind => Sort(g.kind)
  }

  /** The value that a request gives to a facet of the group, if it does. */
  ghost function Gives(st: State, r: Request, gid: i64, f: Facet): Option<Value> {
    match r
    case Create(token, isPublic, name, description, _) =>
      if gid != st.db.lastGid + 1 then None
      else if f.Name? then Some(Words(name))
      else if f.Description? then Some(Words(if description.Some? then description.value else ""))
      else Some(Sort(if isPublic then Public else Private(token.uid)))
    case Update(_, g, name, description, owner) =>
      if g != gid then None
      else if f.Name? && name.Some? then Some(Words(name.value))
      else if f.Description? && description.Some? then Some(Words(description.value))
      else if f.Kind? && owner.Some? then Some(Sort(Private(owner.value)))
      else None
    case ChangeType(token, g, isPublic, _) =>
      if g != gid || !f.Kind? || isPublic == !IsPrivate(st, gid) then None
      else Some(Sort(if isPublic then Public else Private(token.uid)))
    case _ => None
  }

  lemma NewGroup(st: State)
    requires Inv(st)
    ensures st.db.lastGid + 1 !in st.groups
  {}

  /** What the request does to the user's membership: let in, put out, or nothing. */
  ghost function Move(st: State, r: Request, gid: i64, uid: i64): Option<bool> {
    if LetsIn(st, r, gid, uid) then Some(true) else if PutsOut(st, r, gid, uid) then Some(false) else None
  }

  /** Whether the request makes the group, or ends it. */
  ghost function Fate(st: State, r: Request, gid: i64): Option<bool> {
    if Founds(st, r, gid) then Some(true) else if Ends(st, r, gid) then Some(false) else None
  }

  lemma MembersOfOne(st: State, r: Request, gid: i64, uid: i64)
    requires Inv(st) && Refusal(st, r).None?
    ensures var move := Move(st, r, gid, uid);
            Member(Granted(st, r), gid, uid) <==> if move.Some? then move.value else Member(st, gid, uid)
  {
    hide Inv, Pairs, RowOf, RemovalError, PrivateMembers, Invited, ContainsUser, NoRepeats, MayManage;
    hide DeleteGroupRow, DeleteUserRow, DeleteMembersOf, DeleteMember;
    NewGroup(st);
    if r.ChangeType? { InvitedAre(st, r.token, r.members); }
  }

  lemma GroupsOfOne(st: State, r: Request, gid: i64)
    requires Inv(st) && Refusal(st, r).None?
    ensures var fate := Fate(st, r, gid);
            gid in Granted(st, r).groups <==> if fate.Some? then fate.value else gid in st.groups
  {
    hide Inv, Pairs, RowOf, RemovalError, PrivateMembers, ContainsUser, NoRepeats, MayManage;
    NewGroup(st);
    hide DeleteGroupRow, DeleteUserRow, DeleteMembersOf, DeleteMember;
  }

  lemma ValuesOfOne(st: State, r: Request, gid: i64, f: Facet)
    requires Inv(st) && Refusal(st, r).None? && gid in Granted(st, r).groups
    ensures var given := Gives(st, r, gid, f);
            if given.Some? then ValueOf(Granted(st, r).groups[gid], f) == given.value
            else gid in st.groups && ValueOf(Granted(st, r).groups[gid], f) == ValueOf(st.groups[gid], f)
  {
    hide Sound, Agrees, Orphans, Safe, Pairs, RowOf, RemovalError, PrivateMembers;
  }

  // ---------- what a run leaves ----------

  /** What the requests of a run did to the membership, one after the other; a request that does not go
      through does nothing. */
  ghost function Moves(start: State, attempts: seq<Attempt>, gid: i64, uid: i64): seq<Option<bool>> {
    if attempts == [] then [] else
      var before, last := attempts[..|attempts| - 1], attempts[|attempts| - 1];
      var st := Run(start, before);
      Moves(start, before, gid, uid)
      + [if Permitted(st, last.request) && !last.fault then Move(st, last.request, gid, uid) else None]
  }

  ghost function Fates(start: State, attempts: seq<Attempt>, gid: i64): seq<Option<bool>> {
    if attempts == [] then [] else
      var before, last := attempts[..|attempts| - 1], attempts[|attempts| - 1];
      var st := Run(start, before);
      Fates(start, before, gid)
      + [if Permitted(st, last.request) && !last.fault then Fate(st, last.request, gid) else None]
  }

  ghost function Gifts(start: State, attempts: seq<Attempt>, gid: i64, f: Facet): seq<Option<Value>> {
    if attempts == [] then [] else
      var before, last := attempts[..|attempts| - 1], attempts[|attempts| - 1];
      var st := Run(start, before);
      Gifts(start, before, gid, f)
      + [if Permitted(st, last.request) && !last.fault then Gives(st, last.request, gid, f) else None]
  }

  lemma LastStep(start: State, attempts: seq<Attempt>)
    requires Inv(start) && attempts != []
    ensures var st, last := Run(start, attempts[..|attempts| - 1]), attempts[|attempts| - 1];
            && Inv(st) && (Refusal(st, last.request).None? <==> Permitted(st, last.request))
            && Run(start, attempts)
               == if Permitted(st, last.request) && !last.fault then Granted(st, last.request) else st
  {
    hide Inv, Permitted, Refusal, Granted;
    RunKeeps(start, attempts[..|attempts| - 1]);
    PermittedIsGranted(Run(start, attempts[..|attempts| - 1]), attempts[|attempts| - 1].request);
  }

  lemma RowsAreMembers(st: State, gid: i64, uid: i64)
    requires Inv(st) && gid in st.groups
    ensures (gid, uid) in st.db.members <==> Member(st, gid, uid)
  {
    assert MembersAgree(st.groups[gid], gid, st.db.members) && GroupSafe(st.groups[gid], st.users.Keys);
  }

  /** A user is a member of a private group exactly when the last request that went through and moved the user let
      the user in, or the user was in at the start and none did; the rows of the group say the same. */
  lemma {:induction false} MembersWereLetIn(start: State, attempts: seq<Attempt>, gid: i64, uid: i64)
    requires Inv(start)
    ensures var end := Run(start, attempts);
            var in' := IsLast(Moves(start, attempts, gid, uid), true, Member(start, gid, uid));
            && (Member(end, gid, uid) <==> in')
            && (gid in end.groups ==> ((gid, uid) in end.db.members <==> in'))
  {
    hide Inv, Permitted, Refusal, Granted, Move, Member, IsLast;
    if attempts == [] {
      NothingGiven(true, Member(start, gid, uid));
    } else {
      var n := |attempts| - 1;
      MembersWereLetIn(start, attempts[..n], gid, uid);
      LastStep(start, attempts);
      var st, last := Run(start, attempts[..n]), attempts[n];
      var through := Permitted(st, last.request) && !last.fault;
      OneMoreGift(Moves(start, attempts[..n], gid, uid), if through then Move(st, last.request, gid, uid) else None,
                  true, Member(start, gid, uid));
      if through { MembersOfOne(st, last.request, gid, uid); }
    }
    RunKeeps(start, attempts);
    if gid in Run(start, attempts).groups { RowsAreMembers(Run(start, attempts), gid, uid); }
  }

  /** A group is there exactly when it was founded last, or was there at the start, and neither it nor its owner has
      been deleted since. */
  lemma {:induction false} GroupsWereFounded(start: State, attempts: seq<Attempt>, gid: i64)
    requires Inv(start)
    ensures gid in Run(start, attempts).groups <==> IsLast(Fates(start, attempts, gid), true, gid in start.groups)
  {
    hide Inv, Permitted, Refusal, Granted, Fate, IsLast;
    if attempts == [] {
      NothingGiven(true, gid in start.groups);
    } else {
      var n := |attempts| - 1;
      GroupsWereFounded(start, attempts[..n], gid);
      LastStep(start, attempts);
      var st, last := Run(start, attempts[..n]), attempts[n];
      var through := Permitted(st, last.request) && !last.fault;
      OneMoreGift(Fates(start, attempts[..n], gid), if through then Fate(st, last.request, gid) else None,
                  true, gid in start.groups);
      if through { GroupsOfOne(st, last.request, gid); }
    }
  }

  /** Name, description, kind and owner of a group are what was given last by a request that went through; the row
      of the group says the same. */
  lemma {:induction false} ValuesWereGiven(start: State, attempts: seq<Attempt>, gid: i64, f: Facet, v: Value)
    requires Inv(start) && gid in Run(start, attempts).groups
    ensures var end := Run(start, attempts);
            && (ValueOf(end.groups[gid], f) == v <==>
                  IsLast(Gifts(start, attempts, gid, f), v,
                         gid in start.groups && ValueOf(start.groups[gid], f) == v))
            && gid in end.db.groups && end.db.groups[gid] == RowOf(end.groups[gid])
  {
    hide Inv, Permitted, Refusal, Granted, Gives, ValueOf, IsLast;
    var already := gid in start.groups && ValueOf(start.groups[gid], f) == v;
    if attempts == [] {
      NothingGiven(v, already);
    } else {
      var n := |attempts| - 1;
      LastStep(start, attempts);
      var st, last := Run(start, attempts[..n]), attempts[n];
      var given := if Permitted(st, last.request) && !last.fault then Gives(st, last.request, gid, f) else None;
      OneMoreGift(Gifts(start, attempts[..n], gid, f), given, v, already);
      if Permitted(st, last.request) && !last.fault { ValuesOfOne(st, last.request, gid, f); }
      if given.None? { ValuesWereGiven(start, attempts[..n], gid, f, v); }
    }
    RunKeeps(start, attempts);
    RowIs(Run(start, attempts), gid);
  }

  lemma RowIs(st: State, gid: i64)
    requires Agrees(st) && gid in st.groups
    ensures gid in st.db.groups && st.db.groups[gid] == RowOf(st.groups[gid])
  {}

  /** The group that a request is about. */
  function AboutGroup(st: State, r: Request): Option<i64> {
    match r
    case Create(_, _, _, _, _) => if st.db.lastGid < I64_MAX then Some(st.db.lastGid + 1) else None
    case Delete(_, gid) => Some(gid)
    case Update(_, gid, _, _, _) => Some(gid)
    case ChangeType(_, gid, _, _) => Some(gid)
    case Leave(_, gid) => Some(gid)
    case AddMembers(_, gid, _) => Some(gid)
    case RemoveMembers(_, gid, _) => Some(gid)
    case _ => None
  }

  /** A request about one group leaves every other as it is, and all users; creating or deleting a user concerns that
      user alone. */
  lemma OthersStay(st: State, r: Request)
    requires Inv(st) && Refusal(st, r).None?
    ensures !r.DeleteUser? ==>
              forall gid :: AboutGroup(st, r) != Some(gid) ==>
                (gid in Granted(st, r).groups <==> gid in st.groups)
                && (gid in st.groups ==> Granted(st, r).groups[gid] == st.groups[gid])
    ensures !r.CreateUser? && !r.DeleteUser? ==> Granted(st, r).users == st.users
    ensures r.CreateUser? ==> Granted(st, r).users == st.users[st.db.lastUid + 1 := r.isGuest]
    ensures r.DeleteUser? ==> Granted(st, r).users == st.users - {r.uid}
  {
    hide Inv;
  }
}
