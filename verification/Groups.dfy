/** Groups and their members: the cache, the SQL tables behind it, and what every
    request leaves in both. */
module Groups {
  import opened Bytes
  import opened Results
  import opened Ordered
  import opened GroupKinds

  // ---------- the tables ----------

  datatype Row = Row(name: string, description: string, owner: Option<i64>, isPublic: bool)

  /** The tables `user`, `group` and `group_user`, and the last ids the first two have given out. */
  datatype Tables = Tables(users: map<i64, bool>, groups: map<i64, Row>, members: set<(i64, i64)>, lastUid: nat,
      lastGid: nat)

  /** `group_user` refers to both other tables and holds no pair twice. */
  function InsertMember(t: Tables, gid: i64, uid: i64): Option<Tables> {
    if gid in t.groups && uid in t.users && (gid, uid) !in t.members then
      Some(t.(members := t.members + {(gid, uid)})) else None
  }

  function DeleteMember(t: Tables, gid: i64, uid: i64): Tables { t.(members := t.members - {(gid, uid)}) }

  function DeleteMembersOf(t: Tables, gid: i64): Tables { t.(members := set p | p in t.members && p.0 != gid) }

  /** Deleting a group deletes its member rows; deleting a user deletes the user's member rows
      only: nothing ties a group to its owner. */
  function DeleteGroupRow(t: Tables, gid: i64): Tables {
    t.(groups := t.groups - {gid}, members := set p | p in t.members && p.0 != gid)
  }

  function DeleteUserRow(t: Tables, uid: i64): Tables {
    t.(users := t.users - {uid}, members := set p | p in t.members && p.1 != uid)
  }

  // ---------- the cache ----------

  datatype Group = Group(kind: GroupKind, name: string, description: string, members: set<i64>)

  predicate ContainsUser(g: Group, uid: i64) { g.kind.Public? || uid in g.members }

  /** `users` tells of each user whether it is a guest. */
  datatype State = State(db: Tables, users: map<i64, bool>, groups: map<i64, Group>)

  datatype Token = Token(uid: i64, isAdmin: bool)

  // ---------- what must hold ----------

  ghost predicate GroupSafe(g: Group, users: set<i64>) {
    match g.kind
    case Public => g.members == {}
    case Private(owner) => owner in g.members && g.members <= users
  }

  /** The owner of a private group is a member, its members exist, a public group has no list. */
  ghost predicate Safe(st: State) {
    forall gid :: gid in st.groups ==> GroupSafe(st.groups[gid], st.users.Keys)
  }

  function RowOf(g: Group): Row {
    Row(g.name, g.description, if g.kind.Public? then None else Some(g.kind.owner), g.kind.Public?)
  }

  ghost predicate MembersAgree(g: Group, gid: i64, members: set<(i64, i64)>) {
    forall uid :: uid in g.members <==> (gid, uid) in members
  }

  /** Every group in the cache equals its row and its member rows; so do the users. */
  ghost predicate Agrees(st: State) {
    && st.users == st.db.users
    && (forall gid :: gid in st.groups ==> gid in st.db.groups && st.db.groups[gid] == RowOf(st.groups[gid]))
    && (forall gid :: gid in st.groups ==> MembersAgree(st.groups[gid], gid, st.db.members))
  }

  ghost predicate Sound(t: Tables) {
    && (forall p :: p in t.members ==> p.0 in t.groups && p.1 in t.users)
    && (forall uid :: uid in t.users ==> uid <= t.lastUid)
    && (forall gid :: gid in t.groups ==> gid <= t.lastGid && (t.groups[gid].owner.Some? <==> !t.groups[gid].isPublic))
  }

  /** Rows without a group in the cache are private groups of deleted owners. */
  ghost predicate Orphans(st: State) {
    forall gid :: gid in st.db.groups && gid !in st.groups ==>
      !st.db.groups[gid].isPublic && st.db.groups[gid].owner.Some?
      && st.db.groups[gid].owner.value !in st.db.users && st.db.groups[gid].owner.value <= st.db.lastUid
  }

  ghost predicate Inv(st: State) {
    Safe(st) && Agrees(st) && Sound(st.db) && Orphans(st)
  }

  // ---------- what the requests do ----------

  datatype Request =
    | Create(token: Token, isPublic: bool, name: string, description: Option<string>, members: set<i64>)
    | Delete(token: Token, gid: i64)
    | Update(token: Token, gid: i64, newName: Option<string>, newDescription: Option<string>, owner: Option<i64>)
    | ChangeType(token: Token, gid: i64, isPublic: bool, members: set<i64>)
    | Leave(token: Token, gid: i64)
    | AddMembers(token: Token, gid: i64, uids: seq<i64>)
    | RemoveMembers(token: Token, gid: i64, uids: seq<i64>)
    | CreateUser(isGuest: bool)
    | DeleteUser(uid: i64)

  function NonGuests(users: map<i64, bool>): set<i64> { set uid | uid in users && !users[uid] }

  /** The member list a group gets when it becomes private. */
  function PrivateMembers(users: map<i64, bool>, uid: i64, requested: set<i64>): set<i64> {
    (if requested != {} then requested else NonGuests(users)) + {uid}
  }

  function Pairs(gid: i64, uids: set<i64>): set<(i64, i64)> { set uid | uid in uids :: (gid, uid) }

  /** Why `remove_members` refuses a list: the first member that cannot be removed decides. */
  function RemovalError(g: Group, owner: i64, uids: seq<i64>): Option<ApiError> {
    if uids == [] then None
    else if uids[0] == owner then Some(Forbidden)
    else if !ContainsUser(g, uids[0]) then Some(NotFound)
    else RemovalError(g, owner, uids[1..])
  }

  predicate NoRepeats(uids: seq<i64>) { forall i, j :: 0 <= i < j < |uids| ==> uids[i] != uids[j] }

  function Elements<T>(s: seq<T>): set<T> { set x | x in s }

  /** Which error a request is answered with, the database working. */
  function Refusal(st: State, r: Request): Option<ApiError> {
    match r
    case Create(token, isPublic, name, description, members) =>
      if isPublic && !token.isAdmin then Some(Forbidden)
      else if isPublic && members != {} then Some(BadRequest)
      else if !isPublic && !(members + {token.uid} <= st.users.Keys) then Some(BadRequest)
      else if st.db.lastGid >= I64_MAX then Some(Internal)
      else None
    case Delete(token, gid) =>
      if gid !in st.groups then Some(NotFound)
      else if !MayManage(st.groups[gid].kind, token.uid, token.isAdmin) then Some(Forbidden)
      else None
    case Update(token, gid, name, description, owner) =>
      if name.None? && description.None? && owner.None? then Some(BadRequest)
      else if gid !in st.groups then Some(NotFound)
      else if !MayManage(st.groups[gid].kind, token.uid, token.isAdmin) then Some(Forbidden)
      else if owner.Some? && st.groups[gid].kind.Public? then Some(Forbidden)
      else if owner.Some? && !ContainsUser(st.groups[gid], owner.value) then Some(BadRequest)
      else None
    case ChangeType(token, gid, isPublic, members) =>
      if gid !in st.groups then Some(NotFound)
      else if !MayManage(st.groups[gid].kind, token.uid, token.isAdmin) then Some(Forbidden)
      else if st.groups[gid].kind.Public? && !isPublic
        && !(PrivateMembers(st.users, token.uid, members) <= st.db.users.Keys) then
        Some(Internal)
      else None
    case Leave(token, gid) =>
      if gid !in st.groups then Some(NotFound)
      else if st.groups[gid].kind.Public? || !ContainsUser(st.groups[gid], token.uid)
              || st.groups[gid].kind.owner == token.uid then
        Some(Forbidden)
      else None
    case AddMembers(token, gid, uids) =>
      if !(Elements(uids) <= st.users.Keys) then Some(BadRequest)
      else if gid !in st.groups then Some(NotFound)
      else if st.groups[gid].kind.Public? then Some(Forbidden)
      else if st.groups[gid].kind.owner != token.uid && token.uid !in st.groups[gid].members && !token.isAdmin then
        Some(Forbidden)
      else if exists uid | uid in uids :: ContainsUser(st.groups[gid], uid) then Some(BadRequest)
      else if !NoRepeats(uids) then Some(Internal)
      else None
    case RemoveMembers(token, gid, uids) =>
      if gid !in st.groups then Some(NotFound)
      else if st.groups[gid].kind.Public? || !MayManage(st.groups[gid].kind, token.uid, token.isAdmin) then
        Some(Forbidden)
      else RemovalError(st.groups[gid], st.groups[gid].kind.owner, uids)
    case CreateUser(_) => if st.db.lastUid >= I64_MAX then Some(Internal) else None
    case DeleteUser(uid) => if uid !in st.users then Some(NotFound) else None
  }

  /** The state after a request that is not refused. */
  function Granted(st: State, r: Request): State
    requires Refusal(st, r).None?
  {
    match r
    case Create(token, isPublic, name, description, members) =>
      var gid: i64 := st.db.lastGid + 1;
      var kind := if isPublic then Public else Private(token.uid);
      var text := if description.Some? then description.value else "";
      var group := Group(kind, name, text, if isPublic then {} else members + {token.uid});
      st.(db := st.db.(groups := st.db.groups[gid := RowOf(group)],
        members := st.db.members + Pairs(gid, group.members), lastGid := gid),
          groups := st.groups[gid := group])
    case Delete(token, gid) => st.(db := DeleteGroupRow(st.db, gid), groups := st.groups - {gid})
    case Update(token, gid, name, description, owner) =>
      var was := st.groups[gid];
      var group := Group(if owner.Some? then Private(owner.value) else was.kind,
                         if name.Some? then name.value else was.name,
                         if description.Some? then description.value else was.description, was.members);
      st.(db := st.db.(groups := st.db.groups[gid := RowOf(group)]), groups := st.groups[gid := group])
    case ChangeType(token, gid, isPublic, members) =>
      var was := st.groups[gid];
      if was.kind.Public? == isPublic then st
      else if isPublic then
        var group := was.(kind := Public, members := {});
        st.(db := DeleteMembersOf(st.db, gid).(groups := st.db.groups[gid := RowOf(group)]),
          groups := st.groups[gid := group])
      else
        var group := was.(kind := Private(token.uid), members := PrivateMembers(st.users, token.uid, members));
        st.(db := st.db.(groups := st.db.groups[gid := RowOf(group)],
          members := st.db.members + Pairs(gid, group.members)),
            groups := st.groups[gid := group])
    case Leave(token, gid) =>
      st.(db := DeleteMember(st.db, gid, token.uid),
          groups := st.groups[gid := st.groups[gid].(members := st.groups[gid].members - {token.uid})])
    case AddMembers(token, gid, uids) =>
      st.(db := st.db.(members := st.db.members + Pairs(gid, Elements(uids))),
          groups := st.groups[gid := st.groups[gid].(members := st.groups[gid].members + Elements(uids))])
    case RemoveMembers(token, gid, uids) =>
      st.(db := st.db.(members := st.db.members - Pairs(gid, Elements(uids))),
          groups := st.groups[gid := st.groups[gid].(members := st.groups[gid].members - Elements(uids))])
    case CreateUser(isGuest) =>
      var uid: i64 := st.db.lastUid + 1;
      st.(db := st.db.(users := st.db.users[uid := isGuest], lastUid := uid), users := st.users[uid := isGuest])
    case DeleteUser(uid) =>
      st.(db := DeleteUserRow(st.db, uid), users := st.users - {uid}, groups := GroupsWithout(st.groups, uid))
  }

  /** A deleted user takes its own groups along and leaves the other private ones. */
  function GroupsWithout(groups: map<i64, Group>, uid: i64): map<i64, Group> {
    map gid | gid in groups && groups[gid].kind != Private(uid) ::
      if groups[gid].kind.Public? then groups[gid] else groups[gid].(members := groups[gid].members - {uid})
  }

  // ---------- every request keeps what must hold ----------

  lemma CreateKeepsGroups(st: State, r: Request)
    requires Inv(st) && r.Create? && Refusal(st, r).None?
    ensures Safe(Granted(st, r)) && Agrees(Granted(st, r))
  {
    hide Orphans;
  }

  lemma CreateKeepsTables(st: State, r: Request)
    requires Inv(st) && r.Create? && Refusal(st, r).None?
    ensures Sound(Granted(st, r).db) && Orphans(Granted(st, r))
  {}

  lemma CreateKeeps(st: State, r: Request)
    requires Inv(st) && r.Create? && Refusal(st, r).None?
    ensures Inv(Granted(st, r))
  {
    hide Safe, Agrees, Sound, Orphans, Granted, Refusal;
    CreateKeepsGroups(st, r);
    CreateKeepsTables(st, r);
  }

  lemma DeleteKeeps(st: State, r: Request)
    requires Inv(st) && r.Delete? && Refusal(st, r).None?
    ensures Inv(Granted(st, r))
  {}

  lemma UpdateKeepsGroups(st: State, r: Request)
    requires Inv(st) && r.Update? && Refusal(st, r).None?
    ensures Safe(Granted(st, r)) && Agrees(Granted(st, r))
  {
    hide Orphans;
  }

  lemma UpdateKeepsTables(st: State, r: Request)
    requires Inv(st) && r.Update? && Refusal(st, r).None?
    ensures Sound(Granted(st, r).db) && Orphans(Granted(st, r))
  {}

  lemma UpdateKeeps(st: State, r: Request)
    requires Inv(st) && r.Update? && Refusal(st, r).None?
    ensures Inv(Granted(st, r))
  {
    hide Safe, Agrees, Sound, Orphans, Granted, Refusal;
    UpdateKeepsGroups(st, r);
    UpdateKeepsTables(st, r);
  }

  lemma ChangeTypeKeepsGroups(st: State, r: Request)
    requires Inv(st) && r.ChangeType? && Refusal(st, r).None?
    ensures Safe(Granted(st, r)) && Agrees(Granted(st, r))
  {
    hide Orphans;
  }

  lemma ChangeTypeKeepsTables(st: State, r: Request)
    requires Inv(st) && r.ChangeType? && Refusal(st, r).None?
    ensures Sound(Granted(st, r).db) && Orphans(Granted(st, r))
  {}

  lemma ChangeTypeKeeps(st: State, r: Request)
    requires Inv(st) && r.ChangeType? && Refusal(st, r).None?
    ensures Inv(Granted(st, r))
  {
    hide Safe, Agrees, Sound, Orphans, Granted, Refusal;
    ChangeTypeKeepsGroups(st, r);
    ChangeTypeKeepsTables(st, r);
  }

  lemma LeaveKeepsGroups(st: State, r: Request)
    requires Inv(st) && r.Leave? && Refusal(st, r).None?
    ensures Safe(Granted(st, r)) && Agrees(Granted(st, r))
  {
    hide Orphans;
  }

  lemma LeaveKeepsTables(st: State, r: Request)
    requires Inv(st) && r.Leave? && Refusal(st, r).None?
    ensures Sound(Granted(st, r).db) && Orphans(Granted(st, r))
  {}

  lemma LeaveKeeps(st: State, r: Request)
    requires Inv(st) && r.Leave? && Refusal(st, r).None?
    ensures Inv(Granted(st, r))
  {
    hide Safe, Agrees, Sound, Orphans, Granted, Refusal;
    LeaveKeepsGroups(st, r);
    LeaveKeepsTables(st, r);
  }

  lemma AddMembersKeeps(st: State, r: Request)
    requires Inv(st) && r.AddMembers? && Refusal(st, r).None?
    ensures Inv(Granted(st, r))
  {}

  lemma {:induction false} NoRemovalError(g: Group, owner: i64, uids: seq<i64>)
    requires RemovalError(g, owner, uids).None?
    ensures owner !in uids && forall uid :: uid in uids ==> ContainsUser(g, uid)
  {
    if uids != [] { NoRemovalError(g, owner, uids[1..]); }
  }

  lemma RemoveMembersKeeps(st: State, r: Request)
    requires Inv(st) && r.RemoveMembers? && Refusal(st, r).None?
    ensures Inv(Granted(st, r))
  {
    NoRemovalError(st.groups[r.gid], st.groups[r.gid].kind.owner, r.uids);
  }

  lemma CreateUserKeeps(st: State, r: Request)
    requires Inv(st) && r.CreateUser? && Refusal(st, r).None?
    ensures Inv(Granted(st, r))
  {}

  lemma DeleteUserKeepsGroups(st: State, r: Request)
    requires Inv(st) && r.DeleteUser? && Refusal(st, r).None?
    ensures Safe(Granted(st, r)) && Agrees(Granted(st, r))
  {
    hide Orphans;
  }

  lemma DeleteUserKeepsTables(st: State, r: Request)
    requires Inv(st) && r.DeleteUser? && Refusal(st, r).None?
    ensures Sound(Granted(st, r).db) && Orphans(Granted(st, r))
  {}

  lemma DeleteUserKeeps(st: State, r: Request)
    requires Inv(st) && r.DeleteUser? && Refusal(st, r).None?
    ensures Inv(Granted(st, r))
  {
    hide Safe, Agrees, Sound, Orphans, Granted, Refusal;
    DeleteUserKeepsGroups(st, r);
    DeleteUserKeepsTables(st, r);
  }

  /** How a request ends: refused, failed in the database, or granted. Only the last changes anything. */
  ghost predicate Outcome(st: State, r: Request, fault: bool, error: Option<ApiError>, after: State) {
    if Refusal(st, r).Some? then error == Refusal(st, r) && after == st
    else if fault then error == Some(Internal) && after == st
    else error.None? && after == Granted(st, r)
  }

  function After(st: State, r: Request, fault: bool): State {
    if Refusal(st, r).Some? || fault then st else Granted(st, r)
  }

  lemma RequestKeeps(st: State, r: Request, fault: bool)
    requires Inv(st)
    ensures Inv(After(st, r, fault))
  {
    hide Inv;
    if Refusal(st, r).None? {
      match r {
        case Create(_, _, _, _, _) => CreateKeeps(st, r);
        case Delete(_, _) => DeleteKeeps(st, r);
        case Update(_, _, _, _, _) => UpdateKeeps(st, r);
        case ChangeType(_, _, _, _) => ChangeTypeKeeps(st, r);
        case Leave(_, _) => LeaveKeeps(st, r);
        case AddMembers(_, _, _) => AddMembersKeeps(st, r);
        case RemoveMembers(_, _, _) => RemoveMembersKeeps(st, r);
        case CreateUser(_) => CreateUserKeeps(st, r);
        case DeleteUser(_) => DeleteUserKeeps(st, r);
      }
    }
  }

  datatype Attempt = Attempt(request: Request, fault: bool)

  function Run(start: State, attempts: seq<Attempt>): State {
    if attempts == [] then start else
      var last := attempts[|attempts| - 1];
      After(Run(start, attempts[..|attempts| - 1]), last.request, last.fault)
  }

  /** In every reachable state the groups are as they must be, and agree with the tables. */
  lemma {:induction false} RunKeeps(start: State, attempts: seq<Attempt>)
    requires Inv(start)
    ensures Safe(Run(start, attempts)) && Agrees(Run(start, attempts)) && Inv(Run(start, attempts))
  {
    if attempts != [] {
      var last := attempts[|attempts| - 1];
      RunKeeps(start, attempts[..|attempts| - 1]);
      RequestKeeps(Run(start, attempts[..|attempts| - 1]), last.request, last.fault);
    }
  }

  // ---------- restarting on the tables ----------

  function FromRow(row: Row, gid: i64, members: set<(i64, i64)>): Group
    requires !row.isPublic ==> row.owner.Some?
  {
    Group(if row.isPublic then Public else Private(row.owner.value), row.name, row.description,
          set p | p in members && p.0 == gid :: p.1)
  }

  predicate Loadable(t: Tables) {
    forall gid :: gid in t.groups && !t.groups[gid].isPublic ==> t.groups[gid].owner.Some?
  }

  /** The cache that a restart builds from the tables. */
  function Reloaded(t: Tables): map<i64, Group>
    requires Loadable(t)
  {
    map gid | gid in t.groups :: FromRow(t.groups[gid], gid, t.members)
  }

  lemma ReloadedGroup(st: State, gid: i64)
    requires Inv(st) && gid in st.groups
    ensures Loadable(st.db) && gid in st.db.groups && FromRow(st.db.groups[gid], gid, st.db.members) == st.groups[gid]
  {
    assert MembersAgree(st.groups[gid], gid, st.db.members);
    var g := FromRow(st.db.groups[gid], gid, st.db.members);
    forall uid ensures uid in g.members <==> uid in st.groups[gid].members {
      assert uid in g.members <==> (gid, uid) in st.db.members;
    }
  }

  ghost predicate NoOrphans(st: State) { st.db.groups.Keys == st.groups.Keys }

  /** A restart rebuilds the cache exactly when no deleted owner has left rows behind. */
  lemma ReloadIsExact(st: State)
    requires Inv(st)
    ensures Loadable(st.db) && (Reloaded(st.db) == st.groups <==> NoOrphans(st))
  {
    forall gid | gid in st.groups ensures gid in st.db.groups && Reloaded(st.db)[gid] == st.groups[gid] {
      ReloadedGroup(st, gid);
    }
    if NoOrphans(st) {
      assert Reloaded(st.db).Keys == st.groups.Keys;
    } else {
      assert Reloaded(st.db).Keys != st.groups.Keys;
    }
  }

  /** Otherwise it brings back groups whose owner is no member and does not exist. */
  lemma ReloadIsSafe(st: State)
    requires Inv(st)
    ensures Loadable(st.db) && (Safe(st.(groups := Reloaded(st.db))) <==> NoOrphans(st))
  {
    ReloadIsExact(st);
    if gid :| gid in st.db.groups && gid !in st.groups {
      assert Reloaded(st.db)[gid].kind.owner !in st.users;
      assert !GroupSafe(Reloaded(st.db)[gid], st.users.Keys);
    } else {
      assert forall gid :: gid in st.groups ==> gid in st.db.groups;
    }
  }

  ghost function OrphanIds(st: State): set<i64> { st.db.groups.Keys - st.groups.Keys }

  function OwnedBy(st: State, uid: i64): set<i64> { set gid | gid in st.groups && st.groups[gid].kind == Private(uid) }

  /** Rows are left behind by deleting an owner and by nothing else, and nothing removes them. */
  lemma OrphansGrow(st: State, r: Request)
    requires Inv(st) && Refusal(st, r).None?
    ensures OrphanIds(Granted(st, r)) == OrphanIds(st) + if r.DeleteUser? then OwnedBy(st, r.uid) else {}
  {
    if r.Create? { assert st.db.lastGid + 1 !in st.db.groups; }
  }
}
