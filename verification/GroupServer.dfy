/** The request handlers for groups, as they change the tables row by row and then the cache. */
module GroupServer {
  import opened Bytes
  import opened Results
  import opened Ordered
  import opened GroupKinds
  import opened Groups

  predicate CanInsert(t: Tables, gid: i64, uids: seq<i64>) {
    && NoRepeats(uids)
    && forall i :: 0 <= i < |uids| ==> gid in t.groups && uids[i] in t.users && (gid, uids[i]) !in t.members
  }

  /** Inserts the rows one by one; the first that refers to nothing or is there already
      fails the transaction. */
  method InsertMembers(t: Tables, gid: i64, uids: seq<i64>) returns (r: Option<Tables>)
    ensures r == if CanInsert(t, gid, uids) then Some(t.(members := t.members + Pairs(gid, Elements(uids)))) else None
  {
    var tx := t;
    for i := 0 to |uids|
      invariant CanInsert(t, gid, uids[..i])
      invariant tx == t.(members := t.members + Pairs(gid, Elements(uids[..i])))
    {
      OneMore(gid, uids, i);
      var inserted := InsertMember(tx, gid, uids[i]);
      if inserted.None? {
        return None;
      }
      tx := inserted.value;
    }
    assert uids[..|uids|] == uids;
    return Some(tx);
  }

  lemma OneMore(gid: i64, uids: seq<i64>, i: nat)
    requires i < |uids|
    ensures Elements(uids[..i + 1]) == Elements(uids[..i]) + {uids[i]}
    ensures Pairs(gid, Elements(uids[..i + 1])) == Pairs(gid, Elements(uids[..i])) + {(gid, uids[i])}
  {
    assert uids[..i + 1] == uids[..i] + [uids[i]];
  }

  method DeleteMembers(t: Tables, gid: i64, uids: seq<i64>) returns (tx: Tables)
    ensures tx == t.(members := t.members - Pairs(gid, Elements(uids)))
  {
    tx := t;
    for i := 0 to |uids|
      invariant tx == t.(members := t.members - Pairs(gid, Elements(uids[..i])))
    {
      OneMore(gid, uids, i);
      tx := DeleteMember(tx, gid, uids[i]);
    }
    assert uids[..|uids|] == uids;
  }

  /** Ascending, as the ordered sets of the server are walked. */
  method Walk(uids: set<i64>) returns (s: seq<i64>)
    ensures Elements(s) == uids && NoRepeats(s)
  {
    IntOrder();
    s := Iterate<i64>(IntLess, uids);
  }

  class Server {
    var db: Tables
    var users: map<i64, bool>
    var groups: map<i64, Group>

    ghost function Now(): State
      reads this
    {
      State(db, users, groups)
    }

    ghost predicate Valid()
      reads this
    {
      Inv(Now())
    }

    constructor (db: Tables, users: map<i64, bool>, groups: map<i64, Group>)
      requires Inv(State(db, users, groups))
      ensures Valid() && Now() == State(db, users, groups)
    {
      this.db, this.users, this.groups := db, users, groups;
    }

    /** The loop over the members of a new group: every one is a user. */
    method AllKnown(uids: seq<i64>) returns (known: bool)
      ensures known <==> Elements(uids) <= users.Keys
    {
      for i := 0 to |uids|
        invariant Elements(uids[..i]) <= users.Keys
      {
        OneMore(0, uids, i);
        if uids[i] !in users {
          assert uids[i] in Elements(uids);
          return false;
        }
      }
      assert uids[..|uids|] == uids;
      known := true;
    }

    method Create(token: Token, isPublic: bool, name: string, description: Option<string>, members: set<i64>,
        fault: bool)
        returns (r: Result<i64, ApiError>)
      requires Valid()
      modifies this
      ensures Outcome(old(Now()), Request.Create(token, isPublic, name, description, members), fault,
                      if r.Err? then Some(r.error) else None, Now())
      ensures Valid() && (r.Ok? ==> r.value !in old(db).groups && r.value in groups)
    {
      hide Inv, CanInsert, NoRepeats, Pairs, Elements;
      ghost var st, request := Now(), Request.Create(token, isPublic, name, description, members);
      if isPublic && !token.isAdmin { return Err(Forbidden); }
      if isPublic && members != {} { return Err(BadRequest); }
      var all := if isPublic then {} else members + {token.uid};
      var uids := Walk(all);
      var known := AllKnown(uids);
      if !known { return Err(BadRequest); }
      if fault || db.lastGid >= I64_MAX { return Err(Internal); }
      var gid: i64 := db.lastGid + 1;
      var text := if description.Some? then description.value else "";
      var row := Row(name, text, if isPublic then None else Some(token.uid), isPublic);
      NewGroupTakesMembers(st, row, uids);
      var tx := InsertMembers(db.(groups := db.groups[gid := row], lastGid := gid), gid, uids);
      if tx.None? { return Err(Internal); }
      db := tx.value;
      groups := groups[gid := Group(if isPublic then Public else Private(token.uid), name, text, all)];
      RequestKeeps(st, request, fault);
      return Ok(gid);
    }

    method Delete(token: Token, gid: i64, fault: bool) returns (r: Result<(), ApiError>)
      requires Valid()
      modifies this
      ensures Outcome(old(Now()), Request.Delete(token, gid), fault,
                      if r.Err? then Some(r.error) else None, Now())
      ensures Valid()
    {
      RequestKeeps(Now(), Request.Delete(token, gid), fault);
      if gid !in groups { return Err(NotFound); }
      match groups[gid].kind {
        case Public => if !token.isAdmin { return Err(Forbidden); }
        case Private(owner) => if owner != token.uid && !token.isAdmin { return Err(Forbidden); }
      }
      if fault { return Err(Internal); }
      db := DeleteGroupRow(db, gid);
      groups := groups - {gid};
      return Ok(());
    }

    method Update(token: Token, gid: i64, name: Option<string>, description: Option<string>, owner: Option<i64>,
        fault: bool)
        returns (r: Result<(), ApiError>)
      requires Valid()
      modifies this
      ensures Outcome(old(Now()), Request.Update(token, gid, name, description, owner), fault,
                      if r.Err? then Some(r.error) else None, Now())
      ensures Valid()
    {
      hide Safe, Orphans, GroupSafe;
      RequestKeeps(Now(), Request.Update(token, gid, name, description, owner), fault);
      if name.None? && owner.None? && description.None? { return Err(BadRequest); }
      if gid !in groups { return Err(NotFound); }
      var group := groups[gid];
      match group.kind {
        case Public => if !token.isAdmin { return Err(Forbidden); }
        case Private(o) => if o != token.uid && !token.isAdmin { return Err(Forbidden); }
      }
      if owner.Some? {
        if group.kind.Public? { return Err(Forbidden); }
        if !ContainsUser(group, owner.value) { return Err(BadRequest); }
      }
      if fault { return Err(Internal); }
      var row := db.groups[gid];
      if name.Some? {
        row := row.(name := name.value);
        group := group.(name := name.value);
      }
      if description.Some? {
        row := row.(description := description.value);
        group := group.(description := description.value);
      }
      if owner.Some? {
        row := row.(owner := owner);
        group := group.(kind := Private(owner.value));
      }
      db := db.(groups := db.groups[gid := row]);
      groups := groups[gid := group];
      return Ok(());
    }

    method ChangeType(token: Token, gid: i64, isPublic: bool, members: set<i64>, fault: bool)
        returns (r: Result<(), ApiError>)
      requires Valid()
      modifies this
      ensures Outcome(old(Now()), Request.ChangeType(token, gid, isPublic, members), fault,
                      if r.Err? then Some(r.error) else None, Now())
      ensures Valid()
    {
      hide Orphans;
      RequestKeeps(Now(), Request.ChangeType(token, gid, isPublic, members), fault);
      if gid !in groups { return Err(NotFound); }
      var group := groups[gid];
      match group.kind {
        case Public => if !token.isAdmin { return Err(Forbidden); }
        case Private(owner) => if owner != token.uid && !token.isAdmin { return Err(Forbidden); }
      }
      if fault { return Err(Internal); }
      if group.kind.Public? && !isPublic {
        var row := db.groups[gid].(isPublic := false, owner := Some(token.uid));
        var all := PrivateMembers(users, token.uid, members);
        var uids := Walk(all);
        var tx := InsertMembers(db.(groups := db.groups[gid := row]), gid, uids);
        if tx.None? { return Err(Internal); }
        db := tx.value;
        groups := groups[gid := group.(kind := Private(token.uid), members := all)];
      } else if !group.kind.Public? && isPublic {
        var row := db.groups[gid].(isPublic := true, owner := None);
        db := DeleteMembersOf(db.(groups := db.groups[gid := row]), gid);
        groups := groups[gid := group.(kind := Public, members := {})];
      }
      return Ok(());
    }

    method Leave(token: Token, gid: i64, fault: bool) returns (r: Result<(), ApiError>)
      requires Valid()
      modifies this
      ensures Outcome(old(Now()), Request.Leave(token, gid), fault,
                      if r.Err? then Some(r.error) else None, Now())
      ensures Valid()
      ensures r.Ok? ==> gid in groups && token.uid !in groups[gid].members && (gid, token.uid) !in db.members
    {
      RequestKeeps(Now(), Request.Leave(token, gid), fault);
      if gid !in groups { return Err(NotFound); }
      var group := groups[gid];
      match group.kind {
        case Public => return Err(Forbidden);
        case Private(owner) =>
          if !ContainsUser(group, token.uid) { return Err(Forbidden); }
          if owner == token.uid { return Err(Forbidden); }
      }
      if fault { return Err(Internal); }
      db := DeleteMember(db, gid, token.uid);
      groups := groups[gid := group.(members := group.members - {token.uid})];
      return Ok(());
    }

    method AddMembers(token: Token, gid: i64, uids: seq<i64>, fault: bool) returns (r: Result<(), ApiError>)
      requires Valid()
      modifies this
      ensures Outcome(old(Now()), Request.AddMembers(token, gid, uids), fault,
                      if r.Err? then Some(r.error) else None, Now())
      ensures Valid()
    {
      hide Safe, Orphans, GroupSafe;
      RequestKeeps(Now(), Request.AddMembers(token, gid, uids), fault);
      if exists uid | uid in uids :: uid !in users {
        assert !(Elements(uids) <= users.Keys);
        return Err(BadRequest);
      }
      if gid !in groups { return Err(NotFound); }
      var group := groups[gid];
      match group.kind {
        case Public => return Err(Forbidden);
        case Private(owner) =>
          if owner != token.uid && token.uid !in group.members && !token.isAdmin { return Err(Forbidden); }
      }
      for i := 0 to |uids|
        invariant forall j :: 0 <= j < i ==> !ContainsUser(group, uids[j])
      {
        if ContainsUser(group, uids[i]) { return Err(BadRequest); }
      }
      if fault { return Err(Internal); }
      var tx := InsertMembers(db, gid, uids);
      if tx.None? { return Err(Internal); }
      db := tx.value;
      groups := groups[gid := group.(members := group.members + Elements(uids))];
      return Ok(());
    }

    method RemoveMembers(token: Token, gid: i64, uids: seq<i64>, fault: bool) returns (r: Result<(), ApiError>)
      requires Valid()
      modifies this
      ensures Outcome(old(Now()), Request.RemoveMembers(token, gid, uids), fault,
                      if r.Err? then Some(r.error) else None, Now())
      ensures Valid()
    {
      RequestKeeps(Now(), Request.RemoveMembers(token, gid, uids), fault);
      if gid !in groups { return Err(NotFound); }
      var group := groups[gid];
      if group.kind.Public? { return Err(Forbidden); }
      var owner := group.kind.owner;
      if owner != token.uid && !token.isAdmin { return Err(Forbidden); }
      for i := 0 to |uids|
        invariant RemovalError(group, owner, uids) == RemovalError(group, owner, uids[i..])
      {
        assert uids[i..][1..] == uids[i + 1..];
        if owner == uids[i] { return Err(Forbidden); }
        if !ContainsUser(group, uids[i]) { return Err(NotFound); }
      }
      if fault { return Err(Internal); }
      db := DeleteMembers(db, gid, uids);
      groups := groups[gid := group.(members := group.members - Elements(uids))];
      return Ok(());
    }

    method CreateUser(isGuest: bool, fault: bool) returns (r: Result<i64, ApiError>)
      requires Valid()
      modifies this
      ensures Outcome(old(Now()), Request.CreateUser(isGuest), fault, if r.Err? then Some(r.error) else None, Now())
      ensures Valid() && (r.Ok? ==> r.value !in old(users) && r.value in users)
    {
      RequestKeeps(Now(), Request.CreateUser(isGuest), fault);
      if fault || db.lastUid >= I64_MAX { return Err(Internal); }
      var uid: i64 := db.lastUid + 1;
      db := db.(users := db.users[uid := isGuest], lastUid := uid);
      users := users[uid := isGuest];
      return Ok(uid);
    }

    method DeleteUser(uid: i64, fault: bool) returns (r: Result<(), ApiError>)
      requires Valid()
      modifies this
      ensures Outcome(old(Now()), Request.DeleteUser(uid), fault,
                      if r.Err? then Some(r.error) else None, Now())
      ensures Valid()
    {
      RequestKeeps(Now(), Request.DeleteUser(uid), fault);
      if uid !in users { return Err(NotFound); }
      if fault { return Err(Internal); }
      db := DeleteUserRow(db, uid);
      users := users - {uid};
      groups := RemoveFromGroups(groups, uid);
      return Ok(());
    }

    /** One pass notes the groups to go and takes the user out of the others, a second removes them. */
    static method RemoveFromGroups(groups: map<i64, Group>, uid: i64) returns (left: map<i64, Group>)
      ensures left == GroupsWithout(groups, uid)
    {
      hide *;
      left := groups;
      var removed := {};
      var gids := Walk(groups.Keys);
      NoneHandled(groups, gids, uid);
      for i := 0 to |gids|
        invariant HandledIn(groups, left, removed, Elements(gids[..i]), uid)
      {
        SameGroups(groups, left, removed, Elements(gids[..i]), uid);
        OneMore(0, gids, i);
        var gid := gids[i];
        ElementAt(gids, i);
        HandleOne(groups, left, removed, Elements(gids[..i]), gid, uid);
        match left[gid].kind {
          case Public =>
          case Private(owner) =>
            if owner == uid {
              removed := removed + {gid};
            } else {
              left := left[gid := left[gid].(members := left[gid].members - {uid})];
            }
        }
      }
      assert gids[..|gids|] == gids;
      AllHandled(groups, left, removed, uid);
      left := left - removed;
    }
  }

  /** A new group has no rows yet that those of its members could clash with. */
  lemma NewGroupTakesMembers(st: State, row: Row, uids: seq<i64>)
    requires Inv(st) && st.db.lastGid < I64_MAX && NoRepeats(uids) && Elements(uids) <= st.users.Keys
    ensures var gid: i64 := st.db.lastGid + 1;
            gid !in st.db.groups && CanInsert(st.db.(groups := st.db.groups[gid := row], lastGid := gid), gid, uids)
  {
    hide Safe, Orphans;
    forall i | 0 <= i < |uids| ensures uids[i] in st.db.users { assert uids[i] in Elements(uids); }
  }

  /** A group is noted for removal, or is left without the user. */
  ghost predicate Handled(was: Group, now: Group, removed: bool, uid: i64) {
    && (removed <==> was.kind == Private(uid))
    && (!removed ==> now == if was.kind.Public? then was else was.(members := was.members - {uid}))
  }

  /** The first pass is through with the groups in `done`. */
  ghost predicate HandledIn(groups: map<i64, Group>, left: map<i64, Group>, removed: set<i64>, done: set<i64>,
      uid: i64) {
    && left.Keys == groups.Keys
    && (forall gid :: gid in groups && gid in done ==> Handled(groups[gid], left[gid], gid in removed, uid))
    && (forall gid :: gid in groups && gid !in done ==> left[gid] == groups[gid] && gid !in removed)
  }

  lemma NoneHandled(groups: map<i64, Group>, gids: seq<i64>, uid: i64)
    ensures HandledIn(groups, groups, {}, Elements(gids[..0]), uid)
  {}

  lemma SameGroups(groups: map<i64, Group>, left: map<i64, Group>, removed: set<i64>, done: set<i64>, uid: i64)
    requires HandledIn(groups, left, removed, done, uid)
    ensures left.Keys == groups.Keys
  {}

  lemma HandleOne(groups: map<i64, Group>, left: map<i64, Group>, removed: set<i64>, done: set<i64>, gid: i64, uid: i64)
    requires HandledIn(groups, left, removed, done, uid) && gid in groups
    ensures match left[gid].kind
            case Public => HandledIn(groups, left, removed, done + {gid}, uid)
            case Private(owner) =>
              if owner == uid then HandledIn(groups, left, removed + {gid}, done + {gid}, uid)
              else HandledIn(groups, left[gid := left[gid].(members := left[gid].members - {uid})], removed,
                             done + {gid}, uid)
  {}

  lemma AllHandled(groups: map<i64, Group>, left: map<i64, Group>, removed: set<i64>, uid: i64)
    requires HandledIn(groups, left, removed, groups.Keys, uid)
    ensures left - removed == GroupsWithout(groups, uid)
  {}

  lemma ElementAt(uids: seq<i64>, i: nat)
    requires i < |uids|
    ensures uids[i] in Elements(uids)
  {}

  // ---------- loading the cache ----------

  /** One pass over the group rows, one over the member rows. */
  method LoadGroups(t: Tables, rows: seq<(i64, i64)>) returns (groups: map<i64, Group>)
    requires Loadable(t) && (forall p :: p in rows <==> p in t.members)
    ensures groups == Reloaded(t)
  {
    groups := map[];
    var gids := Walk(t.groups.Keys);
    for i := 0 to |gids|
      invariant groups.Keys == Elements(gids[..i]) <= t.groups.Keys
      invariant forall gid :: gid in groups ==> groups[gid] == FromRow(t.groups[gid], gid, {})
    {
      OneMore(0, gids, i);
      assert gids[i] in Elements(gids);
      var row := t.groups[gids[i]];
      var kind := if row.isPublic then Public else Private(row.owner.value);
      groups := groups[gids[i] := Group(kind, row.name, row.description, {})];
      NoMembers(row, gids[i]);
    }
    assert gids[..|gids|] == gids;
    groups := LoadMembers(t, rows, groups);
    assert Elements(rows) == t.members;
  }

  method LoadMembers(t: Tables, rows: seq<(i64, i64)>, empty: map<i64, Group>) returns (groups: map<i64, Group>)
    requires Loadable(t) && empty.Keys == t.groups.Keys
    requires forall gid :: gid in empty ==> empty[gid] == FromRow(t.groups[gid], gid, {})
    ensures groups.Keys == t.groups.Keys
    ensures forall gid :: gid in groups ==> groups[gid] == FromRow(t.groups[gid], gid, Elements(rows))
  {
    groups := empty;
    for i := 0 to |rows|
      invariant groups.Keys == t.groups.Keys
      invariant forall gid :: gid in groups ==> groups[gid] == FromRow(t.groups[gid], gid, Elements(rows[..i]))
    {
      assert rows[..i + 1] == rows[..i] + [rows[i]];
      assert Elements(rows[..i + 1]) == Elements(rows[..i]) + {rows[i]};
      var (gid, uid) := rows[i];
      forall g | g in groups ensures FromRow(t.groups[g], g, Elements(rows[..i + 1]))
                == if g == gid then groups[g].(members := groups[g].members + {uid}) else groups[g]
      {
        OneMember(t.groups[g], g, Elements(rows[..i]), rows[i]);
      }
      if gid in groups {
        groups := groups[gid := groups[gid].(members := groups[gid].members + {uid})];
      }
    }
    assert rows[..|rows|] == rows;
  }

  lemma NoMembers(row: Row, gid: i64)
    requires !row.isPublic ==> row.owner.Some?
    ensures FromRow(row, gid, {})
            == Group(if row.isPublic then Public else Private(row.owner.value), row.name, row.description, {})
  {
    assert FromRow(row, gid, {}).members == {};
  }

  lemma OneMember(row: Row, gid: i64, members: set<(i64, i64)>, p: (i64, i64))
    requires !row.isPublic ==> row.owner.Some?
    ensures var g := FromRow(row, gid, members);
            FromRow(row, gid, members + {p}) == if gid == p.0 then g.(members := g.members + {p.1}) else g
  {
    var g, h := FromRow(row, gid, members), FromRow(row, gid, members + {p});
    assert h.members == if gid == p.0 then g.members + {p.1} else g.members;
  }
}
