/** When replaying the log is current although a change was not logged. */
module LogGaps {
  import opened Bytes
  import opened Results
  import opened UserLog

  /** The fields of a user that a change may set without being logged. */
  datatype Field = Gender | Language

  predicate Sets(c: Change, f: Field) {
    match f
    case Gender => c.gender.Some?
    case Language => c.language.Some?
  }

  predicate SameField(p: Profile, q: Profile, f: Field) {
    match f
    case Gender => p.gender == q.gender
    case Language => p.language == q.language
  }

  predicate SameOtherwise(p: Profile, q: Profile) { p.(gender := q.gender, language := q.language) == q }

  /** Some row sets the field of the user. */
  predicate Carries(rows: seq<LogRow>, uid: i64, f: Field) {
    exists row | row in rows :: row.uid == uid && Sets(row.change, f)
  }

  /** After how many of the attempts the field was last logged; 0 if it was not logged at all. */
  ghost function LastLogged(start: State, attempts: seq<Attempt>, uid: i64, f: Field): (k: nat)
    ensures k <= |attempts|
  {
    if attempts == [] then 0 else
      var before, last := attempts[..|attempts| - 1], attempts[|attempts| - 1];
      if Carries(NewRows(Run(start, before), last.request, last.fault), uid, f) then |attempts|
      else LastLogged(start, before, uid, f)
  }

  /** The user's field has the value now that it had when it was last logged, or else at the start. */
  ghost predicate AsLogged(start: State, attempts: seq<Attempt>, uid: i64, f: Field) {
    var logged, now := Run(start, attempts[..LastLogged(start, attempts, uid, f)]).users, Run(start, attempts).users;
    uid in logged && uid in now && SameField(logged[uid].profile, now[uid].profile, f)
  }

  // ---------- one request ----------

  /** What a client has of a user may differ from the truth in those two fields alone. */
  ghost predicate Knows(v: View, users: Users, uid: i64) {
    && (uid in v <==> uid in ViewOf(users))
    && (uid in v ==> SameOtherwise(v[uid], users[uid].profile))
  }

  /** With the rows replayed, a field that they carry is as it is now, any other as the client had it. */
  ghost predicate Updates(v: View, users: Users, v': View, users': Users, rows: seq<LogRow>, uid: i64) {
    && Knows(v', users', uid)
    && forall f :: uid in v' ==>
           if Carries(rows, uid, f) then SameField(v'[uid], users'[uid].profile, f)
           else uid in v && uid in users && SameField(v'[uid], v[uid], f)
  }

  lemma NothingUpdates(v: View, users: Users, uid: i64)
    requires Knows(v, users, uid)
    ensures Replay(v, []) == v && Updates(v, users, v, users, [], uid)
  {}

  lemma CarriedByOne(row: LogRow, uid: i64, f: Field)
    ensures Carries([row], uid, f) <==> row.uid == uid && Sets(row.change, f)
  {
    assert row in [row];
  }

  lemma ChangeUpdates(v: View, users: Users, who: i64, c: Change, uid: i64)
    requires Knows(v, users, uid) && who in users
    ensures var rows := [LogRow(who, Updated, c)];
            Updates(v, users, Replay(v, rows), Changed(users, who, c), rows, uid)
  {
    var row := LogRow(who, Updated, c);
    ReplayOne(v, row);
    forall f ensures Carries([row], uid, f) <==> row.uid == uid && Sets(c, f) { CarriedByOne(row, uid, f); }
    hide Carries;
  }

  lemma UnloggedUpdates(v: View, users: Users, who: i64, c: Change, uid: i64)
    requires Knows(v, users, uid) && who in users && c == NOTHING.(gender := c.gender, language := c.language)
    ensures Updates(v, users, Replay(v, []), Changed(users, who, c), [], uid)
  {}

  lemma CreateUpdates(v: View, users: Users, who: i64, user: User, uid: i64)
    requires Knows(v, users, uid) && who !in users
    ensures var rows := if user.isGuest then [] else [LogRow(who, Created, AllOf(user.profile))];
            Updates(v, users, Replay(v, rows), users[who := user], rows, uid)
  {
    var row := LogRow(who, Created, AllOf(user.profile));
    ReplayOne(v, row);
    assert Patch(BLANK, AllOf(user.profile)) == user.profile;
    forall f ensures Carries([row], uid, f) <==> row.uid == uid { CarriedByOne(row, uid, f); }
  }

  lemma DeleteUpdates(v: View, users: Users, who: i64, uid: i64)
    requires Knows(v, users, uid) && who in users
    ensures var rows := if users[who].isGuest then [] else [LogRow(who, Deleted, NOTHING)];
            Updates(v, users, Replay(v, rows), users - {who}, rows, uid)
  {
    var row := LogRow(who, Deleted, NOTHING);
    ReplayOne(v, row);
    forall f ensures !Carries([row], uid, f) { CarriedByOne(row, uid, f); }
  }

  lemma AccountSame(v: View, users: Users, v': View, users': Users, rows: seq<LogRow>, uid: i64, who: i64,
      a: AccountChange)
    requires Updates(v, users, v', users', rows, uid) && who in users'
    ensures Updates(v, users, v', ChangedAccount(users', who, a), rows, uid)
  {}

  lemma GrantedUpdates(st: State, r: Request, v: View, uid: i64)
    requires Fresh(st) && RefusalOf(st, r).Done? && Knows(v, st.users, uid)
    ensures var rows := NewRows(st, r, false);
            Updates(v, st.users, Replay(v, rows), Granted(st, r).users, rows, uid)
  {
    hide Updates, Knows, Replay, Carries;
    match r {
      case CreateUser(profile, isGuest, account) =>
        CreateUpdates(v, st.users, st.lastUid + 1, User(profile, isGuest, account), uid);
      case UpdateSelf(token, name, gender, language) =>
        var c := NOTHING.(name := name, gender := gender, language := language);
        if SelfUpdateLogged(name, gender, language) {
          ChangeUpdates(v, st.users, token.uid, c, uid);
        } else {
          UnloggedUpdates(v, st.users, token.uid, c, uid);
        }
      case UploadAvatar(token, now, _) =>
        ChangeUpdates(v, st.users, token.uid, NOTHING.(avatarUpdatedAt := Some(now)), uid);
      case AdminUpdate(_, who, change, account, _) =>
        var c := change.(avatarUpdatedAt := None);
        ChangeUpdates(v, st.users, who, c, uid);
        var rows := [LogRow(who, Updated, c)];
        AccountSame(v, st.users, Replay(v, rows), Changed(st.users, who, c), rows, uid, who, account);
      case AdminAvatar(_, who, now, _) =>
        ChangeUpdates(v, st.users, who, NOTHING.(avatarUpdatedAt := Some(now)), uid);
      case DeleteUser(who) => DeleteUpdates(v, st.users, who, uid);
    }
  }

  lemma StepUpdates(st: State, r: Request, fault: bool, v: View, uid: i64)
    requires Fresh(st) && Knows(v, st.users, uid)
    ensures var rows := NewRows(st, r, fault);
            Updates(v, st.users, Replay(v, rows), After(st, r, fault).users, rows, uid)
  {
    if RefusalOf(st, r).Done? && !fault {
      GrantedUpdates(st, r, v, uid);
      assert NewRows(st, r, fault) == NewRows(st, r, false);
    } else {
      NothingUpdates(v, st.users, uid);
      assert NewRows(st, r, fault) == [];
    }
  }

  // ---------- a run ----------

  /** What a client with the snapshot of the start has after replaying all rows since. */
  ghost function Replayed(start: State, attempts: seq<Attempt>): View {
    var logs := Run(start, attempts).logs;
    if |start.logs| <= |logs| then Replay(ViewOf(start.users), logs[|start.logs|..]) else map[]
  }

  lemma ReplayedMore(start: State, attempts: seq<Attempt>)
    requires attempts != []
    ensures var before, last := attempts[..|attempts| - 1], attempts[|attempts| - 1];
            Replayed(start, attempts)
            == Replay(Replayed(start, before), NewRows(Run(start, before), last.request, last.fault))
  {
    var before, last := attempts[..|attempts| - 1], attempts[|attempts| - 1];
    var st := Run(start, before);
    LogGrows(start, before, 0);
    assert before[..0] == [];
    hide Replay, ViewOf, NewRows, After;
    ReplayMore(ViewOf(start.users), st.logs, |start.logs|, NewRows(st, last.request, last.fault));
  }

  /** The client's value of the field is the one it had when it was last logged. */
  ghost predicate Has(start: State, attempts: seq<Attempt>, uid: i64, f: Field) {
    var logged := Run(start, attempts[..LastLogged(start, attempts, uid, f)]).users;
    uid in Replayed(start, attempts) ==>
      uid in logged && SameField(Replayed(start, attempts)[uid], logged[uid].profile, f)
  }

  lemma HasStep(start: State, attempts: seq<Attempt>, uid: i64, f: Field)
    requires attempts != []
    requires var before, last := attempts[..|attempts| - 1], attempts[|attempts| - 1];
             && Has(start, before, uid, f)
             && Updates(Replayed(start, before), Run(start, before).users, Replayed(start, attempts),
                        Run(start, attempts).users, NewRows(Run(start, before), last.request, last.fault), uid)
    ensures Has(start, attempts, uid, f)
  {
    hide Carries, Replayed, NewRows, Run;
    var before, k := attempts[..|attempts| - 1], LastLogged(start, attempts, uid, f);
    if k == |attempts| {
      assert attempts[..k] == attempts;
    } else {
      assert attempts[..k] == before[..k];
    }
  }

  lemma {:induction false} ReplayHas(start: State, attempts: seq<Attempt>, uid: i64)
    requires Fresh(start)
    ensures Knows(Replayed(start, attempts), Run(start, attempts).users, uid)
    ensures forall f :: Has(start, attempts, uid, f)
  {
    hide Fresh, Updates, Has, Carries, NewRows, After;
    if attempts == [] {
      HadAtStart(start, uid);
    } else {
      var before, last := attempts[..|attempts| - 1], attempts[|attempts| - 1];
      hide Replayed, Knows;
      ReplayHas(start, before, uid);
      RunFresh(start, before);
      StepUpdates(Run(start, before), last.request, last.fault, Replayed(start, before), uid);
      ReplayedMore(start, attempts);
      forall f ensures Has(start, attempts, uid, f) { HasStep(start, attempts, uid, f); }
      UpdatesKnows(Replayed(start, before), Run(start, before).users, Replayed(start, attempts),
                   Run(start, attempts).users, NewRows(Run(start, before), last.request, last.fault), uid);
    }
  }

  lemma UpdatesKnows(v: View, users: Users, v': View, users': Users, rows: seq<LogRow>, uid: i64)
    requires Updates(v, users, v', users', rows, uid)
    ensures Knows(v', users', uid)
  {}

  lemma HadAtStart(start: State, uid: i64)
    ensures Knows(Replayed(start, []), start.users, uid)
    ensures forall f :: Has(start, [], uid, f)
  {
    var attempts: seq<Attempt> := [];
    assert attempts[..0] == [];
    assert start.logs[|start.logs|..] == [];
  }

  /** For one user: what the client has is the truth exactly when both fields are as they were last logged. */
  lemma UserIsCurrent(start: State, attempts: seq<Attempt>, uid: i64)
    requires Fresh(start) && uid in ViewOf(Run(start, attempts).users)
    ensures uid in Replayed(start, attempts)
    ensures Replayed(start, attempts)[uid] == ViewOf(Run(start, attempts).users)[uid]
            <==> forall f :: AsLogged(start, attempts, uid, f)
  {
    ReplayHas(start, attempts, uid);
    hide Run, Replayed, LastLogged, Fresh;
    var p, q := Replayed(start, attempts)[uid], Run(start, attempts).users[uid].profile;
    assert Has(start, attempts, uid, Gender) && Has(start, attempts, uid, Language);
    assert p == q <==> SameField(p, q, Gender) && SameField(p, q, Language);
    forall f ensures AsLogged(start, attempts, uid, f) <==> SameField(p, q, f) { assert Has(start, attempts, uid, f); }
    if forall f :: AsLogged(start, attempts, uid, f) {
      assert AsLogged(start, attempts, uid, Gender) && AsLogged(start, attempts, uid, Language);
    }
  }

  /** A client that has the snapshot of any moment and replays the rows above its version has the current snapshot
      exactly when of everyone shown now both fields have the value with which they were last logged, or that of
      the snapshot, if they were not logged since: whatever was changed in between. */
  lemma ReplayIsCurrentExactly(start: State, attempts: seq<Attempt>, n: nat)
    requires Fresh(start) && n <= |attempts|
    ensures var earlier, now := Run(start, attempts[..n]), Run(start, attempts);
            && |earlier.logs| <= |now.logs|
            && (Replay(ViewOf(earlier.users), now.logs[|earlier.logs|..]) == ViewOf(now.users)
                <==> forall uid, f :: uid in ViewOf(now.users) ==> AsLogged(earlier, attempts[n..], uid, f))
  {
    var earlier, more := Run(start, attempts[..n]), attempts[n..];
    RunFresh(start, attempts[..n]);
    RunAppend(start, attempts[..n], more);
    assert attempts == attempts[..n] + more;
    LogGrows(earlier, more, 0);
    assert more[..0] == [];
    var v, now := Replayed(earlier, more), ViewOf(Run(earlier, more).users);
    hide Run, AsLogged, Fresh, ViewOf, Replayed;
    forall uid ensures uid in v <==> uid in now {
      ReplayHas(earlier, more, uid);
      KnowsSame(v, Run(earlier, more).users, uid);
    }
    forall uid | uid in now ensures v[uid] == now[uid] <==> forall f :: AsLogged(earlier, more, uid, f) {
      UserIsCurrent(earlier, more, uid);
    }
    assert v == now <==> forall uid :: uid in now ==> v[uid] == now[uid];
    ReplayedIs(earlier, more);
  }

  lemma KnowsSame(v: View, users: Users, uid: i64)
    requires Knows(v, users, uid)
    ensures uid in v <==> uid in ViewOf(users)
  {}

  lemma ReplayedIs(start: State, attempts: seq<Attempt>)
    requires |start.logs| <= |Run(start, attempts).logs|
    ensures Replayed(start, attempts) == Replay(ViewOf(start.users), Run(start, attempts).logs[|start.logs|..])
  {}
}
