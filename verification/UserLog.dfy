/** Users, the log of their changes, and what a client makes of a snapshot and the log. */
module UserLog {
  import opened Bytes
  import opened Results

  // ---------- users and log rows ----------

  /** The logged fields of a user. */
  datatype Profile = Profile(
    email: Option<string>, name: string, gender: int, language: string, isAdmin: bool, isBot: bool,
      avatarUpdatedAt: int)

  /** The fields of a user that are not logged; the password as it is hashed. */
  datatype Account = Account(password: Option<string>, frozen: bool, webhook: Option<string>)

  datatype User = User(profile: Profile, isGuest: bool, account: Account)
  type Users = map<i64, User>

  /** The fields a log row or a request carries. */
  datatype Change = Change(
    email: Option<string>, name: Option<string>, gender: Option<int>, language: Option<string>,
    isAdmin: Option<bool>, isBot: Option<bool>, avatarUpdatedAt: Option<int>)

  const NOTHING: Change := Change(None, None, None, None, None, None, None)

  datatype AccountChange = AccountChange(password: Option<string>, frozen: Option<bool>, webhook: Option<string>)

  const SAME: AccountChange := AccountChange(None, None, None)

  function PatchAccount(a: Account, c: AccountChange): Account {
    Account(if c.password.Some? then c.password else a.password, Or(c.frozen, a.frozen),
            if c.webhook.Some? then c.webhook else a.webhook)
  }

  datatype Action = Created | Updated | Deleted
  datatype LogRow = LogRow(uid: i64, action: Action, change: Change)

  function Or<T>(o: Option<T>, otherwise: T): T { if o.Some? then o.value else otherwise }

  function Patch(p: Profile, c: Change): Profile {
    Profile(if c.email.Some? then c.email else p.email,
            Or(c.name, p.name), Or(c.gender, p.gender), Or(c.language, p.language),
            Or(c.isAdmin, p.isAdmin), Or(c.isBot, p.isBot), Or(c.avatarUpdatedAt, p.avatarUpdatedAt))
  }

  function AllOf(p: Profile): Change {
    Change(p.email, Some(p.name), Some(p.gender), Some(p.language), Some(p.isAdmin), Some(p.isBot),
      Some(p.avatarUpdatedAt))
  }

  // ---------- the client's side ----------

  type View = map<i64, Profile>

  /** What the snapshot of the users shows: guests are left out. */
  function ViewOf(users: Users): View { map uid | uid in users && !users[uid].isGuest :: users[uid].profile }

  const BLANK: Profile := Profile(None, "", 0, "", false, false, 0)

  /** A client applies a row: an update of a user it does not know does nothing. */
  function Apply(v: View, row: LogRow): View {
    match row.action
    case Created => v[row.uid := Patch(BLANK, row.change)]
    case Updated => if row.uid in v then v[row.uid := Patch(v[row.uid], row.change)] else v
    case Deleted => v - {row.uid}
  }

  function Replay(v: View, rows: seq<LogRow>): View {
    if rows == [] then v else Apply(Replay(v, rows[..|rows| - 1]), rows[|rows| - 1])
  }

  lemma {:induction false} ReplayAppend(v: View, rows: seq<LogRow>, more: seq<LogRow>)
    ensures Replay(v, rows + more) == Replay(Replay(v, rows), more)
  {
    if more == [] {
      assert rows + more == rows;
    } else {
      assert (rows + more)[..|rows + more| - 1] == rows + more[..|more| - 1];
      ReplayAppend(v, rows, more[..|more| - 1]);
    }
  }

  // ---------- names and addresses are compared without regard to ASCII case ----------

  function Lower(c: char): char { if 'A' <= c <= 'Z' then c + 32 as char else c }

  function Fold(s: string): string { seq(|s|, i requires 0 <= i < |s| => Lower(s[i])) }

  predicate NameTaken(users: Users, name: string) {
    exists uid | uid in users :: Fold(users[uid].profile.name) == Fold(name)
  }

  predicate EmailTaken(users: Users, email: string) {
    exists uid | uid in users :: users[uid].profile.email.Some? && Fold(users[uid].profile.email.value) == Fold(email)
  }

  // ---------- what the requests do ----------

  datatype Answer =
    | Done | NotFound | Unauthorized | Forbidden | BadRequest | NameConflict | EmailConflict | InvalidWebhookUrl
    | TooLarge | Internal

  /** An uploaded picture: whether it is one, and whether its file can be written. */
  datatype Upload = Unreadable | Picture(data: seq<bv8>, decodes: bool, saves: bool)

  datatype Token = Token(uid: i64, isAdmin: bool, isGuest: bool)

  datatype Request =
    | CreateUser(profile: Profile, isGuest: bool, account: Account)
    | UpdateSelf(token: Token, name: Option<string>, gender: Option<int>, language: Option<string>)
    | UploadAvatar(token: Token, now: int, upload: Upload)
    | AdminUpdate(token: Token, uid: i64, change: Change, accountChange: AccountChange, webhookAnswers: bool)
    | AdminAvatar(token: Token, uid: i64, now: int, upload: Upload)
    | DeleteUser(uid: i64)

  /** `logs`: the log rows; a version is the number of rows. `avatars`: the files. */
  datatype State = State(users: Users, logs: seq<LogRow>, lastUid: nat, avatars: map<i64, seq<bv8>>, avatarLimit: nat)

  function UploadRefusal(limit: nat, upload: Upload): Answer {
    if upload.Unreadable? then BadRequest
    else if |upload.data| > limit then TooLarge
    else if !upload.decodes then BadRequest
    else if !upload.saves then Internal
    else Done
  }

  function RefusalOf(st: State, r: Request): Answer {
    match r
    case CreateUser(profile, isGuest, _) =>
      if NameTaken(st.users, profile.name) then NameConflict
      else if profile.email.Some? && EmailTaken(st.users, profile.email.value) then EmailConflict
      else if st.lastUid >= I64_MAX then Internal
      else Done
    case UpdateSelf(token, name, gender, language) =>
      if token.isGuest then Forbidden
      else if name.None? && gender.None? && language.None? then BadRequest
      else if name.Some? && NameTaken(st.users, name.value) then NameConflict
      else if token.uid !in st.users then Unauthorized
      else Done
    case UploadAvatar(token, _, upload) =>
      if token.isGuest then Forbidden else if token.uid !in st.users then Unauthorized
      else UploadRefusal(st.avatarLimit, upload)
    case AdminUpdate(token, uid, change, account, webhookAnswers) =>
      if change.(avatarUpdatedAt := None) == NOTHING && account == SAME then BadRequest
      else if !token.isAdmin && token.uid != uid then Forbidden
      else if !token.isAdmin && (change.(name := None, avatarUpdatedAt := None) != NOTHING || account.frozen.Some?)
        then Forbidden
      else if uid !in st.users then NotFound
      else if change.email.Some? && st.users[uid].profile.email != change.email
        && EmailTaken(st.users, change.email.value) then EmailConflict
      else if change.name.Some? && Fold(st.users[uid].profile.name) != Fold(change.name.value)
        && NameTaken(st.users, change.name.value) then
        NameConflict
      else if account.webhook.Some? && !webhookAnswers then InvalidWebhookUrl
      else Done
    case AdminAvatar(token, uid, _, upload) =>
      if !token.isAdmin then Forbidden else if uid !in st.users then Unauthorized
      else UploadRefusal(st.avatarLimit, upload)
    case DeleteUser(uid) => if uid !in st.users then NotFound else Done
  }

  /** The condition under which a user's change of its own data is logged. */
  predicate SelfUpdateLogged(name: Option<string>, gender: Option<int>, language: Option<string>) {
    name.Some? || (gender.Some? && language.Some?)
  }

  function Changed(users: Users, uid: i64, c: Change): Users
    requires uid in users
  {
    users[uid := users[uid].(profile := Patch(users[uid].profile, c))]
  }

  function ChangedAccount(users: Users, uid: i64, c: AccountChange): Users
    requires uid in users
  {
    users[uid := users[uid].(account := PatchAccount(users[uid].account, c))]
  }

  function Granted(st: State, r: Request): State
    requires RefusalOf(st, r).Done?
  {
    match r
    case CreateUser(profile, isGuest, account) =>
      var uid: i64 := st.lastUid + 1;
      st.(users := st.users[uid := User(profile, isGuest, account)], lastUid := uid,
          logs := if isGuest then st.logs else st.logs + [LogRow(uid, Created, AllOf(profile))])
    case UpdateSelf(token, name, gender, language) =>
      var c := NOTHING.(name := name, gender := gender, language := language);
      st.(users := Changed(st.users, token.uid, c),
          logs := if SelfUpdateLogged(name, gender, language) then st.logs + [LogRow(token.uid, Updated, c)]
            else st.logs)
    case UploadAvatar(token, now, upload) =>
      var c := NOTHING.(avatarUpdatedAt := Some(now));
      st.(users := Changed(st.users, token.uid, c), logs := st.logs + [LogRow(token.uid, Updated, c)],
          avatars := st.avatars[token.uid := upload.data])
    case AdminUpdate(token, uid, change, account, _) =>
      var c := change.(avatarUpdatedAt := None);
      st.(users := ChangedAccount(Changed(st.users, uid, c), uid, account), logs := st.logs + [LogRow(uid, Updated, c)])
    case AdminAvatar(token, uid, now, upload) =>
      var c := NOTHING.(avatarUpdatedAt := Some(now));
      st.(users := Changed(st.users, uid, c), logs := st.logs + [LogRow(uid, Updated, c)],
          avatars := st.avatars[uid := upload.data])
    case DeleteUser(uid) =>
      st.(users := st.users - {uid},
          logs := if st.users[uid].isGuest then st.logs else st.logs + [LogRow(uid, Deleted, NOTHING)])
  }

  /** What a request leaves behind whose transaction fails: the file of a picture has been written by then. */
  function Failed(st: State, r: Request): State
    requires RefusalOf(st, r).Done?
  {
    match r
    case UploadAvatar(token, _, upload) => st.(avatars := st.avatars[token.uid := upload.data])
    case AdminAvatar(_, uid, _, upload) => st.(avatars := st.avatars[uid := upload.data])
    case _ => st
  }

  function After(st: State, r: Request, fault: bool): State {
    if !RefusalOf(st, r).Done? then st else if fault then Failed(st, r) else Granted(st, r)
  }

  /** The answer, if a failing transaction is one as well. */
  function AnswerOf(st: State, r: Request, fault: bool): Answer {
    if RefusalOf(st, r).Done? && fault then Internal else RefusalOf(st, r)
  }

  datatype Attempt = Attempt(request: Request, fault: bool)

  function Run(start: State, attempts: seq<Attempt>): State {
    if attempts == [] then start else
      var last := attempts[|attempts| - 1];
      After(Run(start, attempts[..|attempts| - 1]), last.request, last.fault)
  }

  // ---------- replaying the log ----------

  ghost predicate Fresh(st: State) { forall uid :: uid in st.users ==> uid <= st.lastUid }

  /** The rows a request adds. */
  ghost function NewRows(st: State, r: Request, fault: bool): seq<LogRow>
    ensures After(st, r, fault).logs == st.logs + NewRows(st, r, fault)
  {
    After(st, r, fault).logs[|st.logs|..]
  }

  /** The rows a request adds turn the old view into the new one. */
  ghost predicate RowsExplain(st: State, r: Request, fault: bool) {
    ViewOf(After(st, r, fault).users) == Replay(ViewOf(st.users), NewRows(st, r, fault))
  }

  lemma ReplayOne(v: View, row: LogRow)
    ensures Replay(v, []) == v && Replay(v, [row]) == Apply(v, row)
  {
    assert [row][..0] == [];
  }

  lemma CreateExplained(st: State, r: Request)
    requires Fresh(st) && r.CreateUser? && RefusalOf(st, r).Done?
    ensures RowsExplain(st, r, false)
  {
    var uid: i64 := st.lastUid + 1;
    ReplayOne(ViewOf(st.users), LogRow(uid, Created, AllOf(r.profile)));
    assert Patch(BLANK, AllOf(r.profile)) == r.profile;
    assert uid !in st.users;
  }

  lemma ChangeExplained(users: Users, uid: i64, c: Change)
    requires uid in users
    ensures ViewOf(Changed(users, uid, c)) == Replay(ViewOf(users), [LogRow(uid, Updated, c)])
  {
    ReplayOne(ViewOf(users), LogRow(uid, Updated, c));
  }

  lemma AccountUnseen(users: Users, uid: i64, c: AccountChange)
    requires uid in users
    ensures ViewOf(ChangedAccount(users, uid, c)) == ViewOf(users)
  {}

  lemma DeleteExplained(st: State, r: Request)
    requires r.DeleteUser? && RefusalOf(st, r).Done?
    ensures RowsExplain(st, r, false)
  {
    ReplayOne(ViewOf(st.users), LogRow(r.uid, Deleted, NOTHING));
  }

  /** A user's change of its own data is explained by the log exactly when it is logged, or
      the user is a guest, or the values were the old ones. */
  lemma SelfUpdateExplained(st: State, token: Token, name: Option<string>, gender: Option<int>,
      language: Option<string>)
    requires RefusalOf(st, UpdateSelf(token, name, gender, language)).Done?
    ensures RowsExplain(st, UpdateSelf(token, name, gender, language), false) <==>
              var user := st.users[token.uid];
              || SelfUpdateLogged(name, gender, language)
              || user.isGuest
              || (Or(gender, user.profile.gender) == user.profile.gender
                && Or(language, user.profile.language) == user.profile.language)
  {
    var c := NOTHING.(name := name, gender := gender, language := language);
    var uid, before, after := token.uid, ViewOf(st.users), ViewOf(Changed(st.users, token.uid, c));
    ReplayOne(before, LogRow(uid, Updated, c));
    if SelfUpdateLogged(name, gender, language) {
      ChangeExplained(st.users, uid, c);
    } else if st.users[uid].isGuest {
      assert after == before;
    } else {
      assert before[uid] == st.users[uid].profile && after[uid] == Patch(st.users[uid].profile, c);
      assert forall u :: u in before && u != uid ==> after[u] == before[u];
      assert after == before <==> after[uid] == before[uid];
    }
  }

  /** Whether a request leaves the log complete; only a user's change of its own data may not. */
  predicate LeavesLogComplete(st: State, r: Request) {
    r.UpdateSelf? && RefusalOf(st, r).Done? ==>
      var user := st.users[r.token.uid];
      || SelfUpdateLogged(r.name, r.gender, r.language)
      || user.isGuest
      || (Or(r.gender, user.profile.gender) == user.profile.gender
        && Or(r.language, user.profile.language) == user.profile.language)
  }

  lemma RequestExplained(st: State, r: Request, fault: bool)
    requires Fresh(st) && LeavesLogComplete(st, r)
    ensures RowsExplain(st, r, fault) && Fresh(After(st, r, fault))
  {
    if !RefusalOf(st, r).Done? || fault {
      assert NewRows(st, r, fault) == [];
    } else {
      GrantedExplained(st, r);
      assert NewRows(st, r, fault) == NewRows(st, r, false);
    }
  }

  lemma GrantedExplained(st: State, r: Request)
    requires Fresh(st) && LeavesLogComplete(st, r) && RefusalOf(st, r).Done?
    ensures RowsExplain(st, r, false)
  {
    match r {
      case CreateUser(_, _, _) => CreateExplained(st, r);
      case UpdateSelf(token, name, gender, language) => SelfUpdateExplained(st, token, name, gender, language);
      case UploadAvatar(token, now, _) => ChangeExplained(st.users, token.uid, NOTHING.(avatarUpdatedAt := Some(now)));
      case AdminUpdate(_, uid, change, account, _) =>
        ChangeExplained(st.users, uid, change.(avatarUpdatedAt := None));
        AccountUnseen(Changed(st.users, uid, change.(avatarUpdatedAt := None)), uid, account);
      case AdminAvatar(_, uid, now, _) => ChangeExplained(st.users, uid, NOTHING.(avatarUpdatedAt := Some(now)));
      case DeleteUser(_) => DeleteExplained(st, r);
    }
  }

  ghost predicate LogComplete(start: State, attempts: seq<Attempt>) {
    forall i :: 0 <= i < |attempts| ==> LeavesLogComplete(Run(start, attempts[..i]), attempts[i].request)
  }

  lemma CompletePrefix(start: State, attempts: seq<Attempt>, n: nat)
    requires LogComplete(start, attempts) && n <= |attempts|
    ensures LogComplete(start, attempts[..n])
  {
    forall i | 0 <= i < n ensures LeavesLogComplete(Run(start, attempts[..n][..i]), attempts[..n][i].request) {
      assert attempts[..n][..i] == attempts[..i];
    }
  }

  lemma LastComplete(start: State, attempts: seq<Attempt>, n: nat)
    requires LogComplete(start, attempts) && n < |attempts|
    ensures LeavesLogComplete(Run(start, attempts[..n]), attempts[n].request)
  {}

  lemma {:induction false} RunExplainedFromStart(start: State, attempts: seq<Attempt>)
    requires Fresh(start) && LogComplete(start, attempts)
    ensures Fresh(Run(start, attempts)) && Explains(start, Run(start, attempts))
  {
    hide Fresh, LeavesLogComplete, LogComplete, Explains, RowsExplain, After;
    if attempts == [] {
      ExplainsItself(start);
    } else {
      var before, last := attempts[..|attempts| - 1], attempts[|attempts| - 1];
      CompletePrefix(start, attempts, |attempts| - 1);
      RunExplainedFromStart(start, before);
      LastComplete(start, attempts, |attempts| - 1);
      RequestExplained(Run(start, before), last.request, last.fault);
      ExplainsMore(start, Run(start, before), last.request, last.fault);
    }
  }

  /** The rows added since `earlier` turn its view into that of `later`. */
  ghost predicate Explains(earlier: State, later: State) {
    && |earlier.logs| <= |later.logs| && later.logs[..|earlier.logs|] == earlier.logs
    && Replay(ViewOf(earlier.users), later.logs[|earlier.logs|..]) == ViewOf(later.users)
  }

  lemma ExplainsItself(st: State)
    ensures Explains(st, st)
  {
    assert st.logs[|st.logs|..] == [];
  }

  lemma ReplayMore(v: View, logs: seq<LogRow>, n: nat, added: seq<LogRow>)
    requires n <= |logs|
    ensures (logs + added)[..n] == logs[..n]
    ensures Replay(v, (logs + added)[n..]) == Replay(Replay(v, logs[n..]), added)
  {
    assert (logs + added)[n..] == logs[n..] + added;
    ReplayAppend(v, logs[n..], added);
  }

  lemma ExplainsMore(start: State, st: State, r: Request, fault: bool)
    requires Explains(start, st) && RowsExplain(st, r, fault)
    ensures Explains(start, After(st, r, fault))
  {
    var added := NewRows(st, r, fault);
    hide After, NewRows, ViewOf, Replay;
    ReplayMore(ViewOf(start.users), st.logs, |start.logs|, added);
  }

  lemma StepFresh(st: State, r: Request, fault: bool)
    requires Fresh(st)
    ensures Fresh(After(st, r, fault))
  {}

  lemma {:induction false} RunFresh(start: State, attempts: seq<Attempt>)
    requires Fresh(start)
    ensures Fresh(Run(start, attempts))
  {
    if attempts != [] {
      var before, last := attempts[..|attempts| - 1], attempts[|attempts| - 1];
      RunFresh(start, before);
      StepFresh(Run(start, before), last.request, last.fault);
    }
  }

  /** The log only grows. */
  lemma {:induction false} LogGrows(start: State, attempts: seq<Attempt>, m: nat)
    requires m <= |attempts|
    ensures Run(start, attempts[..m]).logs <= Run(start, attempts).logs
  {
    if m < |attempts| {
      var before, last := attempts[..|attempts| - 1], attempts[|attempts| - 1];
      LogGrows(start, before, m);
      assert before[..m] == attempts[..m];
      var added := NewRows(Run(start, before), last.request, last.fault);
    } else {
      assert attempts[..m] == attempts;
    }
  }

  /** A client that has the snapshot of any moment and replays the rows above its version has the current snapshot,
      if the changes since then left the log complete, whatever those before did. */
  lemma ReplayIsCurrent(start: State, attempts: seq<Attempt>, n: nat)
    requires Fresh(start) && n <= |attempts| && LogComplete(Run(start, attempts[..n]), attempts[n..])
    ensures var earlier, now := Run(start, attempts[..n]), Run(start, attempts);
            && |earlier.logs| <= |now.logs|
            && Replay(ViewOf(earlier.users), now.logs[|earlier.logs|..]) == ViewOf(now.users)
  {
    hide LogComplete, Fresh, Run, ViewOf, Replay;
    RunFresh(start, attempts[..n]);
    RunAppend(start, attempts[..n], attempts[n..]);
    assert attempts == attempts[..n] + attempts[n..];
    RunExplainedFromStart(Run(start, attempts[..n]), attempts[n..]);
  }

  lemma {:induction false} RunAppend(start: State, attempts: seq<Attempt>, more: seq<Attempt>)
    ensures Run(start, attempts + more) == Run(Run(start, attempts), more)
  {
    if more == [] {
      assert attempts + more == attempts;
    } else {
      assert (attempts + more)[..|attempts + more| - 1] == attempts + more[..|more| - 1];
      RunAppend(start, attempts, more[..|more| - 1]);
    }
  }

  // ---------- names and addresses stay unique ----------

  ghost predicate NamesDiffer(users: Users) {
    forall u, v :: u in users && v in users && u != v ==> Fold(users[u].profile.name) != Fold(users[v].profile.name)
  }

  ghost predicate EmailsDiffer(users: Users) {
    forall u, v :: u in users && v in users && u != v
                   && users[u].profile.email.Some? && users[v].profile.email.Some? ==>
      Fold(users[u].profile.email.value) != Fold(users[v].profile.email.value)
  }

  lemma NamesKept(st: State, r: Request)
    requires NamesDiffer(st.users) && RefusalOf(st, r).Done?
    ensures NamesDiffer(Granted(st, r).users)
  {
    hide Fold, EmailTaken, UploadRefusal;
  }

  lemma EmailsKept(st: State, r: Request)
    requires EmailsDiffer(st.users) && RefusalOf(st, r).Done?
    ensures EmailsDiffer(Granted(st, r).users)
  {
    hide Fold, NameTaken, UploadRefusal;
  }

  /** In every reachable state no two users share a name or an address, whatever the case of the letters. */
  lemma {:induction false} NamesAndEmailsUnique(start: State, attempts: seq<Attempt>)
    requires NamesDiffer(start.users) && EmailsDiffer(start.users)
    ensures NamesDiffer(Run(start, attempts).users) && EmailsDiffer(Run(start, attempts).users)
  {
    if attempts != [] {
      var before, last := Run(start, attempts[..|attempts| - 1]), attempts[|attempts| - 1];
      NamesAndEmailsUnique(start, attempts[..|attempts| - 1]);
      if RefusalOf(before, last.request).Done? {
        NamesKept(before, last.request);
        EmailsKept(before, last.request);
      }
    }
  }

  // ---------- what a new session is sent ----------

  datatype Fetched = Nothing | Rows(rows: seq<(int, LogRow)>) | Snapshot(users: View, version: int)

  /** A snapshot needs a version, so there must be a row as soon as there is a user to show. */
  ghost predicate HasVersion(st: State) { ViewOf(st.users) != map[] ==> st.logs != [] }

  lemma VersionKept(st: State, r: Request)
    requires HasVersion(st) && RefusalOf(st, r).Done?
    ensures HasVersion(Granted(st, r))
  {
    if r.CreateUser? && r.isGuest {
      assert ViewOf(Granted(st, r).users).Keys - {Granted(st, r).lastUid} <= ViewOf(st.users).Keys;
    }
    if Granted(st, r).logs == [] && !r.CreateUser? {
      assert ViewOf(Granted(st, r).users).Keys <= ViewOf(st.users).Keys;
    }
  }

  /** Rows carry their ids, 1, 2, 3, ... */
  function Numbered(logs: seq<LogRow>, from: nat): (r: seq<(int, LogRow)>)
    requires from <= |logs|
    ensures |r| == |logs| - from && forall i :: 0 <= i < |r| ==> r[i] == (from + i + 1, logs[from + i])
  {
    seq(|logs| - from, i requires 0 <= i < |logs| - from => (from + i + 1, logs[from + i]))
  }

  lemma NextRow(logs: seq<LogRow>, from: nat, i: nat)
    requires from <= i < |logs|
    ensures Numbered(logs, from)[..i + 1 - from] == Numbered(logs, from)[..i - from] + [(i + 1, logs[i])]
  {}

  method FetchUserLog(st: State, version: Option<int>) returns (r: Fetched)
    requires HasVersion(st)
    ensures version.Some? ==>
              var from := if version.value < 0 then 0
                          else if version.value > |st.logs| then |st.logs| else version.value;
              r == if from < |st.logs| then Rows(Numbered(st.logs, from)) else Nothing
    ensures version.None? ==>
              r == if ViewOf(st.users) == map[] then Nothing else Snapshot(ViewOf(st.users), |st.logs|)
  {
    hide *;
    match version {
      case None =>
        var users := ViewOf(st.users);
        if users == map[] { return Nothing; }
        return Snapshot(users, |st.logs|);
      case Some(v) =>
        var rows := [];
        ghost var from := if v < 0 then 0 else if v > |st.logs| then |st.logs| else v;
        for i := 0 to |st.logs|
          invariant rows == if i <= from then [] else Numbered(st.logs, from)[..i - from]
        {
          if i >= from { NextRow(st.logs, from, i); }
          if i + 1 > v { rows := rows + [(i + 1, st.logs[i])]; }
        }
        assert Numbered(st.logs, from)[..|st.logs| - from] == Numbered(st.logs, from);
        if rows == [] { return Nothing; }
        return Rows(rows);
    }
  }

  // ---------- what every request keeps ----------

  /** User ids are never used again, names and addresses differ, and a snapshot has a version. */
  ghost predicate Orderly(st: State) {
    Fresh(st) && NamesDiffer(st.users) && EmailsDiffer(st.users) && HasVersion(st)
  }

  lemma OrderlyKept(st: State, r: Request, fault: bool)
    requires Orderly(st)
    ensures Orderly(After(st, r, fault))
  {
    hide NamesDiffer, EmailsDiffer, HasVersion;
    if RefusalOf(st, r).Done? {
      NamesKept(st, r);
      EmailsKept(st, r);
      VersionKept(st, r);
      if fault { SameUsers(st, Failed(st, r)); }
    }
  }

  lemma SameUsers(st: State, after: State)
    requires Orderly(st) && after.users == st.users && after.logs == st.logs && after.lastUid == st.lastUid
    ensures Orderly(after)
  {}

  // ---------- the handlers ----------

  class UserServer {
    var users: Users
    var logs: seq<LogRow>
    var lastUid: nat
    var avatars: map<i64, seq<bv8>>
    const avatarLimit: nat

    ghost function Now(): State
      reads this
    {
      State(users, logs, lastUid, avatars, avatarLimit)
    }

    ghost predicate Valid()
      reads this
    {
      Orderly(Now())
    }

    constructor (st: State)
      requires Orderly(st)
      ensures Valid() && Now() == st
    {
      this.users, this.logs, this.lastUid := st.users, st.logs, st.lastUid;
      this.avatars, this.avatarLimit := st.avatars, st.avatarLimit;
    }

    /** `create_user`: both conflict checks, the row, the log row and the cache entry under one guard. */
    method CreateUser(profile: Profile, isGuest: bool, account: Account, fault: bool) returns (a: Answer)
      requires Valid()
      modifies this
      ensures Valid() && a == AnswerOf(old(Now()), Request.CreateUser(profile, isGuest, account), fault)
      ensures Now() == After(old(Now()), Request.CreateUser(profile, isGuest, account), fault)
    {
      hide Orderly;
      OrderlyKept(Now(), Request.CreateUser(profile, isGuest, account), fault);
      if NameTaken(users, profile.name) { return NameConflict; }
      if profile.email.Some? {
        if EmailTaken(users, profile.email.value) { return EmailConflict; }
      }
      if fault || lastUid >= I64_MAX { return Internal; }
      lastUid := lastUid + 1;
      if !isGuest { logs := logs + [LogRow(lastUid, Created, AllOf(profile))]; }
      users := users[lastUid := User(profile, isGuest, account)];
      return Done;
    }

    method UpdateUser(token: Token, name: Option<string>, gender: Option<int>, language: Option<string>, fault: bool)
        returns (a: Answer)
      requires Valid()
      modifies this
      ensures Valid() && a == AnswerOf(old(Now()), UpdateSelf(token, name, gender, language), fault)
      ensures Now() == After(old(Now()), UpdateSelf(token, name, gender, language), fault)
    {
      hide Orderly;
      OrderlyKept(Now(), UpdateSelf(token, name, gender, language), fault);
      if token.isGuest { return Forbidden; }
      if name.None? && gender.None? && language.None? { return BadRequest; }
      if name.Some? {
        if NameTaken(users, name.value) { return NameConflict; }
      }
      if token.uid !in users { return Unauthorized; }
      if fault { return Internal; }
      if name.Some? || (gender.Some? && language.Some?) {
        logs := logs + [LogRow(token.uid, Updated, NOTHING.(name := name, gender := gender, language := language))];
      }
      var p := users[token.uid].profile;
      if name.Some? { p := p.(name := name.value); }
      if gender.Some? { p := p.(gender := gender.value); }
      if language.Some? { p := p.(language := language.value); }
      users := users[token.uid := users[token.uid].(profile := p)];
      return Done;
    }

    /** Reading the picture and writing its file: the part that both avatar handlers share. */
    method SaveAvatar(uid: i64, upload: Upload) returns (a: Answer)
      modifies this`avatars
      ensures a == UploadRefusal(avatarLimit, upload)
      ensures avatars == if a.Done? then old(avatars)[uid := upload.data] else old(avatars)
    {
      match upload {
        case Unreadable => return BadRequest;
        case Picture(data, decodes, saves) =>
          if |data| > avatarLimit { return TooLarge; }
          if !decodes { return BadRequest; }
          if !saves { return Internal; }
          avatars := avatars[uid := data];
          return Done;
      }
    }

    method SetAvatar(token: Token, now: int, upload: Upload, fault: bool) returns (a: Answer)
      requires Valid()
      modifies this
      ensures Valid() && a == AnswerOf(old(Now()), UploadAvatar(token, now, upload), fault)
      ensures Now() == After(old(Now()), UploadAvatar(token, now, upload), fault)
    {
      hide Orderly;
      OrderlyKept(Now(), UploadAvatar(token, now, upload), fault);
      if token.isGuest { return Forbidden; }
      if token.uid !in users { return Unauthorized; }
      a := SaveAvatar(token.uid, upload);
      if a != Done { return; }
      if fault { return Internal; }
      logs := logs + [LogRow(token.uid, Updated, NOTHING.(avatarUpdatedAt := Some(now)))];
      users := users[token.uid := users[token.uid].(profile := users[token.uid].profile.(avatarUpdatedAt := now))];
    }

    method CheckAdminUpdate(token: Token, uid: i64, c: Change, account: AccountChange, webhookAnswers: bool)
        returns (a: Answer)
      requires c.avatarUpdatedAt.None?
      ensures a == RefusalOf(Now(), AdminUpdate(token, uid, c, account, webhookAnswers))
      ensures a.Done? ==>
                uid in users
                && (token.isAdmin || (token.uid == uid && c == NOTHING.(name := c.name) && account.frozen.None?))
    {
      if c == NOTHING && account == SAME { return BadRequest; }
      var isSelf := token.uid == uid;
      if !token.isAdmin && !isSelf { return Forbidden; }
      if isSelf && !token.isAdmin {
        if c.email.Some? || c.gender.Some? || c.isAdmin.Some? || c.isBot.Some? || c.language.Some?
          || account.frozen.Some? {
          return Forbidden;
        }
      }
      if uid !in users { return NotFound; }
      var p := users[uid].profile;
      if c.email.Some? {
        if p.email != c.email && EmailTaken(users, c.email.value) { return EmailConflict; }
      }
      if c.name.Some? {
        if Fold(p.name) != Fold(c.name.value) && NameTaken(users, c.name.value) { return NameConflict; }
      }
      if account.webhook.Some? {
        if !webhookAnswers { return InvalidWebhookUrl; }
      }
      return Done;
    }

    static method PatchFields(profile: Profile, c: Change) returns (p: Profile)
      requires c.avatarUpdatedAt.None?
      ensures p == Patch(profile, c)
    {
      p := profile;
      if c.email.Some? { p := p.(email := c.email); }
      if c.name.Some? { p := p.(name := c.name.value); }
      if c.gender.Some? { p := p.(gender := c.gender.value); }
      if c.language.Some? { p := p.(language := c.language.value); }
      if c.isAdmin.Some? { p := p.(isAdmin := c.isAdmin.value); }
      if c.isBot.Some? { p := p.(isBot := c.isBot.value); }
    }

    static method PatchAccountFields(account: Account, c: AccountChange) returns (a: Account)
      ensures a == PatchAccount(account, c)
    {
      a := account;
      if c.password.Some? { a := a.(password := c.password); }
      if c.frozen.Some? { a := a.(frozen := c.frozen.value); }
      if c.webhook.Some? { a := a.(webhook := c.webhook); }
    }

    method UpdateByAdmin(token: Token, uid: i64, c: Change, account: AccountChange, webhookAnswers: bool, fault: bool)
        returns (a: Answer)
      requires Valid() && c.avatarUpdatedAt.None?
      modifies this
      ensures Valid() && a == AnswerOf(old(Now()), AdminUpdate(token, uid, c, account, webhookAnswers), fault)
      ensures Now() == After(old(Now()), AdminUpdate(token, uid, c, account, webhookAnswers), fault)
      ensures a.Done? ==>
                uid in old(users)
                && (token.isAdmin || (token.uid == uid && c == NOTHING.(name := c.name) && account.frozen.None?))
    {
      hide Orderly, Patch, PatchAccount;
      OrderlyKept(Now(), AdminUpdate(token, uid, c, account, webhookAnswers), fault);
      a := CheckAdminUpdate(token, uid, c, account, webhookAnswers);
      if a != Done { return; }
      assert uid in users;
      if fault { return Internal; }
      logs := logs + [LogRow(uid, Updated, c)];
      var p := PatchFields(users[uid].profile, c);
      var acc := PatchAccountFields(users[uid].account, account);
      assert c.(avatarUpdatedAt := None) == c;
      users := users[uid := users[uid].(profile := p, account := acc)];
      assert users == ChangedAccount(Changed(old(users), uid, c), uid, account);
      assert Now() == After(old(Now()), AdminUpdate(token, uid, c, account, webhookAnswers), fault);
    }

    method SetAvatarByAdmin(token: Token, uid: i64, now: int, upload: Upload, fault: bool) returns (a: Answer)
      requires Valid()
      modifies this
      ensures Valid() && a == AnswerOf(old(Now()), AdminAvatar(token, uid, now, upload), fault)
      ensures Now() == After(old(Now()), AdminAvatar(token, uid, now, upload), fault)
    {
      hide Orderly;
      OrderlyKept(Now(), AdminAvatar(token, uid, now, upload), fault);
      if !token.isAdmin { return Forbidden; }
      if uid !in users { return Unauthorized; }
      a := SaveAvatar(uid, upload);
      if a != Done { return; }
      if fault { return Internal; }
      logs := logs + [LogRow(uid, Updated, NOTHING.(avatarUpdatedAt := Some(now)))];
      users := users[uid := users[uid].(profile := users[uid].profile.(avatarUpdatedAt := now))];
    }

    method RemoveUser(uid: i64, fault: bool) returns (a: Answer)
      requires Valid()
      modifies this
      ensures Valid() && a == AnswerOf(old(Now()), DeleteUser(uid), fault)
      ensures Now() == After(old(Now()), DeleteUser(uid), fault)
    {
      hide Orderly;
      OrderlyKept(Now(), DeleteUser(uid), fault);
      if uid !in users { return NotFound; }
      var isGuest := users[uid].isGuest;
      if fault { return Internal; }
      if !isGuest { logs := logs + [LogRow(uid, Deleted, NOTHING)]; }
      users := users - {uid};
      return Done;
    }
  }
}
