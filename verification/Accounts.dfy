/** What a user is after any run of requests: who may change what, and that every field has the value given last. */
module Accounts {
  import opened Bytes
  import opened Results
  import opened UserLog
  import opened LastGiven

  // ---------- names without regard to case ----------

  predicate SameLetter(a: char, b: char) {
    a == b || ('A' <= a <= 'Z' && b as int == a as int + 32) || ('A' <= b <= 'Z' && a as int == b as int + 32)
  }

  predicate SameLetters(a: string, b: string) {
    |a| == |b| && forall i :: 0 <= i < |a| ==> SameLetter(a[i], b[i])
  }

  /** Folding compares texts by their letters, without regard to ASCII case and to nothing else. */
  lemma FoldIgnoresCase(a: string, b: string)
    ensures Fold(a) == Fold(b) <==> SameLetters(a, b)
  {
    if Fold(a) == Fold(b) {
      assert |a| == |Fold(a)| && |b| == |Fold(b)|;
      forall i | 0 <= i < |a| ensures SameLetter(a[i], b[i]) { assert Fold(a)[i] == Fold(b)[i]; }
    }
    if SameLetters(a, b) {
      forall i | 0 <= i < |a| ensures Fold(a)[i] == Fold(b)[i] { assert SameLetter(a[i], b[i]); }
    }
  }

  ghost predicate NameInUse(users: Users, name: string) {
    exists uid :: uid in users && SameLetters(users[uid].profile.name, name)
  }

  ghost predicate EmailInUse(users: Users, email: string) {
    exists uid :: uid in users && users[uid].profile.email.Some? && SameLetters(users[uid].profile.email.value, email)
  }

  lemma TakenIsInUse(users: Users)
    ensures forall name :: NameTaken(users, name) <==> NameInUse(users, name)
    ensures forall email :: EmailTaken(users, email) <==> EmailInUse(users, email)
  {
    hide Fold, SameLetters;
    forall name ensures NameTaken(users, name) <==> NameInUse(users, name) {
      forall uid | uid in users { FoldIgnoresCase(users[uid].profile.name, name); }
    }
    forall email ensures EmailTaken(users, email) <==> EmailInUse(users, email) {
      forall uid | uid in users && users[uid].profile.email.Some? {
        FoldIgnoresCase(users[uid].profile.email.value, email);
      }
    }
  }

  // ---------- which requests go through ----------

  predicate GoodPicture(st: State, upload: Upload) {
    upload.Picture? && |upload.data| <= st.avatarLimit && upload.decodes && upload.saves
  }

  /** Whether a request asks for a change of what only administrators may change. */
  predicate AsksForRights(c: Change, a: AccountChange) {
    c.email.Some? || c.gender.Some? || c.language.Some? || c.isAdmin.Some? || c.isBot.Some? || a.frozen.Some?
  }

  predicate AsksForAnything(c: Change, a: AccountChange) {
    AsksForRights(c, a) || c.name.Some? || a.password.Some? || a.webhook.Some?
  }

  /** Administrators may change everybody; all others only themselves, and of themselves no address, no rights and
      nothing that would unfreeze them. Names and addresses must be free. */
  ghost predicate Permitted(st: State, r: Request) {
    match r
    case CreateUser(profile, _, _) =>
      && !NameInUse(st.users, profile.name)
      && (profile.email.Some? ==> !EmailInUse(st.users, profile.email.value)) && st.lastUid < I64_MAX
    case UpdateSelf(token, name, gender, language) =>
      && !token.isGuest && token.uid in st.users && (name.Some? || gender.Some? || language.Some?)
      && (name.Some? ==> !NameInUse(st.users, name.value))
    case UploadAvatar(token, _, upload) => !token.isGuest && token.uid in st.users && GoodPicture(st, upload)
    case AdminUpdate(token, uid, c, a, webhookAnswers) =>
      && (token.isAdmin || (token.uid == uid && !AsksForRights(c, a)))
      && uid in st.users && AsksForAnything(c, a)
      && (c.email.Some? ==> c.email == st.users[uid].profile.email || !EmailInUse(st.users, c.email.value))
      && (c.name.Some? ==>
            SameLetters(st.users[uid].profile.name, c.name.value) || !NameInUse(st.users, c.name.value))
      && (a.webhook.Some? ==> webhookAnswers)
    case AdminAvatar(token, uid, _, upload) => token.isAdmin && uid in st.users && GoodPicture(st, upload)
    case DeleteUser(uid) => uid in st.users
  }

  lemma PermittedIsGranted(st: State, r: Request)
    ensures RefusalOf(st, r).Done? <==> Permitted(st, r)
  {
    TakenIsInUse(st.users);
    if r.AdminUpdate? {
      if r.uid in st.users && r.change.name.Some? {
        FoldIgnoresCase(st.users[r.uid].profile.name, r.change.name.value);
      }
    }
    hide NameTaken, EmailTaken, NameInUse, EmailInUse, Fold, SameLetters;
  }

  // ---------- what one request does to a user ----------

  datatype Field = Email | Name | Gender | Language | IsAdmin | IsBot | Avatar | Password | Frozen | Webhook

  datatype Value = Text(text: Option<string>) | Number(number: int) | Flag(flag: bool)

  function ValueOf(u: User, f: Field): Value {
    match f
    case Email => Text(u.profile.email)
    case Name => Text(Some(u.profile.name))
    case Gender => Number(u.profile.gender)
    case Language => Text(Some(u.profile.language))
    case IsAdmin => Flag(u.profile.isAdmin)
    case IsBot => Flag(u.profile.isBot)
    case Avatar => Number(u.profile.avatarUpdatedAt)
    case Password => Text(u.account.password)
    case Frozen => Flag(u.account.frozen)
    case Webhook => Text(u.account.webhook)
  }

  function TextIf(o: Option<string>): Option<Value> { if o.Some? then Some(Text(o)) else None }
  function NumberIf(o: Option<int>): Option<Value> { if o.Some? then Some(Number(o.value)) else None }
  function FlagIf(o: Option<bool>): Option<Value> { if o.Some? then Some(Flag(o.value)) else None }

  /** The value that a request gives to a field of a user, if it does. */
  ghost function Gives(st: State, r: Request, uid: i64, f: Field): Option<Value> {
    match r
    case CreateUser(profile, isGuest, account) =>
      if uid == st.lastUid + 1 then Some(ValueOf(User(profile, isGuest, account), f)) else None
    case UpdateSelf(token, name, gender, language) =>
      if uid != token.uid then None
      else if f.Name? then TextIf(name) else if f.Gender? then NumberIf(gender)
      else if f.Language? then TextIf(language) else None
    case UploadAvatar(token, now, _) => if uid == token.uid && f.Avatar? then Some(Number(now)) else None
    case AdminUpdate(_, u, c, a, _) =>
      if u != uid then None else (
        match f
        case Email => TextIf(c.email)
        case Name => TextIf(c.name)
        case Gender => NumberIf(c.gender)
        case Language => TextIf(c.language)
        case IsAdmin => FlagIf(c.isAdmin)
        case IsBot => FlagIf(c.isBot)
        case Avatar => None
        case Password => TextIf(a.password)
        case Frozen => FlagIf(a.frozen)
        case Webhook => TextIf(a.webhook))
    case AdminAvatar(_, u, now, _) => if u == uid && f.Avatar? then Some(Number(now)) else None
    case DeleteUser(_) => None
  }

  ghost function Fate(st: State, r: Request, uid: i64): Option<bool> {
    if r.CreateUser? && uid == st.lastUid + 1 then Some(true)
    else if r.DeleteUser? && r.uid == uid then Some(false) else None
  }

  /** A request that goes through leaves each field with the value it gives, or as it was. */
  lemma ValuesOfOne(st: State, r: Request, uid: i64, f: Field)
    requires Fresh(st) && RefusalOf(st, r).Done? && uid in Granted(st, r).users
    ensures var given := Gives(st, r, uid, f);
            if given.Some? then ValueOf(Granted(st, r).users[uid], f) == given.value
            else uid in st.users && ValueOf(Granted(st, r).users[uid], f) == ValueOf(st.users[uid], f)
    ensures uid in st.users ==> Granted(st, r).users[uid].isGuest == st.users[uid].isGuest
    ensures uid !in st.users ==> r.CreateUser? && Granted(st, r).users[uid].isGuest == r.isGuest
  {
    hide NameTaken, EmailTaken, UploadRefusal, Fold;
  }

  lemma UsersOfOne(st: State, r: Request, uid: i64)
    requires Fresh(st) && RefusalOf(st, r).Done?
    ensures var fate := Fate(st, r, uid);
            uid in Granted(st, r).users <==> if fate.Some? then fate.value else uid in st.users
  {
    hide NameTaken, EmailTaken, UploadRefusal, Fold, Patch, PatchAccount;
  }

  // ---------- the answers ----------

  /** The request is not for this token, whoever else there is. */
  predicate Barred(r: Request) {
    match r
    case UpdateSelf(token, _, _, _) => token.isGuest
    case UploadAvatar(token, _, _) => token.isGuest
    case AdminUpdate(token, uid, c, a, _) =>
      AsksForAnything(c, a) && !token.isAdmin && (token.uid != uid || AsksForRights(c, a))
    case AdminAvatar(token, _, _, _) => !token.isAdmin
    case _ => false
  }

  predicate Asks(r: Request) {
    match r
    case UpdateSelf(_, name, gender, language) => name.Some? || gender.Some? || language.Some?
    case AdminUpdate(_, _, c, a, _) => AsksForAnything(c, a)
    case _ => true
  }

  function About(r: Request): Option<i64> {
    match r
    case UpdateSelf(token, _, _, _) => Some(token.uid)
    case UploadAvatar(token, _, _) => Some(token.uid)
    case AdminUpdate(_, uid, _, _, _) => Some(uid)
    case AdminAvatar(_, uid, _, _) => Some(uid)
    case DeleteUser(uid) => Some(uid)
    case CreateUser(_, _, _) => None
  }

  function UploadOf(r: Request): Option<Upload> {
    match r
    case UploadAvatar(_, _, upload) => Some(upload)
    case AdminAvatar(_, _, _, upload) => Some(upload)
    case _ => None
  }

  /** The name that the request gives to a user who has another one. */
  ghost predicate WantsName(st: State, r: Request, name: string) {
    match r
    case CreateUser(profile, _, _) => name == profile.name
    case UpdateSelf(_, n, _, _) => n == Some(name)
    case AdminUpdate(_, uid, c, _, _) =>
      uid in st.users && c.name == Some(name) && !SameLetters(st.users[uid].profile.name, name)
    case _ => false
  }

  ghost predicate WantsEmail(st: State, r: Request, email: string) {
    match r
    case CreateUser(profile, _, _) => profile.email == Some(email)
    case AdminUpdate(_, uid, c, _, _) =>
      uid in st.users && c.email == Some(email) && st.users[uid].profile.email != c.email
    case _ => false
  }

  /** What each answer means. */
  lemma AnswersTell(st: State, r: Request)
    ensures RefusalOf(st, r) == Forbidden <==> Barred(r)
    ensures RefusalOf(st, r) in {NotFound, Unauthorized} ==>
              !Barred(r) && Asks(r) && About(r).Some? && About(r).value !in st.users
    ensures RefusalOf(st, r) == NotFound ==> r.AdminUpdate? || r.DeleteUser?
    ensures RefusalOf(st, r) == Unauthorized ==> r.UpdateSelf? || r.UploadAvatar? || r.AdminAvatar?
    ensures RefusalOf(st, r) == NameConflict ==> exists name :: WantsName(st, r, name) && NameInUse(st.users, name)
    ensures RefusalOf(st, r) == EmailConflict ==>
              exists email :: WantsEmail(st, r, email) && EmailInUse(st.users, email)
    ensures RefusalOf(st, r) == InvalidWebhookUrl ==>
              r.AdminUpdate? && r.accountChange.webhook.Some? && !r.webhookAnswers
    ensures RefusalOf(st, r) == TooLarge ==>
              UploadOf(r).Some? && UploadOf(r).value.Picture? && |UploadOf(r).value.data| > st.avatarLimit
    ensures RefusalOf(st, r) == BadRequest ==>
              !Asks(r) || (UploadOf(r).Some? && (UploadOf(r).value.Unreadable? || !UploadOf(r).value.decodes))
    ensures RefusalOf(st, r) == Internal ==>
              (r.CreateUser? && st.lastUid >= I64_MAX)
              || (UploadOf(r).Some? && UploadOf(r).value.Picture? && !UploadOf(r).value.saves)
  {
    TakenIsInUse(st.users);
    match r {
      case CreateUser(profile, _, _) =>
        assert WantsName(st, r, profile.name);
        if profile.email.Some? { assert WantsEmail(st, r, profile.email.value); }
      case UpdateSelf(_, name, _, _) => if name.Some? { assert WantsName(st, r, name.value); }
      case AdminUpdate(_, uid, c, _, _) =>
        if uid in st.users && c.name.Some? { FoldIgnoresCase(st.users[uid].profile.name, c.name.value); }
        if RefusalOf(st, r).NameConflict? { assert WantsName(st, r, c.name.value); }
        if RefusalOf(st, r).EmailConflict? { assert WantsEmail(st, r, c.email.value); }
      case _ =>
    }
    hide NameTaken, EmailTaken, NameInUse, EmailInUse, Fold, SameLetters;
  }

  // ---------- the rows and files that one request leaves ----------

  function RowValue(c: Change, f: Field): Option<Value> {
    match f
    case Email => TextIf(c.email)
    case Name => TextIf(c.name)
    case Gender => NumberIf(c.gender)
    case Language => TextIf(c.language)
    case IsAdmin => FlagIf(c.isAdmin)
    case IsBot => FlagIf(c.isBot)
    case Avatar => NumberIf(c.avatarUpdatedAt)
    case _ => None
  }

  predicate Shown(f: Field) { !f.Password? && !f.Frozen? && !f.Webhook? }

  /** At most one row is written: about the user concerned, with the values given and no others. Only guests and a
      user's own change of gender or language alone leave none. */
  lemma RowOfOne(st: State, r: Request)
    requires RefusalOf(st, r).Done?
    ensures var rows := NewRows(st, r, false);
            && |rows| <= 1
            && (|rows| == 0 <==>
                  || (r.CreateUser? && r.isGuest)
                  || (r.DeleteUser? && st.users[r.uid].isGuest)
                  || (r.UpdateSelf? && r.name.None? && (r.gender.None? || r.language.None?)))
            && forall row :: row in rows ==>
                 && row.uid == (if r.CreateUser? then st.lastUid + 1 else About(r).value)
                 && (row.action.Created? <==> r.CreateUser?) && (row.action.Deleted? <==> r.DeleteUser?)
                 && forall f :: Shown(f) && !(r.CreateUser? && r.profile.email.None? && f.Email?) ==>
                      RowValue(row.change, f) == Gives(st, r, row.uid, f)
  {
    hide NameTaken, EmailTaken, UploadRefusal, Fold;
    var rows := NewRows(st, r, false);
    assert rows == [] || rows == [rows[0]];
  }

  /** The file of a picture is that of the user concerned, also if the transaction fails then; no other file changes. */
  lemma AvatarOfOne(st: State, r: Request, fault: bool)
    ensures After(st, r, fault).avatars ==
            if Permitted(st, r) && UploadOf(r).Some? then st.avatars[About(r).value := UploadOf(r).value.data]
            else st.avatars
  {
    PermittedIsGranted(st, r);
    hide Permitted, NameTaken, EmailTaken, Fold;
  }

  // ---------- what a run leaves ----------

  ghost function Fates(start: State, attempts: seq<Attempt>, uid: i64): seq<Option<bool>> {
    if attempts == [] then [] else
      var before, last := attempts[..|attempts| - 1], attempts[|attempts| - 1];
      var st := Run(start, before);
      Fates(start, before, uid)
      + [if Permitted(st, last.request) && !last.fault then Fate(st, last.request, uid) else None]
  }

  ghost function Gifts(start: State, attempts: seq<Attempt>, uid: i64, f: Field): seq<Option<Value>> {
    if attempts == [] then [] else
      var before, last := attempts[..|attempts| - 1], attempts[|attempts| - 1];
      var st := Run(start, before);
      Gifts(start, before, uid, f)
      + [if Permitted(st, last.request) && !last.fault then Gives(st, last.request, uid, f) else None]
  }

  lemma LastStep(start: State, attempts: seq<Attempt>)
    requires Fresh(start) && attempts != []
    ensures var st, last := Run(start, attempts[..|attempts| - 1]), attempts[|attempts| - 1];
            && Fresh(st) && (RefusalOf(st, last.request).Done? <==> Permitted(st, last.request))
            && Run(start, attempts).users
               == if Permitted(st, last.request) && !last.fault then Granted(st, last.request).users else st.users
  {
    hide Fresh, Permitted, RefusalOf, Granted;
    RunFresh(start, attempts[..|attempts| - 1]);
    PermittedIsGranted(Run(start, attempts[..|attempts| - 1]), attempts[|attempts| - 1].request);
  }

  /** A user is there exactly when created, or there at the start, and not deleted since. */
  lemma {:induction false} UsersWereCreated(start: State, attempts: seq<Attempt>, uid: i64)
    requires Fresh(start)
    ensures uid in Run(start, attempts).users <==> IsLast(Fates(start, attempts, uid), true, uid in start.users)
  {
    hide Fresh, Permitted, RefusalOf, Granted, Fate, IsLast;
    if attempts == [] {
      NothingGiven(true, uid in start.users);
    } else {
      var n := |attempts| - 1;
      UsersWereCreated(start, attempts[..n], uid);
      LastStep(start, attempts);
      var st, last := Run(start, attempts[..n]), attempts[n];
      var through := Permitted(st, last.request) && !last.fault;
      OneMoreGift(Fates(start, attempts[..n], uid), if through then Fate(st, last.request, uid) else None,
                  true, uid in start.users);
      if through { UsersOfOne(st, last.request, uid); }
    }
  }

  /** Every field of profile and account has the value that was given last by a request that went through. */
  lemma {:induction false} ValuesWereGiven(start: State, attempts: seq<Attempt>, uid: i64, f: Field, v: Value)
    requires Fresh(start) && uid in Run(start, attempts).users
    ensures ValueOf(Run(start, attempts).users[uid], f) == v <==>
            IsLast(Gifts(start, attempts, uid, f), v, uid in start.users && ValueOf(start.users[uid], f) == v)
  {
    hide Fresh, Permitted, RefusalOf, Granted, Gives, ValueOf, IsLast;
    var already := uid in start.users && ValueOf(start.users[uid], f) == v;
    if attempts == [] {
      NothingGiven(v, already);
    } else {
      var n := |attempts| - 1;
      LastStep(start, attempts);
      var st, last := Run(start, attempts[..n]), attempts[n];
      var given := if Permitted(st, last.request) && !last.fault then Gives(st, last.request, uid, f) else None;
      OneMoreGift(Gifts(start, attempts[..n], uid, f), given, v, already);
      if Permitted(st, last.request) && !last.fault { ValuesOfOne(st, last.request, uid, f); }
      if given.None? { ValuesWereGiven(start, attempts[..n], uid, f, v); }
    }
  }

  function TokenOf(r: Request): Option<Token> {
    match r
    case UpdateSelf(token, _, _, _) => Some(token)
    case UploadAvatar(token, _, _) => Some(token)
    case AdminUpdate(token, _, _, _, _) => Some(token)
    case AdminAvatar(token, _, _, _) => Some(token)
    case _ => None
  }

  /** What only administrators may change. */
  predicate Guarded(f: Field) { f.Email? || f.IsAdmin? || f.IsBot? || f.Frozen? }

  lemma GiversAreEntitled(st: State, r: Request, uid: i64, f: Field)
    requires Permitted(st, r) && Gives(st, r, uid, f).Some? && uid <= st.lastUid
    ensures TokenOf(r).Some?
    ensures TokenOf(r).value.isAdmin || (TokenOf(r).value.uid == uid && !Guarded(f))
  {
    hide NameInUse, EmailInUse, SameLetters;
  }

  /** In every run: whenever a field of a user changes, the request carries the token of an administrator, or the
      user's own, and then it is neither the address nor rights nor the status. */
  lemma ChangesAreEntitled(start: State, attempts: seq<Attempt>, i: nat, uid: i64, f: Field)
    requires Fresh(start) && i < |attempts|
    requires var st, after := Run(start, attempts[..i]), Run(start, attempts[..i + 1]);
             uid in st.users && uid in after.users && ValueOf(after.users[uid], f) != ValueOf(st.users[uid], f)
    ensures var token := TokenOf(attempts[i].request);
            token.Some? && (token.value.isAdmin || (token.value.uid == uid && !Guarded(f)))
  {
    hide Permitted, RefusalOf, Granted, Gives, ValueOf, Guarded;
    assert attempts[..i + 1][..i] == attempts[..i] && attempts[..i + 1][i] == attempts[i];
    var st, r := Run(start, attempts[..i]), attempts[i].request;
    LastStep(start, attempts[..i + 1]);
    ValuesOfOne(st, r, uid, f);
    GiversAreEntitled(st, r, uid, f);
  }
}
