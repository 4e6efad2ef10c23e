/** Packing messages into an archive: its users, its messages, and the files they refer to by number. */
module Archive {
  import opened Bytes
  import opened Results
  import opened MessageDb
  import opened Payloads
  import opened GroupKinds
  import opened Groups
  import opened Sending

  datatype ArchiveUser = ArchiveUser(name: string, avatar: Option<nat>)

  datatype ArchiveMessage = ArchiveMessage(
    fromUser: nat, createdAt: int, mid: i64, source: Target,
    properties: Option<map<string, string>>, contentType: string, content: Option<string>,
    fileId: Option<nat>, thumbnailId: Option<nat>)

  datatype ArchiveFile = ArchiveFile(contentType: string, filename: Option<string>, content: bytes)

  /** What can be read from the directories of avatars, files, thumbnails and file descriptions. */
  datatype Disk = Disk(
    avatars: map<i64, bytes>, files: map<string, bytes>, thumbnails: map<string, bytes>,
    metas: map<string, (string, Option<string>)>)

  /** Who asks, and what the cache and the disk hold. */
  datatype Input = Input(creator: i64, isAdmin: bool, names: map<i64, string>, groups: map<i64, Groups.Group>,
      disk: Disk)

  function MetaOf(disk: Disk, path: string): (string, Option<string>) {
    if path in disk.metas then disk.metas[path] else ("application/octet-stream", None)
  }

  function FileAt(disk: Disk, path: string): ArchiveFile {
    ArchiveFile(MetaOf(disk, path).0, MetaOf(disk, path).1, if path in disk.files then disk.files[path] else [])
  }

  function ThumbnailAt(disk: Disk, path: string): ArchiveFile
    requires path in disk.thumbnails
  {
    ArchiveFile(MetaOf(disk, path).0, MetaOf(disk, path).1, disk.thumbnails[path])
  }

  function AvatarOf(disk: Disk, uid: i64): ArchiveFile
    requires uid in disk.avatars
  {
    ArchiveFile("image/png", None, disk.avatars[uid])
  }

  /** A packed file or thumbnail has the bytes on the disk, a missing file none, and type and name as described; an
      avatar is a picture. */
  lemma PackedFilesAre(disk: Disk, path: string, uid: i64)
    ensures path in disk.files ==> FileAt(disk, path).content == disk.files[path]
    ensures path !in disk.files ==> FileAt(disk, path).content == []
    ensures path in disk.thumbnails ==> ThumbnailAt(disk, path).content == disk.thumbnails[path]
    ensures path in disk.metas ==> (FileAt(disk, path).contentType, FileAt(disk, path).filename) == disk.metas[path]
    ensures path !in disk.metas ==>
              FileAt(disk, path).contentType == "application/octet-stream" && FileAt(disk, path).filename.None?
    ensures path in disk.thumbnails ==>
              && ThumbnailAt(disk, path).contentType == FileAt(disk, path).contentType
              && ThumbnailAt(disk, path).filename == FileAt(disk, path).filename
    ensures uid in disk.avatars ==>
              AvatarOf(disk, uid).content == disk.avatars[uid] && AvatarOf(disk, uid).contentType == "image/png"
  {}

  // ---------- which messages may be packed ----------

  predicate Allowed(input: Input, m: Merged) {
    input.isAdmin ||
    match m.target
    case ToUser(uid) => uid == input.creator || m.from == input.creator
    case ToGroup(gid) => gid in input.groups && ContainsUser(input.groups[gid], input.creator)
  }

  predicate IsText(m: Merged) { m.content.contentType in {"text/plain", "text/markdown"} }

  predicate IsFile(m: Merged) { m.content.contentType == "vachat/file" }

  function Problem(input: Input, found: Option<Merged>): Option<ApiError> {
    if found.None? then Some(NotFound)
    else if !Allowed(input, found.value) then Some(Forbidden)
    else if found.value.from !in input.names then Some(BadRequest)
    else if !IsText(found.value) && !IsFile(found.value) then Some(BadRequest)
    else None
  }

  /** Whoever packs messages must be an administrator or take part in their conversations; the author must be
      known, and only texts and files are packed. */
  lemma ProblemIs(input: Input, found: Option<Merged>)
    ensures Problem(input, found) == Some(NotFound) <==> found.None?
    ensures Problem(input, found) == Some(Forbidden) <==>
            && found.Some? && !input.isAdmin
            && match found.value.target
               case ToUser(uid) => input.creator != uid && input.creator != found.value.from
               case ToGroup(gid) =>
                 gid in input.groups ==>
                   input.groups[gid].kind.Private? && input.creator !in input.groups[gid].members
    ensures Problem(input, found) in {None, Some(NotFound), Some(Forbidden), Some(BadRequest)}
    ensures found.Some? && Problem(input, found) != Some(Forbidden) ==>
              (Problem(input, found) == None <==>
                 && found.value.from in input.names
                 && (var kind := found.value.content.contentType;
                     kind == "text/plain" || kind == "text/markdown" || kind == "vachat/file"))
  {}

  /** The first problem in the order of the ids decides. */
  function FirstProblem(input: Input, look: i64 -> Option<Merged>, mids: seq<i64>): Option<ApiError> {
    if mids == [] then None
    else if Problem(input, look(mids[0])).Some? then Problem(input, look(mids[0]))
    else FirstProblem(input, look, mids[1..])
  }

  lemma {:induction false} FirstProblemIs(input: Input, look: i64 -> Option<Merged>, mids: seq<i64>)
    ensures FirstProblem(input, look, mids).None? <==>
            forall i :: 0 <= i < |mids| ==> Problem(input, look(mids[i])).None?
    ensures FirstProblem(input, look, mids).Some? ==>
              exists i :: 0 <= i < |mids| && Problem(input, look(mids[i])) == FirstProblem(input, look, mids)
                          && forall j :: 0 <= j < i ==> Problem(input, look(mids[j])).None?
  {
    hide Problem;
    if mids != [] && Problem(input, look(mids[0])).None? {
      FirstProblemIs(input, look, mids[1..]);
      if i :| 0 <= i < |mids[1..]| && Problem(input, look(mids[1..][i])) == FirstProblem(input, look, mids[1..])
              && forall j :: 0 <= j < i ==> Problem(input, look(mids[1..][j])).None? {
        forall j | 0 <= j < i + 1 ensures Problem(input, look(mids[j])).None? {
          if j > 0 { assert mids[1..][j - 1] == mids[j]; }
        }
        assert mids[i + 1] == mids[1..][i];
      }
      forall i | 1 <= i < |mids| ensures mids[i] == mids[1..][i - 1] {}
    }
  }

  function SourceFor(creator: i64, m: Merged): Target {
    match m.target
    case ToUser(uid) => ToUser(if uid == creator then m.from else uid)
    case ToGroup(gid) => ToGroup(gid)
  }

  // ---------- a sound archive ----------

  /** `index`: the number of each author among the users. */
  datatype Draft = Draft(users: seq<ArchiveUser>, messages: seq<ArchiveMessage>, files: seq<ArchiveFile>,
      index: map<i64, nat>)

  predicate Refers(id: Option<nat>, files: seq<ArchiveFile>, file: Option<ArchiveFile>) {
    match file
    case None => id.None?
    case Some(f) => id.Some? && id.value < |files| && files[id.value] == f
  }

  ghost predicate MessageOk(input: Input, m: Merged, mid: i64, a: ArchiveMessage, d: Draft) {
    && a.mid == mid && a.createdAt == m.createdAt
    && a.source == (if m.target.ToUser? && m.target.uid == input.creator then ToUser(m.from) else m.target)
    && a.properties == m.content.properties && a.contentType == m.content.contentType
    && m.from in d.index && a.fromUser == d.index[m.from]
    && a.content == (if IsText(m) then Some(m.content.text) else None)
    && Refers(a.fileId, d.files, if IsText(m) then None else Some(FileAt(input.disk, m.content.text)))
    && Refers(a.thumbnailId, d.files,
              if IsText(m) || m.content.text !in input.disk.thumbnails then None
              else Some(ThumbnailAt(input.disk, m.content.text)))
  }

  ghost predicate IsNumber(index: map<i64, nat>, k: nat) { exists uid :: uid in index && index[uid] == k }

  ghost predicate UserOk(input: Input, uid: i64, u: ArchiveUser, files: seq<ArchiveFile>) {
    && uid in input.names && u.name == input.names[uid]
    && Refers(u.avatar, files, if uid in input.disk.avatars then Some(AvatarOf(input.disk, uid)) else None)
  }

  /** Every author stands among the users once, with name and avatar, and there is nobody else. */
  ghost predicate UsersOk(input: Input, d: Draft) {
    && (forall uid :: uid in d.index ==> d.index[uid] < |d.users| && UserOk(input, uid, d.users[d.index[uid]], d.files))
    && (forall u, v :: u in d.index && v in d.index && u != v ==> d.index[u] != d.index[v])
    && (forall k: nat :: k < |d.users| ==> IsNumber(d.index, k))
  }

  function One(id: Option<nat>): multiset<nat> { if id.Some? then multiset{id.value} else multiset{} }

  function UserRefs(users: seq<ArchiveUser>): multiset<nat> {
    if users == [] then multiset{} else UserRefs(users[..|users| - 1]) + One(users[|users| - 1].avatar)
  }

  function MessageRefs(messages: seq<ArchiveMessage>): multiset<nat> {
    if messages == [] then multiset{} else
      var last := messages[|messages| - 1];
      MessageRefs(messages[..|messages| - 1]) + One(last.fileId) + One(last.thumbnailId)
  }

  function UpTo(n: nat): multiset<nat> { if n == 0 then multiset{} else UpTo(n - 1) + multiset{n - 1} }

  lemma {:induction false} UpToCount(n: nat, k: nat)
    ensures UpTo(n)[k] == if k < n then 1 else 0
  {
    if n > 0 { UpToCount(n - 1, k); }
  }

  /** Every number of a file is used exactly once, as an avatar, a file or a thumbnail. */
  ghost predicate RefsOk(d: Draft) { UserRefs(d.users) + MessageRefs(d.messages) == UpTo(|d.files|) }

  lemma EveryFileIsReferencedOnce(d: Draft, k: nat)
    requires RefsOk(d)
    ensures UserRefs(d.users)[k] + MessageRefs(d.messages)[k] == if k < |d.files| then 1 else 0
  {
    UpToCount(|d.files|, k);
    assert (UserRefs(d.users) + MessageRefs(d.messages))[k] == UpTo(|d.files|)[k];
  }

  ghost predicate Sound(input: Input, look: i64 -> Option<Merged>, done: seq<i64>, d: Draft) {
    && |d.messages| == |done|
    && (forall i :: 0 <= i < |done| ==>
          look(done[i]).Some? && MessageOk(input, look(done[i]).value, done[i], d.messages[i], d))
    && (forall uid :: uid in d.index ==> IsAuthor(look, done, uid))
    && UsersOk(input, d) && RefsOk(d)
  }

  // ---------- adding one message ----------

  /** Nothing is renumbered: what was there keeps its number. */
  ghost predicate Extends(d: Draft, e: Draft) {
    && d.users <= e.users && d.files <= e.files
    && (forall uid :: uid in d.index ==> uid in e.index && e.index[uid] == d.index[uid])
  }

  lemma MessageStillOk(input: Input, m: Merged, mid: i64, a: ArchiveMessage, d: Draft, e: Draft)
    requires MessageOk(input, m, mid, a, d) && Extends(d, e)
    ensures MessageOk(input, m, mid, a, e)
  {}

  lemma UpToNext(n: nat)
    ensures UpTo(n + 1) == UpTo(n) + multiset{n}
  {}

  /** A new user takes the next number for its avatar, if it has one. */
  lemma AvatarRef(d: Draft, user: ArchiveUser, files: seq<ArchiveFile>, index: map<i64, nat>)
    requires RefsOk(d)
    requires if user.avatar.None? then files == d.files else |files| == |d.files| + 1 && user.avatar == Some(|d.files|)
    ensures RefsOk(Draft(d.users + [user], d.messages, files, index))
  {
    assert (d.users + [user])[..|d.users|] == d.users;
    UpToNext(|d.files|);
  }

  /** A new message takes the next numbers for its files. */
  lemma MessageRef(d: Draft, a: ArchiveMessage, files: seq<ArchiveFile>)
    requires RefsOk(d) && UpTo(|files|) == UpTo(|d.files|) + One(a.fileId) + One(a.thumbnailId)
    ensures RefsOk(d.(messages := d.messages + [a], files := files))
  {
    assert (d.messages + [a])[..|d.messages|] == d.messages;
  }

  lemma AllNumbered(d: Draft, uid: i64, k: nat)
    requires uid !in d.index && k <= |d.users| && (k < |d.users| ==> IsNumber(d.index, k))
    ensures IsNumber(d.index[uid := |d.users|], k)
  {
    var index := d.index[uid := |d.users|];
    if k < |d.users| {
      var u :| u in d.index && d.index[u] == k;
      assert u in index && index[u] == k;
    } else {
      assert uid in index && index[uid] == k;
    }
  }

  lemma UserAdded(input: Input, d: Draft, uid: i64, user: ArchiveUser, files: seq<ArchiveFile>)
    requires UsersOk(input, d) && uid !in d.index && d.files <= files && UserOk(input, uid, user, files)
    ensures UsersOk(input, Draft(d.users + [user], d.messages, files, d.index[uid := |d.users|]))
  {
    var index := d.index[uid := |d.users|];
    forall k: nat | k < |d.users| + 1 ensures IsNumber(index, k) { AllNumbered(d, uid, k); }
  }

  /** The user's entry, and the avatar among the files if there is one. */
  method PackUser(input: Input, files: seq<ArchiveFile>, uid: i64) returns (user: ArchiveUser, more: seq<ArchiveFile>)
    requires uid in input.names
    ensures files <= more && UserOk(input, uid, user, more)
    ensures if user.avatar.None? then more == files else |more| == |files| + 1 && user.avatar == Some(|files|)
  {
    more := files;
    var avatar := None;
    if uid in input.disk.avatars {
      more := more + [AvatarOf(input.disk, uid)];
      avatar := Some(|more| - 1);
    }
    user := ArchiveUser(input.names[uid], avatar);
  }

  /** Numbers an author at the first message. */
  method InternUser(input: Input, d: Draft, uid: i64) returns (e: Draft)
    requires uid in input.names && UsersOk(input, d) && RefsOk(d)
    ensures UsersOk(input, e) && RefsOk(e) && Extends(d, e)
    ensures e.messages == d.messages && e.index.Keys == d.index.Keys + {uid}
  {
    hide UsersOk, RefsOk, UserOk;
    if uid in d.index { return d; }
    var user, files := PackUser(input, d.files, uid);
    UserAdded(input, d, uid, user, files);
    AvatarRef(d, user, files, d.index[uid := |d.users|]);
    e := Draft(d.users + [user], d.messages, files, d.index[uid := |d.users|]);
  }

  /** Stores a file and, if there is one, its thumbnail. */
  method AddFiles(input: Input, files: seq<ArchiveFile>, path: string)
      returns (more: seq<ArchiveFile>, fileId: nat, thumbnailId: Option<nat>)
    ensures files <= more && UpTo(|more|) == UpTo(|files|) + One(Some(fileId)) + One(thumbnailId)
    ensures Refers(Some(fileId), more, Some(FileAt(input.disk, path)))
    ensures Refers(thumbnailId, more,
                   if path in input.disk.thumbnails then Some(ThumbnailAt(input.disk, path)) else None)
  {
    hide UpTo;
    more := files + [FileAt(input.disk, path)];
    fileId := |more| - 1;
    UpToNext(|files|);
    thumbnailId := None;
    if path in input.disk.thumbnails {
      UpToNext(|files| + 1);
      more := more + [ThumbnailAt(input.disk, path)];
      thumbnailId := Some(|more| - 1);
    }
  }

  lemma UsersStillOk(input: Input, d: Draft, messages: seq<ArchiveMessage>, files: seq<ArchiveFile>)
    requires UsersOk(input, d) && d.files <= files
    ensures UsersOk(input, d.(messages := messages, files := files))
  {}

  /** The files of one message and the message that refers to them. */
  method PackMessage(input: Input, f: Draft, mid: i64, m: Merged) returns (a: ArchiveMessage, files: seq<ArchiveFile>)
    requires Problem(input, Some(m)).None? && m.from in f.index
    ensures f.files <= files && UpTo(|files|) == UpTo(|f.files|) + One(a.fileId) + One(a.thumbnailId)
    ensures MessageOk(input, m, mid, a, f.(messages := f.messages + [a], files := files))
  {
    hide UpTo, FileAt, ThumbnailAt;
    if IsText(m) {
      files := f.files;
      a := ArchiveMessage(f.index[m.from], m.createdAt, mid, SourceFor(input.creator, m), m.content.properties,
                          m.content.contentType, Some(m.content.text), None, None);
    } else {
      var fileId, thumbnailId;
      files, fileId, thumbnailId := AddFiles(input, f.files, m.content.text);
      a := ArchiveMessage(f.index[m.from], m.createdAt, mid, SourceFor(input.creator, m), m.content.properties,
                          m.content.contentType, None, Some(fileId), thumbnailId);
    }
  }

  /** One message: its author, its files, the message itself. */
  method AddMessage(input: Input, d: Draft, mid: i64, m: Merged) returns (e: Draft)
    requires UsersOk(input, d) && RefsOk(d) && Problem(input, Some(m)).None?
    ensures UsersOk(input, e) && RefsOk(e) && Extends(d, e) && e.index.Keys == d.index.Keys + {m.from}
    ensures |e.messages| == |d.messages| + 1 && e.messages[..|d.messages|] == d.messages
    ensures MessageOk(input, m, mid, e.messages[|d.messages|], e)
  {
    hide UsersOk, RefsOk, MessageOk, UpTo;
    var f := InternUser(input, d, m.from);
    var a, files := PackMessage(input, f, mid, m);
    MessageRef(f, a, files);
    UsersStillOk(input, f, f.messages + [a], files);
    e := f.(messages := f.messages + [a], files := files);
  }

  ghost predicate IsAuthor(look: i64 -> Option<Merged>, mids: seq<i64>, uid: i64) {
    exists i :: 0 <= i < |mids| && look(mids[i]).Some? && look(mids[i]).value.from == uid
  }

  lemma AuthorsGrow(look: i64 -> Option<Merged>, done: seq<i64>, mid: i64, uid: i64)
    requires IsAuthor(look, done, uid) || (look(mid).Some? && look(mid).value.from == uid)
    ensures IsAuthor(look, done + [mid], uid)
  {
    var longer := done + [mid];
    if IsAuthor(look, done, uid) {
      var i :| 0 <= i < |done| && look(done[i]).Some? && look(done[i]).value.from == uid;
      assert longer[i] == done[i];
    } else {
      assert longer[|done|] == mid;
    }
  }

  /** The added message keeps the draft sound. */
  lemma SoundGrows(input: Input, look: i64 -> Option<Merged>, done: seq<i64>, mid: i64, d: Draft, e: Draft)
    requires Sound(input, look, done, d) && look(mid).Some? && Extends(d, e) && UsersOk(input, e) && RefsOk(e)
    requires e.index.Keys == d.index.Keys + {look(mid).value.from}
    requires |e.messages| == |d.messages| + 1 && e.messages[..|d.messages|] == d.messages
    requires MessageOk(input, look(mid).value, mid, e.messages[|d.messages|], e)
    ensures Sound(input, look, done + [mid], e)
  {
    hide UsersOk, RefsOk, MessageOk, Extends, IsAuthor;
    var longer := done + [mid];
    forall i | 0 <= i < |longer|
      ensures look(longer[i]).Some? && MessageOk(input, look(longer[i]).value, longer[i], e.messages[i], e)
    {
      if i < |done| {
        assert e.messages[i] == e.messages[..|d.messages|][i];
        MessageStillOk(input, look(done[i]).value, done[i], d.messages[i], d, e);
      }
    }
    forall uid | uid in e.index ensures IsAuthor(look, longer, uid) { AuthorsGrow(look, done, mid, uid); }
  }

  // ---------- the whole archive ----------

  predicate NonDecreasing(mids: seq<i64>) { forall i, j :: 0 <= i < j < |mids| ==> mids[i] <= mids[j] }

  method InsertMid(sorted: seq<i64>, mid: i64) returns (longer: seq<i64>)
    requires NonDecreasing(sorted)
    ensures NonDecreasing(longer) && multiset(longer) == multiset(sorted) + multiset{mid}
  {
    var k := |sorted|;
    while k > 0 && sorted[k - 1] > mid
      invariant 0 <= k <= |sorted| && (k < |sorted| ==> sorted[k] > mid)
    {
      k := k - 1;
    }
    InsertedMultiset(sorted, k, mid);
    InsertedOrder(sorted, k, mid);
    longer := sorted[..k] + [mid] + sorted[k..];
  }

  lemma InsertedMultiset(s: seq<i64>, k: nat, x: i64)
    requires k <= |s|
    ensures multiset(s[..k] + [x] + s[k..]) == multiset(s) + multiset{x}
  {
    assert s == s[..k] + s[k..];
  }

  lemma InsertedOrder(s: seq<i64>, k: nat, x: i64)
    requires k <= |s| && NonDecreasing(s) && (k > 0 ==> s[k - 1] <= x) && (k < |s| ==> s[k] >= x)
    ensures NonDecreasing(s[..k] + [x] + s[k..])
  {
    var t := s[..k] + [x] + s[k..];
    forall i, j | 0 <= i < j < |t| ensures t[i] <= t[j] {
      if i < k { assert s[i] <= s[k - 1]; }
      if j > k { assert s[k] <= s[j - 1]; }
    }
  }

  /** Ascending, repeated ids stay. */
  method SortMids(mids: seq<i64>) returns (sorted: seq<i64>)
    ensures multiset(sorted) == multiset(mids) && NonDecreasing(sorted)
  {
    sorted := [];
    for n := 0 to |mids|
      invariant multiset(sorted) == multiset(mids[..n]) && NonDecreasing(sorted)
    {
      assert mids[..n + 1] == mids[..n] + [mids[n]];
      sorted := InsertMid(sorted, mids[n]);
    }
    assert mids[..|mids|] == mids;
  }

  ghost function MergedAt(c: Codec, db: MessageLog.Merged, mid: i64): Option<Merged> {
    if mid in db then c.getMerged(db[mid]) else None
  }

  method GetMergedMessage(db: MsgDb, c: Codec, mid: i64) returns (found: Option<Merged>)
    requires db.Valid()
    ensures found == MergedAt(c, db.stored.merged, mid)
  {
    var data := db.GetMergedMsg(mid);
    found := if data.Some? then c.getMerged(data.value) else None;
  }

  lemma FirstProblemStep(input: Input, look: i64 -> Option<Merged>, mids: seq<i64>, i: nat)
    requires i < |mids|
    ensures FirstProblem(input, look, mids[i..])
            == if Problem(input, look(mids[i])).Some? then Problem(input, look(mids[i]))
               else FirstProblem(input, look, mids[i + 1..])
    ensures Problem(input, look(mids[i])).None? ==>
          look(mids[i]).Some? && Problem(input, Some(look(mids[i]).value)).None?
  {
    assert mids[i..][1..] == mids[i + 1..];
  }

  lemma SoundStart(input: Input, look: i64 -> Option<Merged>)
    ensures Sound(input, look, [], Draft([], [], [], map[]))
  {}

  lemma SoundParts(input: Input, look: i64 -> Option<Merged>, done: seq<i64>, d: Draft)
    requires Sound(input, look, done, d)
    ensures UsersOk(input, d) && RefsOk(d)
  {}

  /** The messages are packed in the order of their ids, repeated ones again. */
  method CreateArchive(db: MsgDb, c: Codec, input: Input, mids: seq<i64>, ghost look: i64 -> Option<Merged>)
      returns (r: Result<Draft, ApiError>, order: seq<i64>)
    requires db.Valid() && forall mid :: look(mid) == MergedAt(c, db.stored.merged, mid)
    ensures multiset(order) == multiset(mids) && NonDecreasing(order)
    ensures input.creator !in input.names ==> r == Err(BadRequest)
    ensures input.creator in input.names && FirstProblem(input, look, order).Some? ==>
          r == Err(FirstProblem(input, look, order).value)
    ensures input.creator in input.names && FirstProblem(input, look, order).None? ==>
          r.Ok? && Sound(input, look, order, r.value)
  {
    hide *;
    var sorted := SortMids(mids);
    order := sorted;
    if input.creator !in input.names { return Err(BadRequest), order; }
    var d := Draft([], [], [], map[]);
    SoundStart(input, look);
    assert sorted[..0] == [] && sorted[0..] == sorted;
    for i := 0 to |sorted|
      invariant db.Valid() && db.stored == old(db.stored) && Sound(input, look, sorted[..i], d)
      invariant FirstProblem(input, look, sorted) == FirstProblem(input, look, sorted[i..])
    {
      var mid := sorted[i];
      FirstProblemStep(input, look, sorted, i);
      var found := GetMergedMessage(db, c, mid);
      var problem := Problem(input, found);
      if problem.Some? { return Err(problem.value), order; }
      SoundParts(input, look, sorted[..i], d);
      var e := AddMessage(input, d, mid, found.value);
      SoundGrows(input, look, sorted[..i], mid, d, e);
      assert sorted[..i + 1] == sorted[..i] + [mid];
      d := e;
    }
    assert sorted[..|sorted|] == sorted;
    NoProblemLeft(input, look, sorted);
    return Ok(d), order;
  }

  lemma NoProblemLeft(input: Input, look: i64 -> Option<Merged>, mids: seq<i64>)
    ensures FirstProblem(input, look, mids[|mids|..]).None?
  {}
}
