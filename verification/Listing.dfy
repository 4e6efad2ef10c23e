/** Exactly which window of ids a query means, and that reading page by page
    reaches everything once. */
module Listing {
  import opened Bytes
  import opened Results
  import opened Ordered
  import opened Selection
  import opened MessageLog
  import opened MessageDb

  // ---------- which ids a query means ----------

  /** `After` is "greater than `after`" exactly when the caller passes no value below
      -1, or there is nothing to miss. */
  lemma AfterIsExact(mids: set<i64>, after: Option<i64>)
    requires forall m :: m in mids ==> m >= 1
    ensures After(mids, after) == (set m | m in mids && (after.Some? ==> m > after.value))
            <==> after.None? || after.value >= -1 || mids == {}
  {
    if after.Some? && after.value < -1 && mids != {} {
      var m :| m in mids;
      assert m !in After(mids, after);
    }
  }

  /** `Before` is "less than `before`" exactly when the caller passes no negative
      value, or there is nothing to return in excess. */
  lemma BeforeIsExact(mids: set<i64>, before: Option<i64>)
    requires forall m :: m in mids ==> m >= 1
    ensures Before(mids, before) == (set m | m in mids && (before.Some? ==> m < before.value))
            <==> before.None? || before.value >= 0 || mids == {}
  {
    if before.Some? && before.value < 0 && mids != {} {
      var m :| m in mids;
      assert m in Before(mids, before);
    }
  }

  // ---------- reading a history backwards, page by page ----------

  /** What a client collects that asks for the page before the oldest message it
      has, until a page comes back empty. */
  ghost function Walk(mids: set<i64>, before: Option<i64>, limit: nat): seq<i64>
    requires limit >= 1 && forall m :: m in mids ==> m >= 1
    decreases |Before(mids, before)|
  {
    var page := Last(Sorted(Before(mids, before)), limit);
    if page == [] then [] else
      assert page[0] in Sorted(Before(mids, before));
      BeforeShrinks(mids, before, page[0]);
      Walk(mids, Some(page[0]), limit) + page
  }

  lemma BeforeShrinks(mids: set<i64>, before: Option<i64>, m: i64)
    requires m in Before(mids, before) && m >= 1
    ensures Before(mids, Some(m)) < Before(mids, before)
    ensures |Before(mids, Some(m))| < |Before(mids, before)|
  {
    var smaller, larger := Before(mids, Some(m)), Before(mids, before);
    assert smaller <= larger - {m};
    SubsetSize(smaller, larger - {m});
  }

  /** The walk returns the whole conversation, every message once, in ascending order. */
  lemma {:induction false} WalkIsComplete(mids: set<i64>, before: Option<i64>, limit: nat)
    requires limit >= 1 && forall m :: m in mids ==> m >= 1
    ensures Walk(mids, before, limit) == Sorted(Before(mids, before))
    decreases |Before(mids, before)|
  {
    var page := Last(Sorted(Before(mids, before)), limit);
    if page != [] {
      FirstOfPage(mids, before, limit);
      BeforeShrinks(mids, before, page[0]);
      WalkIsComplete(mids, Some(page[0]), limit);
    }
  }

  /** Before the oldest message of a page lies exactly what the page leaves out. */
  lemma FirstOfPage(mids: set<i64>, before: Option<i64>, limit: nat)
    requires limit >= 1 && forall m :: m in mids ==> m >= 1
    requires Before(mids, before) != {}
    ensures var page := Last(Sorted(Before(mids, before)), limit);
            && page != [] && page[0] in Before(mids, before)
            && Sorted(Before(mids, before)) == Sorted(Before(mids, Some(page[0]))) + page
  {
    var now := Before(mids, before);
    PageSplits(now, limit);
    var m := Last(Sorted(now), limit)[0];
    BelowIsBefore(mids, before, m);
  }

  lemma BelowIsBefore(mids: set<i64>, before: Option<i64>, m: i64)
    requires m >= 1 && m in Before(mids, before)
    ensures Below(Before(mids, before), m) == Before(mids, Some(m))
  {}

  ghost function Below(mids: set<i64>, bound: i64): set<i64> { set m | m in mids && m < bound }

  lemma PageSplits(now: set<i64>, limit: nat)
    requires limit >= 1 && now != {}
    ensures var page := Last(Sorted(now), limit);
            page != [] && page[0] in now && Sorted(now) == Sorted(Below(now, page[0])) + page
  {
    var all := Sorted(now);
    var k := LastSplits(all, limit);
    assert all[k] in all;
    BelowIsPrefix(now, k);
  }

  lemma LastSplits(s: seq<i64>, n: nat) returns (k: nat)
    requires n >= 1 && s != []
    ensures k < |s| && s == s[..k] + Last(s, n) && Last(s, n) != [] && Last(s, n)[0] == s[k]
  {
    k := |s| - |Last(s, n)|;
  }

  lemma BelowIsPrefix(now: set<i64>, k: nat)
    requires k < |now|
    ensures Sorted(Below(now, Sorted(now)[k])) == Sorted(now)[..k]
  {
    var all := Sorted(now);
    forall i | 0 <= i < |all| ensures all[i] in Below(now, all[k]) <==> i < k { assert all[i] in all; }
    SortedPrefix(now, Below(now, all[k]), k);
  }

  // ---------- the administrator's list of files ----------

  datatype ListError = Forbidden

  /** All stored messages, newest first. */
  ghost function Newest(log: Log): seq<(i64, bytes)> { Reverse(Messages(log, log.Keys)) }

  /** A slice as the code computes it: `usize` multiplication keeps 64 bits. */
  function Page<F>(files: seq<F>, page: nat, pageSize: nat): seq<F> {
    var number := if page < 1 then 1 else page;
    var size := if pageSize > 1000 then 1000 else pageSize;
    Slice(files, ((number - 1) * size) % TWO_TO_64, size)
  }

  function Slice<F>(files: seq<F>, start: nat, size: nat): seq<F> {
    var end := if start + size < |files| then start + size else |files|;
    if start < |files| then files[start..end] else []
  }

  /** Page numbers begin at 1 and pages have at most 1000 files. */
  lemma PageClamps<F>(files: seq<F>, page: nat, size: nat)
    requires page >= 1 && size >= 1000
    ensures Page(files, 0, size) == Page(files, 1, size) && Page(files, page, size) == Page(files, page, 1000)
  {}

  /** Walks the whole store in batches of 500 and returns one page of the files in it. */
  method GetFiles<F>(db: MsgDb, isAdmin: bool, page: nat, pageSize: nat, fileOf: ((i64, bytes)) -> Option<F>)
      returns (r: Result<seq<F>, ListError>)
    requires db.Valid()
    ensures r == if !isAdmin then Err(Forbidden) else Ok(Page(Select(fileOf, Newest(db.stored.log)), page, pageSize))
  {
    if !isAdmin { return Err(Forbidden); }
    var files := CollectFiles(db, fileOf);
    r := Ok(Page(files, page, pageSize));
  }

  method CollectFiles<F>(db: MsgDb, fileOf: ((i64, bytes)) -> Option<F>) returns (files: seq<F>)
    requires db.Valid()
    ensures files == Select(fileOf, Newest(db.stored.log))
  {
    var maxMid := db.GetMaxMsgId();
    var cursor: i64 := if maxMid.Some? then maxMid.value else 0;
    StartAtMax(db.stored.log, cursor);
    files := CollectFrom(db, cursor, fileOf, Newest(db.stored.log));
  }

  ghost predicate ListsAll(all: seq<(i64, bytes)>, log: Log) { all == Newest(log) }

  method CollectFrom<F>(db: MsgDb, start: i64, fileOf: ((i64, bytes)) -> Option<F>, ghost all: seq<(i64, bytes)>)
      returns (files: seq<F>)
    requires db.Valid() && ListsAll(all, db.stored.log) && SplitAt(all, 0, start)
    ensures files == Select(fileOf, all)
  {
    hide ListsAll;
    var cursor: i64 := start;
    ghost var n: nat := 0;
    files := [];
    while cursor > 0
      invariant n <= |all| && SplitAt(all, n, cursor)
      invariant files == Select(fileOf, all[..n])
      decreases cursor
    {
      var msgs := FetchBatch(db, cursor, n, all);
      if msgs == [] { break; }
      cursor := msgs[|msgs| - 1].0 - 1;
      files := AppendFiles(files, msgs, fileOf, all, n);
      n := n + |msgs|;
    }
    AllVisited(all, n, cursor);
  }

  method AppendFiles<F>(files: seq<F>, msgs: seq<(i64, bytes)>, fileOf: ((i64, bytes)) -> Option<F>,
      ghost all: seq<(i64, bytes)>, ghost n: nat) returns (more: seq<F>)
    requires n + |msgs| <= |all| && all[..n] + msgs == all[..n + |msgs|]
    requires files == Select(fileOf, all[..n])
    ensures more == Select(fileOf, all[..n + |msgs|])
  {
    var found := DecodeFiles(msgs, fileOf);
    SelectAppend(fileOf, all[..n], msgs);
    more := files + found;
  }

  lemma AllVisited(all: seq<(i64, bytes)>, n: nat, cursor: i64)
    requires n <= |all| && SplitAt(all, n, cursor)
    requires cursor == 0 || n == |all|
    ensures all[..n] == all
  {
  }

  /** One batch: the next messages below the cursor, or none when all were visited. */
  method FetchBatch(db: MsgDb, cursor: i64, ghost n: nat, ghost all: seq<(i64, bytes)>)
      returns (msgs: seq<(i64, bytes)>)
    requires db.Valid() && ListsAll(all, db.stored.log) && n <= |all| && SplitAt(all, n, cursor)
    ensures msgs == First(all[n..], 500)
    ensures msgs == [] <==> n == |all|
    ensures msgs != [] ==>
              && n + |msgs| <= |all| && all[..n] + msgs == all[..n + |msgs|]
              && 0 <= msgs[|msgs| - 1].0 - 1 < cursor
              && SplitAt(all, n + |msgs|, msgs[|msgs| - 1].0 - 1)
  {
    TailUpTo(db.stored.log, n, cursor);
    NewestDescends(db.stored.log);
    msgs := db.FetchMessagesBeforeRev(cursor, 500);
    if msgs != [] { NextBatch(all, n, cursor, msgs); }
  }

  /** The first `n` messages of the newest-first list are those above the cursor. */
  ghost predicate SplitAt(all: seq<(i64, bytes)>, n: nat, cursor: i64)
    requires n <= |all|
  {
    && 0 <= cursor && (n < |all| ==> cursor > 0)
    && (forall i :: 0 <= i < n ==> all[i].0 > cursor)
    && (forall i :: n <= i < |all| ==> 1 <= all[i].0 <= cursor)
  }

  lemma StartAtMax(log: Log, cursor: i64)
    requires WellFormed(log) && 0 <= cursor
    requires forall m :: m in log ==> m <= cursor
    ensures SplitAt(Newest(log), 0, cursor)
  {
    NewestDescends(log);
  }

  lemma NextBatch(all: seq<(i64, bytes)>, n: nat, cursor: i64, msgs: seq<(i64, bytes)>)
    requires n <= |all| && SplitAt(all, n, cursor)
    requires forall i, j :: 0 <= i < j < |all| ==> all[i].0 > all[j].0
    requires msgs != [] && msgs == First(all[n..], 500)
    ensures n + |msgs| <= |all| && all[..n] + msgs == all[..n + |msgs|]
    ensures 0 <= msgs[|msgs| - 1].0 - 1 < cursor && SplitAt(all, n + |msgs|, msgs[|msgs| - 1].0 - 1)
  {
    assert msgs == all[n..n + |msgs|];
    assert msgs[|msgs| - 1] == all[n + |msgs| - 1];
    if n + |msgs| < |all| { assert all[n + |msgs|].0 < all[n + |msgs| - 1].0; }
  }

  method DecodeFiles<F>(msgs: seq<(i64, bytes)>, fileOf: ((i64, bytes)) -> Option<F>) returns (files: seq<F>)
    ensures files == Select(fileOf, msgs)
  {
    files := [];
    for i := 0 to |msgs|
      invariant files == Select(fileOf, msgs[..i])
    {
      SelectAppend(fileOf, msgs[..i], [msgs[i]]);
      assert msgs[..i] + [msgs[i]] == msgs[..i + 1];
      match fileOf(msgs[i]) {
        case Some(file) => files := files + [file];
        case None =>
      }
    }
    assert msgs[..|msgs|] == msgs;
  }

  lemma NewestDescends(log: Log)
    requires WellFormed(log)
    ensures forall i, j :: 0 <= i < j < |Newest(log)| ==> Newest(log)[i].0 > Newest(log)[j].0
    ensures forall i :: 0 <= i < |Newest(log)| ==> Newest(log)[i].0 in log && Newest(log)[i].0 >= 1
  {
    var ids := Sorted(log.Keys);
    forall i | 0 <= i < |ids| ensures ids[i] in log && ids[i] >= 1 { assert ids[i] in ids; }
  }

  lemma NewestId(log: Log, i: nat)
    requires WellFormed(log) && i < |log.Keys|
    ensures |Newest(log)| == |log.Keys|
    ensures Newest(log)[|log.Keys| - 1 - i].0 == Sorted(log.Keys)[i]
  {}

  lemma MessagesPrefix(log: Log, kept: set<i64>, k: nat)
    requires kept <= log.Keys && k <= |log.Keys| && Sorted(kept) == Sorted(log.Keys)[..k]
    ensures Messages(log, kept) == Messages(log, log.Keys)[..k]
  {}

  /** What is at or below the cursor is the rest of the newest-first list. */
  lemma TailUpTo(log: Log, n: nat, cursor: i64)
    requires WellFormed(log) && n <= |Newest(log)| && SplitAt(Newest(log), n, cursor)
    ensures Reverse(Messages(log, UpTo(log.Keys, cursor))) == Newest(log)[n..]
  {
    var kept := UpTo(log.Keys, cursor);
    var k: nat := |log.Keys| - n;
    KeptIsPrefix(log, n, cursor);
    SortedPrefix(log.Keys, kept, k);
    MessagesPrefix(log, kept, k);
    ReversePrefix(Messages(log, log.Keys), k);
  }

  lemma KeptIsPrefix(log: Log, n: nat, cursor: i64)
    requires WellFormed(log) && n <= |Newest(log)| && SplitAt(Newest(log), n, cursor)
    ensures forall i :: 0 <= i < |log.Keys| ==> (Sorted(log.Keys)[i] in UpTo(log.Keys, cursor) <==> i < |log.Keys| - n)
  {
    forall i | 0 <= i < |log.Keys|
      ensures Sorted(log.Keys)[i] in UpTo(log.Keys, cursor) <==> i < |log.Keys| - n
    {
      NewestId(log, i);
      assert Sorted(log.Keys)[i] in Sorted(log.Keys);
    }
  }

  // ---------- pages ----------

  function Pages<F>(files: seq<F>, size: nat, n: nat): seq<F> {
    if n == 0 then [] else Pages(files, size, n - 1) + Page(files, n, size)
  }

  lemma PageIsSlice<F>(files: seq<F>, n: nat, size: nat, start: nat)
    requires n >= 1 && size <= 1000 && start == (n - 1) * size < TWO_TO_64
    ensures Page(files, n, size) == Slice(files, start, size)
  {
    assert start % TWO_TO_64 == start;
  }

  lemma SliceExtends<F>(files: seq<F>, start: nat, size: nat)
    ensures (if start <= |files| then files[..start] else files) + Slice(files, start, size)
            == if start + size <= |files| then files[..start + size] else files
  {}

  lemma Product(n: nat, size: nat)
    requires n >= 1
    ensures (n - 1) * size + size == n * size
  {}

  lemma {:induction false} PagesArePrefix<F>(files: seq<F>, size: nat, n: nat, total: nat)
    requires 1 <= size <= 1000 && total == n * size < TWO_TO_64
    ensures Pages(files, size, n) == if total <= |files| then files[..total] else files
  {
    if n > 0 {
      var start := total - size;
      Product(n, size);
      PagesArePrefix(files, size, n - 1, start);
      PageIsSlice(files, n, size, start);
      SliceExtends(files, start, size);
    }
  }

  /** Enough pages put one after the other are the whole list. */
  lemma PagesConcatenate<F>(files: seq<F>, size: nat, n: nat)
    requires 1 <= size <= 1000 && |files| <= n * size < TWO_TO_64
    ensures Pages(files, size, n) == files
  {
    PagesArePrefix(files, size, n, n * size);
  }

  /** A page number so large that the offset leaves 64 bits yields a page from the
      wrong place; the slice is the requested one exactly when the offset fits, or
      what is left of it lies behind the list as well. */
  lemma PageIsExact<F>(files: seq<F>, page: nat, size: nat, start: nat)
    requires page >= 1 && size <= 1000 && |files| < TWO_TO_64 && start == (page - 1) * size
    ensures Page(files, page, size) == Slice(files, start, size)
            <==> start < TWO_TO_64 || start % TWO_TO_64 >= |files| || size == 0
  {
    assert Page(files, page, size) == Slice(files, start % TWO_TO_64, size);
    WrappedSlice(files, start, start % TWO_TO_64, size);
  }

  lemma WrappedSlice<F>(files: seq<F>, start: nat, wrapped: nat, size: nat)
    requires |files| < TWO_TO_64 && (start < TWO_TO_64 ==> wrapped == start)
    ensures Slice(files, wrapped, size) == Slice(files, start, size)
            <==> start < TWO_TO_64 || wrapped >= |files| || size == 0
  {
    if start >= TWO_TO_64 && wrapped < |files| && size > 0 {
      assert |Slice(files, wrapped, size)| > 0;
    }
  }
}
