/** What a client knows of the users: a snapshot of some earlier moment, the log rows it
    fetches when it joins, and those that reach it live. */
module ClientView {
  import opened Results
  import opened Selection
  import Subscription
  import Delivery
  import UserLog

  /** The rows of the log are numbered 1, 2, 3, ... */
  ghost predicate NumbersRows(ids: seq<int>, rows: seq<UserLog.LogRow>) {
    |ids| == |rows| && forall i :: 0 <= i < |ids| ==> ids[i] == i + 1
  }

  /** Every request keeps the two logs in step: the row it writes, if any, is broadcast under the next number
      while nobody holds a guard. */
  lemma LogStep(decode: Subscription.Decoder, st: Delivery.State, users: UserLog.State, r: UserLog.Request, fault: bool)
    requires NumbersRows(st.logs, users.logs) && Delivery.Quiet(st)
    ensures var rows := UserLog.After(users, r, fault).logs;
            || rows == users.logs
            || (|rows| == |users.logs| + 1 && Delivery.Enabled(st, Delivery.LogUser(|rows|))
                && NumbersRows(Delivery.Take(decode, st, Delivery.LogUser(|rows|)).logs, rows))
  {
    var rows := UserLog.After(users, r, fault).logs;
  }

  /** No other step of the server touches the log. */
  lemma OtherStepsKeepLog(decode: Subscription.Decoder, st: Delivery.State, step: Delivery.Step)
    requires Delivery.Enabled(st, step) && !step.LogUser?
    ensures Delivery.Take(decode, st, step).logs == st.logs
  {}

  /** The rows with the given numbers. */
  ghost function RowsOf(rows: seq<UserLog.LogRow>, ids: seq<int>): (r: seq<UserLog.LogRow>)
    requires forall i :: 0 <= i < |ids| ==> 1 <= ids[i] <= |rows|
    ensures |r| == |ids| && forall i :: 0 <= i < |r| ==> r[i] == rows[ids[i] - 1]
  {
    seq(|ids|, i requires 0 <= i < |ids| => rows[ids[i] - 1])
  }

  /** The numbers of the rows a session hands to a client that has `version`: those fetched when it
      joined, then those passed on since. */
  ghost function ReceivedIds(logs: seq<int>, s: Delivery.Session, version: nat): seq<int>
    requires s.at.logs <= |logs|
  {
    Select(Delivery.Newer(version), logs[..s.at.logs]) + Select(Delivery.ItemLog, s.sent)
  }

  lemma {:induction false} NewerRows(ids: seq<int>, from: int, version: int)
    requires forall i :: 0 <= i < |ids| ==> ids[i] == from + i + 1
    requires from <= version <= from + |ids|
    ensures Select(Delivery.Newer(version), ids) == ids[version - from..]
  {
    if ids != [] {
      if from < version {
        NewerRows(ids[1..], from + 1, version);
      } else {
        Delivery.AllNewer(ids, version);
      }
    }
  }

  /** Those fetched are what the server answers to the version. */
  lemma FetchedAreNewer(ids: seq<int>, rows: seq<UserLog.LogRow>, joined: nat, version: nat)
    requires NumbersRows(ids, rows) && version <= joined <= |rows|
    ensures var fetched := UserLog.Numbered(rows[..joined], version);
            && |Select(Delivery.Newer(version), ids[..joined])| == |fetched|
            && forall i :: 0 <= i < |fetched| ==> Select(Delivery.Newer(version), ids[..joined])[i] == fetched[i].0
  {
    NewerRows(ids[..joined], 0, version);
  }

  /** They are the rows that follow the client's version, without a gap. */
  lemma ReceivedFollow(decode: Subscription.Decoder, start: Delivery.State, steps: seq<Delivery.Step>, sid: nat,
      rows: seq<UserLog.LogRow>, version: nat)
    requires Delivery.Fresh(start) && sid in Delivery.Run(decode, start, steps).sessions
    requires var st := Delivery.Run(decode, start, steps);
             NumbersRows(st.logs, rows) && version <= st.sessions[sid].at.logs
    ensures var st := Delivery.Run(decode, start, steps);
            var s := st.sessions[sid];
            var n := s.at.logs + |Select(Delivery.ItemLog, s.sent)|;
            && version <= s.at.logs <= n <= |st.logs| && ReceivedIds(st.logs, s, version) == st.logs[version..n]
  {
    hide Delivery.Run, Delivery.Fresh, Select;
    Delivery.LogsAreConsecutive(decode, start, steps, sid);
    var st := Delivery.Run(decode, start, steps);
    var s := st.sessions[sid];
    var n := s.at.logs + |Select(Delivery.ItemLog, s.sent)|;
    Delivery.LogsComplete(st.logs, s.at.logs, n, version);
    NewerRows(st.logs[..n], 0, version);
    assert st.logs[..n][version..] == st.logs[version..n];
  }

  /** A client with the snapshot of any earlier moment that replays what its session has handed it has the view of
      the moment after the last row it has got: once it has read the whole channel, the current one. */
  lemma ClientIsCurrent(decode: Subscription.Decoder, start: Delivery.State, steps: seq<Delivery.Step>, sid: nat,
      first: UserLog.State, attempts: seq<UserLog.Attempt>, n: nat, m: nat)
    requires Delivery.Fresh(start) && sid in Delivery.Run(decode, start, steps).sessions
    requires UserLog.Fresh(first) && n <= m <= |attempts|
    requires UserLog.LogComplete(UserLog.Run(first, attempts[..n]), attempts[n..])
    requires var st, rows := Delivery.Run(decode, start, steps), UserLog.Run(first, attempts).logs;
             var s := st.sessions[sid];
             && NumbersRows(st.logs, rows) && |UserLog.Run(first, attempts[..n]).logs| <= s.at.logs
             && |UserLog.Run(first, attempts[..m]).logs| == s.at.logs + |Select(Delivery.ItemLog, s.sent)|
    ensures var st, rows := Delivery.Run(decode, start, steps), UserLog.Run(first, attempts).logs;
            var earlier, reached := UserLog.Run(first, attempts[..n]), UserLog.Run(first, attempts[..m]);
            var s, version := st.sessions[sid], |earlier.logs|;
            && s.at.logs <= |st.logs|
            && (forall i :: 0 <= i < |ReceivedIds(st.logs, s, version)| ==>
                  1 <= ReceivedIds(st.logs, s, version)[i] <= |rows|)
            && UserLog.Replay(UserLog.ViewOf(earlier.users), RowsOf(rows, ReceivedIds(st.logs, s, version)))
               == UserLog.ViewOf(reached.users)
  {
    hide Delivery.Run, Delivery.Fresh, UserLog.Run, UserLog.LogComplete, UserLog.Replay, UserLog.ViewOf, ReceivedIds;
    var st, rows := Delivery.Run(decode, start, steps), UserLog.Run(first, attempts).logs;
    var earlier, reached := UserLog.Run(first, attempts[..n]), UserLog.Run(first, attempts[..m]);
    ReceivedFollow(decode, start, steps, sid, rows, |earlier.logs|);
    UserLog.LogGrows(first, attempts, m);
    UserLog.CompletePrefix(earlier, attempts[n..], m - n);
    assert attempts[..m][..n] == attempts[..n] && attempts[..m][n..] == attempts[n..][..m - n];
    UserLog.ReplayIsCurrent(first, attempts[..m], n);
    assert RowsOf(rows, ReceivedIds(st.logs, st.sessions[sid], |earlier.logs|)) == reached.logs[|earlier.logs|..];
  }
}
