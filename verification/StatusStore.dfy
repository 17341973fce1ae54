/**
 The index-job rows and the compare-and-set operations on them (`src/geek_crawler_rag/status_store.py`).
 Every operation is one atomic store call; the clock reading it uses is its `now`.
 */
module StatusStore {
  import opened Wrappers

  datatype JobState = Pending | Running | Complete | Failed | Skipped

  /** A stored job: its state, who holds its lease and until when, and how often it was claimed. */
  datatype Row = Row(state: JobState, owner: Option<nat>, until: Option<int>, attempt: nat)

  /** The part of a status document a save writes. It carries no lease fields. */
  datatype Status = Status(state: JobState, attempt: nat)

  type Rows = map<string, Row>

  predicate Active(row: Row) {
    row.state == Pending || row.state == Running
  }

  /** `lease_expired_or_missing`. */
  predicate Lapsed(row: Row, now: int) {
    row.until.None? || row.until.value <= now
  }

  predicate ActiveIn(rows: Rows, run: string) {
    run in rows && Active(rows[run])
  }

  predicate OwnedIn(rows: Rows, run: string, owner: nat) {
    run in rows && rows[run].owner == Some(owner)
  }

  // ---- The operations ----

  predicate IsOwned(rows: Rows, run: string, owner: nat, now: int) {
    OwnedIn(rows, run, owner) && Active(rows[run]) && !Lapsed(rows[run], now)
  }

  predicate Claimable(rows: Rows, run: string, force: bool, now: int) {
    run !in rows || (if Active(rows[run]) then Lapsed(rows[run], now) else force)
  }

  /** The rows after a successful claim; a run without a row gets one. */
  function Claim(rows: Rows, run: string, owner: nat, lease: nat, now: int): Rows {
    var attempt := if run in rows then rows[run].attempt + 1 else 1;
    rows[run := Row(Pending, Some(owner), Some(now + lease), attempt)]
  }

  predicate Reacquirable(rows: Rows, run: string, owner: nat, now: int) {
    ActiveIn(rows, run) && (Lapsed(rows[run], now) || rows[run].owner == Some(owner))
  }

  function Reacquire(rows: Rows, run: string, owner: nat, lease: nat, now: int): Rows {
    if Reacquirable(rows, run, owner, now)
    then rows[run := rows[run].(owner := Some(owner), until := Some(now + lease))]
    else rows
  }

  function Heartbeat(rows: Rows, run: string, owner: nat, lease: nat, now: int): Rows {
    if OwnedIn(rows, run, owner) && Active(rows[run])
    then rows[run := rows[run].(until := Some(now + lease))]
    else rows
  }

  /** `modified_count == 1`: writing the value already stored does not count. */
  predicate Renewed(rows: Rows, run: string, owner: nat, lease: nat, now: int) {
    OwnedIn(rows, run, owner) && Active(rows[run]) && rows[run].until != Some(now + lease)
  }

  /** A fenced save: it matches on the lease owner and on nothing else. */
  function Save(rows: Rows, run: string, owner: nat, status: Status): Rows {
    if OwnedIn(rows, run, owner)
    then rows[run := rows[run].(state := status.state, attempt := status.attempt)]
    else rows
  }

  function Release(rows: Rows, run: string, owner: nat, now: int): Rows {
    if OwnedIn(rows, run, owner)
    then rows[run := rows[run].(owner := None, until := Some(now))]
    else rows
  }

  /** Runs the scheduler must not pick. */
  function ExcludedRunIds(rows: Rows, maxAttempts: nat, now: int): (excluded: set<string>)
    ensures forall run ::
              run !in excluded
              <==> run in rows ==> Active(rows[run]) && Lapsed(rows[run], now) && rows[run].attempt < maxAttempts
  {
    set run | run in rows &&
      (!Active(rows[run]) || !Lapsed(rows[run], now) || rows[run].attempt >= maxAttempts)
  }

  predicate HasActiveJob(rows: Rows, now: int) {
    exists run | run in rows :: Active(rows[run]) && !Lapsed(rows[run], now)
  }

  /** No row but that of `run` is touched, and none comes or goes. */
  predicate Elsewhere(before: Rows, after: Rows, run: string) {
    after.Keys == before.Keys && forall other | other in before && other != run :: after[other] == before[other]
  }

  /** The collection itself. */
  class IndexStatusStore {
    var rows: Rows

    constructor ()
      ensures rows == map[]
    {
      rows := map[];
    }

    method GetRow(run: string) returns (row: Option<Row>)
      ensures row == if run in rows then Some(rows[run]) else None
    {
      row := if run in rows then Some(rows[run]) else None;
    }

    method TryClaim(run: string, owner: nat, lease: nat, force: bool, now: int) returns (claimed: Option<Status>)
      modifies this
      ensures claimed.Some? <==> Claimable(old(rows), run, force, now)
      ensures claimed.Some? ==>
                && rows == Claim(old(rows), run, owner, lease, now)
                && claimed.value == Status(Pending, rows[run].attempt)
                && rows.Keys == old(rows).Keys + {run}
                && rows[run].state == Pending && rows[run].owner == Some(owner) && rows[run].until == Some(now + lease)
                && rows[run].attempt == (if run in old(rows) then old(rows)[run].attempt else 0) + 1
                && forall other | other in old(rows) && other != run :: rows[other] == old(rows)[other]
      ensures claimed.None? ==> rows == old(rows)
    {
      if run !in rows {
        // The upsert inserts.
        rows := rows[run := Row(Pending, Some(owner), Some(now + lease), 1)];
        return Some(Status(Pending, 1));
      }
      var row := rows[run];
      var terminalMatch := force && !Active(row);
      var lapsedMatch := Active(row) && Lapsed(row, now);
      if terminalMatch || lapsedMatch {
        rows := rows[run := Row(Pending, Some(owner), Some(now + lease), row.attempt + 1)];
        return Some(Status(Pending, row.attempt + 1));
      }
      // The upsert's insert hits the unique index and the claim is refused.
      return None;
    }

    method TryReacquire(run: string, owner: nat, lease: nat, now: int) returns (ok: bool)
      modifies this
      ensures ok <==> Reacquirable(old(rows), run, owner, now)
      ensures rows == Reacquire(old(rows), run, owner, lease, now)
      ensures Elsewhere(old(rows), rows, run)
      ensures ok ==> rows[run] == Row(old(rows)[run].state, Some(owner), Some(now + lease), old(rows)[run].attempt)
      ensures !ok ==> rows == old(rows)
    {
      ok := run in rows && Active(rows[run]) && (Lapsed(rows[run], now) || rows[run].owner == Some(owner));
      if ok {
        rows := rows[run := rows[run].(owner := Some(owner), until := Some(now + lease))];
      }
    }

    method RenewLease(run: string, owner: nat, lease: nat, now: int) returns (renewed: bool)
      modifies this
      ensures renewed <==> Renewed(old(rows), run, owner, lease, now)
      ensures rows == Heartbeat(old(rows), run, owner, lease, now)
      ensures Elsewhere(old(rows), rows, run)
      ensures run in rows ==>
                var was := old(rows)[run];
                rows[run] == if was.owner == Some(owner) && (was.state == Pending || was.state == Running)
                             then Row(was.state, was.owner, Some(now + lease), was.attempt) else was
    {
      if run !in rows || rows[run].owner != Some(owner) || !Active(rows[run]) {
        return false;
      }
      renewed := rows[run].until != Some(now + lease);
      rows := rows[run := rows[run].(until := Some(now + lease))];
    }

    method SaveStatus(run: string, owner: nat, status: Status) returns (matched: bool)
      modifies this
      ensures matched <==> OwnedIn(old(rows), run, owner)
      ensures rows == Save(old(rows), run, owner, status)
      ensures Elsewhere(old(rows), rows, run)
      ensures matched ==> rows[run] == Row(status.state, Some(owner), old(rows)[run].until, status.attempt)
      ensures !matched ==> rows == old(rows)
    {
      matched := run in rows && rows[run].owner == Some(owner);
      if matched {
        rows := rows[run := rows[run].(state := status.state, attempt := status.attempt)];
      }
    }

    method ReleaseLease(run: string, owner: nat, now: int)
      modifies this
      ensures rows == Release(old(rows), run, owner, now)
      ensures Elsewhere(old(rows), rows, run)
      ensures run in rows ==>
                var was := old(rows)[run];
                rows[run] == if was.owner == Some(owner) then Row(was.state, None, Some(now), was.attempt) else was
    {
      if run in rows && rows[run].owner == Some(owner) {
        rows := rows[run := rows[run].(owner := None, until := Some(now))];
      }
    }
  }

  // ---- Fencing ----

  /** What a worker may do to a run's row once it is executing it. */
  datatype WorkerOp =
    | SaveOp(status: Status)
    | HeartbeatOp(now: int)
    | ReleaseOp(now: int)

  function Perform(rows: Rows, run: string, owner: nat, lease: nat, op: WorkerOp): Rows {
    match op
    case SaveOp(status) => Save(rows, run, owner, status)
    case HeartbeatOp(now) => Heartbeat(rows, run, owner, lease, now)
    case ReleaseOp(now) => Release(rows, run, owner, now)
  }

  function PerformAll(rows: Rows, run: string, owner: nat, lease: nat, ops: seq<WorkerOp>): Rows
    decreases |ops|
  {
    if ops == [] then rows
    else PerformAll(Perform(rows, run, owner, lease, ops[0]), run, owner, lease, ops[1..])
  }

  /** Whatever a worker still does, in any order and number, a row it no longer owns is left as it is. */
  lemma {:induction false} DisplacedWorkerHarmless(rows: Rows, run: string, owner: nat, lease: nat, ops: seq<WorkerOp>)
    requires !OwnedIn(rows, run, owner)
    ensures PerformAll(rows, run, owner, lease, ops) == rows
    decreases |ops|
  {
    if ops != [] {
      DisplacedWorkerHarmless(rows, run, owner, lease, ops[1..]);
    }
  }

  /** A worker's writes never reach another run's row, and never hand its own row to someone else. */
  lemma {:induction false} WritesStayHome(rows: Rows, run: string, owner: nat, lease: nat, ops: seq<WorkerOp>)
    ensures var after := PerformAll(rows, run, owner, lease, ops);
            && after.Keys == rows.Keys
            && (forall other | other in rows && other != run :: after[other] == rows[other])
            && (run in rows ==> after[run].owner == rows[run].owner || after[run].owner == None)
    decreases |ops|
  {
    if ops != [] {
      WritesStayHome(Perform(rows, run, owner, lease, ops[0]), run, owner, lease, ops[1..]);
    }
  }

  /** After another process claims or reacquires a run, its former owner's writes all miss. */
  lemma TakeoverFences(rows: Rows, run: string, former: nat, next: nat, lease: nat, now: int, ops: seq<WorkerOp>)
    requires former != next
    ensures var taken := Claim(rows, run, next, lease, now);
            PerformAll(taken, run, former, lease, ops) == taken
    ensures Reacquirable(rows, run, next, now) ==>
              var taken := Reacquire(rows, run, next, lease, now);
              PerformAll(taken, run, former, lease, ops) == taken
  {
    DisplacedWorkerHarmless(Claim(rows, run, next, lease, now), run, former, lease, ops);
    if Reacquirable(rows, run, next, now) {
      DisplacedWorkerHarmless(Reacquire(rows, run, next, lease, now), run, former, lease, ops);
    }
  }
}
