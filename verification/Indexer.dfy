/**
 The index service of one process (`src/geek_crawler_rag/indexer.py`): a queue, a set of kill flags
 and a record of statuses over the shared rows. Each call below runs without interruption; it is then
 a run of the protocol of `IndexProtocol`, in which calls of many processes interleave step by step.
 */
module Indexer {
  import opened Wrappers
  import opened StatusStore
  import opened IndexProtocol
  import opened LeaseBoundary

  datatype KillOutcome = Absent | AlreadyTerminal | Dequeued | Stopping

  // ---- What one turn of the worker does ----

  /** The worker may execute `run`: the lease is live and its own, or there for the taking. */
  predicate Executable(rows: Rows, run: string, owner: nat, now: int) {
    IsOwned(rows, run, owner, now) || Reacquirable(rows, run, owner, now)
  }

  /** The rows after a turn that nothing interrupts. */
  function TurnRows(rows: Rows, run: string, owner: nat, flagged: bool, ok: bool, now: int): Rows {
    if !flagged && Executable(rows, run, owner, now)
    then rows[run := Row(if ok then Complete else Failed, None, Some(now), rows[run].attempt)]
    else Release(rows, run, owner, now)
  }

  function TurnStatuses(statuses: map<string, JobState>, rows: Rows, run: string, owner: nat,
                        flagged: bool, ok: bool, now: int): map<string, JobState> {
    if !flagged && Executable(rows, run, owner, now)
    then statuses[run := if ok then Complete else Failed]
    else statuses
  }

  /** The job is over and nobody holds its lease. */
  predicate Done(rows: Rows, run: string, ok: bool) {
    run in rows && rows[run].owner == None && rows[run].state == if ok then Complete else Failed
  }

  /** A later queue entry for a job that is over changes nothing about it. */
  lemma DoneStays(rows: Rows, done: string, ok: bool, run: string, owner: nat, flagged: bool, result: bool, now: int)
    requires Done(rows, done, ok)
    ensures Done(TurnRows(rows, run, owner, flagged, result, now), done, ok)
  {
  }

  lemma TurnLeavesOthers(rows: Rows, run: string, owner: nat, flagged: bool, ok: bool, now: int)
    ensures var v := TurnRows(rows, run, owner, flagged, ok, now);
            v.Keys == rows.Keys && forall r | r in rows && r != run :: v[r] == rows[r]
    ensures !flagged && Executable(rows, run, owner, now) ==>
              Done(TurnRows(rows, run, owner, flagged, ok, now), run, ok)
  {
  }

  lemma ExecutableIsLocal(a: Rows, b: Rows, run: string, owner: nat, now: int)
    requires a.Keys == b.Keys && (run in a ==> a[run] == b[run])
    ensures Executable(a, run, owner, now) <==> Executable(b, run, owner, now)
    ensures Executable(a, run, owner, now) ==> run in a
  {
  }

  predicate Ready(w: World, pid: nat) {
    pid in w.procs && w.procs[pid].alive && w.procs[pid].enq == NoEnq && w.procs[pid].work == Idle
  }

  predicate SameOthers(w: World, v: World, pid: nat) {
    v.now == w.now && v.procs.Keys == w.procs.Keys && forall q | q in w.procs && q != pid :: v.procs[q] == w.procs[q]
  }

  /** A turn is a run of the protocol. */
  lemma TurnIsRun(c: Config, w: World, pid: nat, ok: bool) returns (es: seq<Event>)
    requires ValidConfig(c) && Ready(w, pid) && w.procs[pid].queue != []
    ensures Runs(c, w, es)
    ensures var v, p := After(c, w, es), w.procs[pid];
            var run := p.queue[0];
            && SameOthers(w, v, pid) && Ready(v, pid)
            && v.rows == TurnRows(w.rows, run, pid, run in p.killed, ok, w.now)
            && v.procs[pid].queue == p.queue[1..] && v.procs[pid].killed == p.killed - {run}
            && v.procs[pid].statuses == TurnStatuses(p.statuses, w.rows, run, pid, run in p.killed, ok, w.now)
  {
    hide StopAfter, FailureLimit, Runs, After, Apply, Enabled, Executable;
    var p := w.procs[pid];
    var run := p.queue[0];
    NothingYet(c, w);
    TakeStep(c, w, pid);
    es := OneMore(c, w, [], Take(pid));
    if run in p.killed {
      ReleaseStep(c, After(c, w, es), pid);
      es := OneMore(c, w, es, LetGo(pid));
    } else {
      es := HeldIsRun(c, w, es, pid, ok);
    }
  }

  /** The rest of a pass, once the entry is taken and not flagged. */
  lemma HeldIsRun(c: Config, w: World, es: seq<Event>, pid: nat, ok: bool) returns (more: seq<Event>)
    requires ValidConfig(c) && Runs(c, w, es)
    requires var v := After(c, w, es);
             && pid in v.procs && v.procs[pid].alive && v.procs[pid].work.Held?
             && v.procs[pid].work.run !in v.procs[pid].killed
    ensures Runs(c, w, more)
    ensures var v, u := After(c, w, es), After(c, w, more);
            var p, run := v.procs[pid], v.procs[pid].work.run;
            && SameOthers(v, u, pid) && u.rows == TurnRows(v.rows, run, pid, false, ok, v.now)
            && u.procs[pid].alive && u.procs[pid].work == Idle && u.procs[pid].enq == p.enq
            && u.procs[pid].queue == p.queue && u.procs[pid].killed == p.killed - {run}
            && u.procs[pid].statuses == TurnStatuses(p.statuses, v.rows, run, pid, false, ok, v.now)
  {
    hide StopAfter, FailureLimit, Runs, After, Apply, Enabled, Executable, Release;
    var v := After(c, w, es);
    var run := v.procs[pid].work.run;
    more := EnterIsRun(c, w, es, pid);
    if Executable(v.rows, run, pid, v.now) {
      more := ExecuteIsRun(c, w, more, pid, ok);
      ExecutedRows(v.rows, After(c, w, more).rows, run, pid, ok, v.now);
    }
    more := CloseIsRun(c, w, more, pid);
  }

  lemma ExecutedRows(before: Rows, rows: Rows, run: string, pid: nat, ok: bool, now: int)
    requires Executable(before, run, pid, now) && OwnedIn(rows, run, pid)
    requires rows.Keys == before.Keys && rows[run].attempt == before[run].attempt
    requires rows[run].state == if ok then Complete else Failed
    requires forall r | r in before && r != run :: rows[r] == before[r]
    ensures Release(rows, run, pid, now) == TurnRows(before, run, pid, false, ok, now)
  {
  }

  lemma TakeStep(c: Config, w: World, pid: nat)
    requires ValidConfig(c) && Ready(w, pid) && w.procs[pid].queue != []
    ensures Enabled(c, w, Take(pid))
    ensures var v, p := Apply(c, w, Take(pid)), w.procs[pid];
            var run := p.queue[0];
            && SameOthers(w, v, pid) && v.rows == w.rows && v.procs[pid].alive && v.procs[pid].enq == NoEnq
            && v.procs[pid].queue == p.queue[1..] && v.procs[pid].killed == p.killed - {run}
            && v.procs[pid].statuses == p.statuses
            && v.procs[pid].work == if run in p.killed then Releasing(run) else Held(run)
  {
    hide StopAfter;
  }

  lemma ReleaseStep(c: Config, w: World, pid: nat)
    requires ValidConfig(c) && pid in w.procs && w.procs[pid].alive && w.procs[pid].work.Releasing?
    ensures Enabled(c, w, LetGo(pid))
    ensures Apply(c, w, LetGo(pid))
         == World(w.now, Release(w.rows, w.procs[pid].work.run, pid, w.now),
                  w.procs[pid := w.procs[pid].(work := Idle)])
  {
    hide StopAfter, Release;
  }

  lemma ExecuteIsRun(c: Config, w: World, es: seq<Event>, pid: nat, ok: bool) returns (more: seq<Event>)
    requires ValidConfig(c) && Runs(c, w, es)
    requires var v := After(c, w, es);
             && pid in v.procs && v.procs[pid].alive && v.procs[pid].work.Entered?
             && v.procs[pid].work.run !in v.procs[pid].killed && OwnedIn(v.rows, v.procs[pid].work.run, pid)
    ensures Runs(c, w, more)
    ensures var v, u := After(c, w, es), After(c, w, more);
            var p, run := v.procs[pid], v.procs[pid].work.run;
            var state := if ok then Complete else Failed;
            && SameOthers(v, u, pid) && u.rows == v.rows[run := v.rows[run].(state := state)]
            && u.procs[pid].alive && u.procs[pid].enq == p.enq && u.procs[pid].work == Closing(run)
            && u.procs[pid].queue == p.queue && u.procs[pid].killed == p.killed
            && u.procs[pid].statuses == p.statuses[run := state]
  {
    hide StopAfter, FailureLimit, Runs, After;
    more := OneMore(c, w, es, Start(pid));
    more := OneMore(c, w, more, Finish(pid, ok));
  }

  lemma EnterIsRun(c: Config, w: World, es: seq<Event>, pid: nat) returns (more: seq<Event>)
    requires ValidConfig(c) && Runs(c, w, es)
    requires var v := After(c, w, es); pid in v.procs && v.procs[pid].alive && v.procs[pid].work.Held?
    ensures Runs(c, w, more)
    ensures var v, u := After(c, w, es), After(c, w, more);
            var p, run := v.procs[pid], v.procs[pid].work.run;
            && SameOthers(v, u, pid) && u.procs[pid].alive && u.procs[pid].enq == p.enq
            && u.procs[pid].queue == p.queue && u.procs[pid].killed == p.killed && u.procs[pid].statuses == p.statuses
            && (if Executable(v.rows, run, pid, v.now)
                then u.procs[pid].work.Entered? && u.procs[pid].work.run == run && OwnedIn(u.rows, run, pid)
                     && v.rows.Keys == u.rows.Keys && Active(u.rows[run]) && u.rows[run].attempt == v.rows[run].attempt
                     && forall r | r in v.rows && r != run :: u.rows[r] == v.rows[r]
                else u.procs[pid].work == Closing(run) && u.rows == v.rows)
  {
    hide StopAfter, FailureLimit, Runs, After;
    more := OneMore(c, w, es, CheckOwned(pid));
    if After(c, w, more).procs[pid].work.Unowned? {
      more := OneMore(c, w, more, TryAgain(pid));
    }
  }

  lemma CloseIsRun(c: Config, w: World, es: seq<Event>, pid: nat) returns (more: seq<Event>)
    requires ValidConfig(c) && Runs(c, w, es)
    requires var v := After(c, w, es); pid in v.procs && v.procs[pid].alive && v.procs[pid].work.Closing?
    ensures Runs(c, w, more)
    ensures var v, u := After(c, w, es), After(c, w, more);
            var p, run := v.procs[pid], v.procs[pid].work.run;
            && SameOthers(v, u, pid) && u.rows == Release(v.rows, run, pid, v.now)
            && u.procs[pid].alive && u.procs[pid].work == Idle && u.procs[pid].enq == p.enq
            && u.procs[pid].queue == p.queue && u.procs[pid].killed == p.killed - {run}
            && u.procs[pid].statuses == p.statuses
  {
    hide StopAfter, FailureLimit, Runs, After;
    more := OneMore(c, w, es, ClosePop(pid));
    more := OneMore(c, w, more, LetGo(pid));
  }

  /** A claim, the PENDING save and the queueing; or, when the claim is refused, a fresh look at the row. */
  lemma EnqueueIsRun(c: Config, w: World, pid: nat, run: string, force: bool) returns (es: seq<Event>)
    requires ValidConfig(c) && Ready(w, pid)
    ensures Runs(c, w, es)
    ensures var v, p := After(c, w, es), w.procs[pid];
            && SameOthers(w, v, pid) && Ready(v, pid)
            && (if Claimable(w.rows, run, force, w.now)
                then && v.rows == Claim(w.rows, run, pid, c.lease, w.now)
                     && v.procs[pid].queue == p.queue + [run] && v.procs[pid].killed == p.killed - {run}
                     && v.procs[pid].statuses == p.statuses[run := Pending]
                else && run in w.rows && v.rows == w.rows
                     && v.procs[pid].queue == p.queue && v.procs[pid].killed == p.killed
                     && v.procs[pid].statuses == p.statuses[run := w.rows[run].state])
  {
    hide StopAfter, FailureLimit, Runs, After;
    NothingYet(c, w);
    if Claimable(w.rows, run, force, w.now) {
      es := OneMore(c, w, [], EnqClaim(pid, run, force));
      es := OneMore(c, w, es, EnqSave(pid));
      es := OneMore(c, w, es, EnqPut(pid));
      assert After(c, w, es).rows == Claim(w.rows, run, pid, c.lease, w.now);
    } else {
      es := OneMore(c, w, [], Refresh(pid, run));
    }
  }

  /** The PENDING save of a claim writes what the claim already wrote. */
  lemma SavedAfterClaim(rows: Rows, run: string, owner: nat, lease: nat, now: int)
    ensures SaveState(Claim(rows, run, owner, lease, now), run, owner, Pending) == Claim(rows, run, owner, lease, now)
  {
  }

  /** Same rows but for the one the process holds, and that as often claimed. */
  predicate HeldOnly(before: Rows, rows: Rows, run: string, owner: nat) {
    && run in before && OwnedIn(rows, run, owner) && rows.Keys == before.Keys
    && rows[run].attempt == before[run].attempt
    && forall r | r in before && r != run :: rows[r] == before[r]
  }

  lemma HeldOnEntry(rows: Rows, run: string, owner: nat, lease: nat, now: int)
    requires Executable(rows, run, owner, now)
    ensures IsOwned(rows, run, owner, now) ==> HeldOnly(rows, rows, run, owner)
    ensures Reacquirable(rows, run, owner, now) ==> HeldOnly(rows, Reacquire(rows, run, owner, lease, now), run, owner)
  {
  }

  lemma NotReacquired(rows: Rows, run: string, owner: nat, lease: nat, now: int)
    requires !Reacquirable(rows, run, owner, now)
    ensures Reacquire(rows, run, owner, lease, now) == rows
  {
  }

  lemma HeldSave(before: Rows, rows: Rows, run: string, owner: nat, state: JobState)
    requires HeldOnly(before, rows, run, owner)
    ensures var saved := SaveState(rows, run, owner, state);
            HeldOnly(before, saved, run, owner) && saved[run].state == state
  {
  }

  // ---- The service ----

  class IndexService {
    const owner: nat
    const store: IndexStatusStore
    var statuses: map<string, JobState>
    var queue: seq<string>
    var killed: set<string>

    constructor (owner: nat, store: IndexStatusStore)
      ensures this.owner == owner && this.store == store
      ensures statuses == map[] && queue == [] && killed == {}
    {
      this.owner, this.store := owner, store;
      statuses, queue, killed := map[], [], {};
    }

    /** This service and the rows are what the world `w` says of process `owner`. */
    ghost predicate Shows(w: World)
      reads this, store
    {
      && Ready(w, owner) && w.rows == store.rows
      && w.procs[owner].queue == queue && w.procs[owner].killed == killed && w.procs[owner].statuses == statuses
    }

    /** `_persist`: a fenced save of the status, which carries the row's attempt count. */
    method Persist(run: string, state: JobState)
      modifies store
      ensures store.rows == SaveState(old(store.rows), run, owner, state)
    {
      var row := store.GetRow(run);
      var attempt := if row.Some? then row.value.attempt else 0;
      var _ := store.SaveStatus(run, owner, Status(state, attempt));
    }

    method GetStatus(run: string) returns (row: Option<Row>)
      modifies this`statuses
      ensures row == if run in store.rows then Some(store.rows[run]) else None
      ensures statuses == if run in store.rows then old(statuses)[run := store.rows[run].state] else old(statuses)
    {
      row := store.GetRow(run);
      if row.Some? {
        statuses := statuses[run := row.value.state];
      }
    }

    method Kill(c: Config, run: string, ghost w: World) returns (outcome: KillOutcome)
      requires ValidConfig(c) && Shows(w)
      modifies this, store
      ensures Shows(Apply(c, w, Event.Kill(owner, run)))
      ensures outcome == Absent <==> run !in old(store.rows)
      ensures outcome == Dequeued <==> run in old(store.rows) && old(store.rows)[run].state == Pending
      ensures outcome == Stopping <==> run in old(store.rows) && old(store.rows)[run].state == Running
      ensures outcome == Dequeued || outcome == Stopping ==> killed == old(killed) + {run}
      ensures outcome == Absent || outcome == AlreadyTerminal ==> killed == old(killed)
      ensures outcome != Dequeued ==> store.rows == old(store.rows)
      ensures outcome == Dequeued && OwnedIn(old(store.rows), run, owner) ==>
                store.rows == old(store.rows)[run := old(store.rows)[run].(state := Failed)]
      ensures queue == old(queue)
    {
      hide StopAfter;
      var row := GetStatus(run);
      if row.None? {
        return Absent;
      }
      if !Active(row.value) {
        return AlreadyTerminal;
      }
      killed := killed + {run};
      if row.value.state == Running {
        return Stopping;
      }
      statuses := statuses[run := Failed];
      Persist(run, Failed);
      return Dequeued;
    }

    /** What follows a claim: the flag is cleared, PENDING saved and the run queued. */
    method QueueClaimed(c: Config, run: string, now: int, ghost before: Rows)
      requires ValidConfig(c) && store.rows == Claim(before, run, owner, c.lease, now)
      modifies this, store
      ensures store.rows == old(store.rows) && queue == old(queue) + [run] && killed == old(killed) - {run}
      ensures statuses == old(statuses)[run := Pending]
    {
      hide Claim, SaveState;
      killed := killed - {run};
      statuses := statuses[run := Pending];
      Persist(run, Pending);
      SavedAfterClaim(before, run, owner, c.lease, now);
      queue := queue + [run];
    }

    method Enqueue(c: Config, run: string, force: bool, now: int, ghost w: World)
      returns (accepted: bool, ghost es: seq<Event>)
      requires ValidConfig(c) && Shows(w) && w.now == now
      modifies this, store
      ensures Runs(c, w, es) && Shows(After(c, w, es)) && After(c, w, es).now == now
      ensures accepted <==> Claimable(old(store.rows), run, force, now)
      ensures accepted ==>
                && store.rows == Claim(old(store.rows), run, owner, c.lease, now)
                && queue == old(queue) + [run] && killed == old(killed) - {run}
      ensures !accepted ==> store.rows == old(store.rows) && queue == old(queue) && killed == old(killed)
    {
      hide StopAfter, Runs, After, Claim, Claimable, SaveState, Lapsed, Active;
      es := EnqueueIsRun(c, w, owner, run, force);
      if run !in statuses {
        var _ := GetStatus(run);
      }
      var claimed := store.TryClaim(run, owner, c.lease, force, now);
      if claimed.None? {
        var _ := GetStatus(run);
        return false, es;
      }
      QueueClaimed(c, run, now, old(store.rows));
      accepted := true;
    }

    /** Remember and save a state of a run this service holds. */
    method RecordOwn(run: string, state: JobState, ghost before: Rows)
      requires HeldOnly(before, store.rows, run, owner)
      modifies this`statuses, store
      ensures HeldOnly(before, store.rows, run, owner) && store.rows[run].state == state
      ensures statuses == old(statuses)[run := state]
    {
      hide SaveState, HeldOnly;
      statuses := statuses[run := state];
      HeldSave(before, store.rows, run, owner, state);
      Persist(run, state);
    }

    /** `_run_claimed_job` and `_index_run`, the indexing itself reduced to whether it succeeds. */
    method RunClaimedJob(c: Config, run: string, ok: bool, now: int) returns (executed: bool)
      requires ValidConfig(c) && run !in killed
      modifies this`statuses, store
      ensures executed <==> Executable(old(store.rows), run, owner, now)
      ensures !executed ==> store.rows == old(store.rows) && statuses == old(statuses)
      ensures executed ==>
                && HeldOnly(old(store.rows), store.rows, run, owner)
                && store.rows[run].state == (if ok then Complete else Failed)
                && statuses == old(statuses)[run := if ok then Complete else Failed]
    {
      hide SaveState, Reacquire, Reacquirable, Lapsed, HeldOnly;
      ghost var before := store.rows;
      var row := store.GetRow(run);
      var owned := row.Some? && row.value.owner == Some(owner) && Active(row.value) && !Lapsed(row.value, now);
      if !owned {
        var taken := store.TryReacquire(run, owner, c.lease, now);
        if !taken {
          NotReacquired(before, run, owner, c.lease, now);
          return false;
        }
      }
      HeldOnEntry(before, run, owner, c.lease, now);
      assert HeldOnly(before, store.rows, run, owner);
      RecordOwn(run, Running, before);
      RecordOwn(run, if ok then Complete else Failed, before);
      executed := true;
    }

    /** One pass of the worker loop. */
    method WorkerTurn(c: Config, ok: bool, now: int, ghost w: World) returns (ghost es: seq<Event>)
      requires ValidConfig(c) && Shows(w) && w.now == now && queue != []
      modifies this, store
      ensures Runs(c, w, es) && Shows(After(c, w, es)) && After(c, w, es).now == now
      ensures queue == old(queue)[1..] && killed == old(killed) - {old(queue)[0]}
      ensures var run := old(queue)[0];
              store.rows == TurnRows(old(store.rows), run, owner, run in old(killed), ok, now)
    {
      hide StopAfter, Runs, After, Executable;
      es := TurnIsRun(c, w, owner, ok);
      var run := queue[0];
      queue := queue[1..];
      if run in killed {
        killed := killed - {run};
      } else {
        ghost var before := store.rows;
        var executed := RunClaimedJob(c, run, ok, now);
        if executed {
          ExecutedRows(before, store.rows, run, owner, ok, now);
        }
      }
      killed := killed - {run};
      store.ReleaseLease(run, owner, now);
    }

    /**
     The worker loop, left alone until its queue is empty: it works the queue off first to last, and
     every job it was allowed to execute is then over.
     */
    method Drain(c: Config, succeeds: string -> bool, now: int, ghost w: World) returns (ghost es: seq<Event>)
      requires ValidConfig(c) && Shows(w) && w.now == now
      modifies this, store
      ensures Runs(c, w, es) && Shows(After(c, w, es))
      ensures queue == [] && store.rows.Keys == old(store.rows).Keys
      ensures forall run | run in old(queue) && run !in old(killed) && Executable(old(store.rows), run, owner, now) ::
                Done(store.rows, run, succeeds(run))
      ensures forall run | run in old(store.rows) && run !in old(queue) :: store.rows[run] == old(store.rows)[run]
    {
      hide StopAfter, Runs, After, Executable, TurnRows, Done;
      NothingYet(c, w);
      es := [];
      ghost var i := 0;
      while queue != []
        invariant 0 <= i <= |old(queue)| && queue == old(queue)[i..]
        invariant Runs(c, w, es) && Shows(After(c, w, es)) && After(c, w, es).now == now
        invariant store.rows.Keys == old(store.rows).Keys
        invariant forall run | run in old(store.rows) && run !in old(queue)[..i] ::
                    store.rows[run] == old(store.rows)[run] && (run in killed <==> run in old(killed))
        invariant forall run | run in old(queue)[..i] && run !in old(killed)
                 && Executable(old(store.rows), run, owner, now) ::
                    Done(store.rows, run, succeeds(run))
        decreases |queue|
      {
        ghost var rows, run, flagged := store.rows, queue[0], queue[0] in killed;
        ghost var step := WorkerTurn(c, succeeds(queue[0]), now, After(c, w, es));
        TurnLeavesOthers(rows, run, owner, flagged, succeeds(run), now);
        assert old(queue)[..i + 1] == old(queue)[..i] + [run];
        if run !in old(queue)[..i] {
          ExecutableIsLocal(old(store.rows), rows, run, owner, now);
        }
        forall r | Done(rows, r, succeeds(r)) ensures Done(store.rows, r, succeeds(r)) {
          DoneStays(rows, r, succeeds(r), run, owner, flagged, succeeds(run), now);
        }
        RunsAppend(c, w, es, step);
        es := es + step;
        i := i + 1;
      }
    }
  }
}
