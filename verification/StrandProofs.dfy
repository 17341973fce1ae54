/**
 Which jobs are left behind. With one process and no fault, a job in progress that nobody holds any more
 stays so until somebody posts it again. The states from which that can come about are described exactly,
 and with them the kills that bring it about.
 */
module StrandProofs {
  import opened Wrappers
  import opened StatusStore
  import opened IndexProtocol
  import opened LeaseBoundary
  import opened JobProofs

  /** Being enqueued, queued, or in the worker's hands. */
  predicate Accompanied(p: Proc, run: string) {
    || p.enq == Claimed(run) || p.enq == Saved(run)
    || run in p.queue
    || ((p.work.Held? || p.work.Unowned? || Executing(p.work)) && p.work.run == run)
  }

  predicate Stranded(w: World, pid: nat, run: string) {
    pid in w.procs && ActiveIn(w.rows, run) && !Accompanied(w.procs[pid], run)
  }

  /** No crash, no failing renewal, and no renewal reported lost while the row is in progress. */
  predicate Faultless(c: Config, w: World, e: Event)
    requires ValidConfig(c)
  {
    match e
    case Crash(_) => false
    case BeatError(_) => false
    case Beat(pid) =>
      pid in w.procs && Executing(w.procs[pid].work) ==>
        var run := w.procs[pid].work.run;
        ActiveIn(w.rows, run) ==> Renewed(w.rows, run, pid, c.lease, w.now)
    case _ => true
  }

  predicate Sole(w: World, pid: nat) {
    w.procs.Keys == {pid} && w.procs[pid].alive
  }

  /** What every fault-free run keeps, whatever kills it sees. */
  predicate Kept(w: World, pid: nat, run: string)
    requires pid in w.procs
  {
    var p, rows := w.procs[pid], w.rows;
    && (run in rows ==> rows[run].owner == Some(pid) || (rows[run].owner == None && Lapsed(rows[run], w.now)))
    && (Executing(p.work) && p.work.run == run ==> OwnedIn(rows, run, pid))
  }

  /** Queue entries of the run, one on its way into the queue included. */
  function Entries(p: Proc, run: string): nat {
    multiset(p.queue)[run] + if p.enq == Saved(run) then 1 else 0
  }

  /** Dequeued and not yet indexing. */
  predicate InHands(work: Work, run: string) {
    (work.Held? || work.Unowned? || work.Entered?) && work.run == run
  }

  /**
   The job can be left behind by what is under way already. A claim whose answer is still to come will
   clear the flag and queue the run; otherwise the flag takes one execution or queue entry with it, and
   nothing must be left of the job but that.
   */
  predicate Endangered(w: World, pid: nat, run: string)
    requires pid in w.procs
  {
    var p := w.procs[pid];
    p.enq != Claimed(run) &&
    if AtWork(p, run) then
      run in p.killed && Entries(p, run) == 0 && (!RecordsKill(p, run) || !ActiveIn(w.rows, run))
    else if InHands(p.work, run) then
      ActiveIn(w.rows, run) && run in p.killed && Entries(p, run) == 0 && !RecordsKill(p, run)
    else
      && ActiveIn(w.rows, run)
      && (Entries(p, run) == 0 || (Entries(p, run) == 1 && run in p.killed && p.work != Closing(run)))
  }

  /** What a kill of a job that is not endangered does: the row's state and owner and the entries decide. */
  predicate KillEndangers(w: World, pid: nat, run: string)
    requires pid in w.procs
  {
    var p := w.procs[pid];
    ActiveIn(w.rows, run) && p.enq != Claimed(run) &&
    var pending, owned := w.rows[run].state == Pending, w.rows[run].owner == Some(pid);
    if AtWork(p, run) then pending && Entries(p, run) == 0
    else if InHands(p.work, run) then pending && !owned && Entries(p, run) == 0
    else (!pending || !owned) && Entries(p, run) <= 1 && p.work != Closing(run)
  }

  // ---- What every step keeps ----

  lemma OutsideKept(c: Config, w: World, e: Event, pid: nat, run: string)
    requires ValidConfig(c) && Enabled(c, w, e) && Outside(e) && !e.Crash? && Sole(w, pid) && Kept(w, pid, run)
    ensures Kept(Apply(c, w, e), pid, run)
  {
    hide StopAfter, FailureLimit, Terminal, RecordsKill;
  }

  lemma EntryKept(c: Config, w: World, e: Event, pid: nat, run: string)
    requires ValidConfig(c) && Enabled(c, w, e) && (e.Take? || e.CheckOwned? || e.TryAgain? || e.Start?)
    requires Sole(w, pid) && Kept(w, pid, run)
    ensures Kept(Apply(c, w, e), pid, run)
  {
    hide StopAfter, FailureLimit, Terminal, RecordsKill;
  }

  lemma WorkerKept(c: Config, w: World, e: Event, pid: nat, run: string)
    requires ValidConfig(c) && Enabled(c, w, e) && !e.Tick? && !Outside(e)
    requires !e.Take? && !e.CheckOwned? && !e.TryAgain? && !e.Start?
    requires Sole(w, pid) && Kept(w, pid, run)
    ensures Kept(Apply(c, w, e), pid, run)
  {
    hide StopAfter, FailureLimit, Terminal, RecordsKill;
  }

  lemma StepKept(c: Config, w: World, e: Event, pid: nat, run: string)
    requires ValidConfig(c) && Enabled(c, w, e) && !e.Crash? && Sole(w, pid) && Kept(w, pid, run)
    ensures Sole(Apply(c, w, e), pid) && Kept(Apply(c, w, e), pid, run)
  {
    if e.Tick? {
      hide Enabled;
    } else {
      assert e.pid == pid by { ItsProcess(c, w, e); }
      StaysSole(c, w, e, pid);
      hide Kept, Apply, Enabled;
      if Outside(e) {
        OutsideKept(c, w, e, pid, run);
      } else if e.Take? || e.CheckOwned? || e.TryAgain? || e.Start? {
        EntryKept(c, w, e, pid, run);
      } else {
        WorkerKept(c, w, e, pid, run);
      }
    }
  }

  lemma StaysSole(c: Config, w: World, e: Event, pid: nat)
    requires ValidConfig(c) && Enabled(c, w, e) && !e.Crash? && Sole(w, pid)
    ensures Sole(Apply(c, w, e), pid)
  {
    hide StopAfter, FailureLimit, Save, SaveState, KilledRows, Claim, Release, Reacquire, Heartbeat;
  }

  predicate KillOf(e: Event, run: string) {
    e.Kill? && e.run == run
  }

  lemma EnqueueNoDanger(c: Config, w: World, e: Event, pid: nat, run: string)
    requires ValidConfig(c) && Enabled(c, w, e) && (e.EnqClaim? || e.EnqSave? || e.EnqPut?)
    requires Sole(w, pid) && Kept(w, pid, run) && !Endangered(w, pid, run)
    ensures !Endangered(Apply(c, w, e), pid, run)
  {
    hide StopAfter, FailureLimit, Lapsed;
    var p := w.procs[pid];
    if e.EnqPut? {
      PutCounts(p.queue, p.enq.run, run);
    }
  }

  lemma TakeNoDanger(c: Config, w: World, pid: nat, run: string)
    requires ValidConfig(c) && Enabled(c, w, Take(pid)) && Sole(w, pid) && !Endangered(w, pid, run)
    ensures !Endangered(Apply(c, w, Take(pid)), pid, run)
  {
    hide StopAfter, FailureLimit;
    HeadCounts(w.procs[pid].queue, run);
  }

  lemma EntryNoDanger(c: Config, w: World, e: Event, pid: nat, run: string)
    requires ValidConfig(c) && Enabled(c, w, e) && (e.CheckOwned? || e.TryAgain?)
    requires Sole(w, pid) && Kept(w, pid, run) && !Endangered(w, pid, run)
    ensures !Endangered(Apply(c, w, e), pid, run)
  {
    hide StopAfter, FailureLimit;
  }

  lemma StartNoDanger(c: Config, w: World, pid: nat, run: string)
    requires ValidConfig(c) && Enabled(c, w, Start(pid)) && Sole(w, pid) && Kept(w, pid, run)
    requires !Endangered(w, pid, run)
    ensures !Endangered(Apply(c, w, Start(pid)), pid, run)
  {
    hide StopAfter, FailureLimit, Lapsed;
  }

  lemma StopNoDanger(c: Config, w: World, pid: nat, run: string)
    requires ValidConfig(c) && Enabled(c, w, KillStop(pid))
    requires Sole(w, pid) && Kept(w, pid, run) && !Endangered(w, pid, run)
    ensures !Endangered(Apply(c, w, KillStop(pid)), pid, run)
  {
    hide StopAfter, FailureLimit, Lapsed;
  }

  lemma EndNoDanger(c: Config, w: World, e: Event, pid: nat, run: string)
    requires ValidConfig(c) && Enabled(c, w, e) && (e.Finish? || e.Flush? || e.Embed?)
    requires Sole(w, pid) && Kept(w, pid, run) && !Endangered(w, pid, run)
    ensures !Endangered(Apply(c, w, e), pid, run)
  {
    hide StopAfter, FailureLimit, Lapsed;
  }

  lemma BeatNoDanger(c: Config, w: World, pid: nat, run: string)
    requires ValidConfig(c) && Enabled(c, w, Beat(pid)) && Faultless(c, w, Beat(pid))
    requires Sole(w, pid) && Kept(w, pid, run) && !Endangered(w, pid, run)
    ensures !Endangered(Apply(c, w, Beat(pid)), pid, run)
  {
    hide StopAfter, FailureLimit;
  }

  lemma CloseNoDanger(c: Config, w: World, e: Event, pid: nat, run: string)
    requires ValidConfig(c) && Enabled(c, w, e) && (e.ClosePop? || e.LetGo?)
    requires Sole(w, pid) && !Endangered(w, pid, run)
    ensures !Endangered(Apply(c, w, e), pid, run)
  {
    hide StopAfter, FailureLimit;
  }

  /** What a kill does. */
  lemma KillStep(c: Config, w: World, pid: nat, run: string)
    requires ValidConfig(c) && pid in w.procs && w.procs[pid].alive
    ensures Enabled(c, w, Kill(pid, run))
    ensures var v, p := Apply(c, w, Kill(pid, run)), w.procs[pid];
            && pid in v.procs && v.now == w.now
            && var q := v.procs[pid];
               && q.work == p.work && q.queue == p.queue && q.enq == p.enq
               && q.killed == (if ActiveIn(w.rows, run) then p.killed + {run} else p.killed)
               && q.statuses == (if run !in w.rows then p.statuses
                                 else p.statuses[run := if w.rows[run].state == Pending then Failed
                                                        else w.rows[run].state])
               && v.rows == if ActiveIn(w.rows, run) && w.rows[run].state == Pending && OwnedIn(w.rows, run, pid)
                            then w.rows[run := w.rows[run].(state := Failed)] else w.rows
  {
    hide StopAfter, FailureLimit, Lapsed;
  }

  lemma OtherKillNoDanger(c: Config, w: World, e: Event, pid: nat, run: string)
    requires ValidConfig(c) && Enabled(c, w, e) && e.Kill? && e.run != run
    requires Sole(w, pid) && !Endangered(w, pid, run)
    ensures !Endangered(Apply(c, w, e), pid, run)
  {
    hide StopAfter, FailureLimit, Lapsed, Enabled, Apply;
    assert e == Kill(pid, e.run) by { ItsProcess(c, w, e); }
    KillStep(c, w, pid, e.run);
  }

  lemma RefreshNoDanger(c: Config, w: World, e: Event, pid: nat, run: string)
    requires ValidConfig(c) && Enabled(c, w, e) && e.Refresh?
    requires Sole(w, pid) && !Endangered(w, pid, run)
    ensures !Endangered(Apply(c, w, e), pid, run)
  {
    hide StopAfter, FailureLimit, Lapsed;
  }

  /** Nothing but a kill of the run puts it in danger. */
  lemma StepNoDanger(c: Config, w: World, e: Event, pid: nat, run: string)
    requires ValidConfig(c) && Enabled(c, w, e) && Faultless(c, w, e) && !KillOf(e, run)
    requires Sole(w, pid) && Kept(w, pid, run) && !Endangered(w, pid, run)
    ensures Sole(Apply(c, w, e), pid) && !Endangered(Apply(c, w, e), pid, run)
  {
    if e.Tick? {
      hide Enabled;
    } else {
      assert e.pid == pid by { ItsProcess(c, w, e); }
      StepKept(c, w, e, pid, run);
      hide Kept, Endangered, Apply, Enabled;
      if e.Take? {
        TakeNoDanger(c, w, pid, run);
      } else if e.EnqClaim? || e.EnqSave? || e.EnqPut? {
        EnqueueNoDanger(c, w, e, pid, run);
      } else if e.Kill? {
        OtherKillNoDanger(c, w, e, pid, run);
      } else if e.Refresh? {
        RefreshNoDanger(c, w, e, pid, run);
      } else if e.CheckOwned? || e.TryAgain? {
        EntryNoDanger(c, w, e, pid, run);
      } else if e.Start? {
        StartNoDanger(c, w, pid, run);
      } else if e.Beat? {
        BeatNoDanger(c, w, pid, run);
      } else if e.ClosePop? || e.LetGo? {
        CloseNoDanger(c, w, e, pid, run);
      } else if e.KillStop? {
        StopNoDanger(c, w, pid, run);
      } else {
        EndNoDanger(c, w, e, pid, run);
      }
    }
  }

  /** Whether a kill endangers the job is there to be read off before it. */
  lemma KillEndangersIs(c: Config, w: World, pid: nat, run: string)
    requires ValidConfig(c) && Sole(w, pid) && Kept(w, pid, run) && !Endangered(w, pid, run)
    ensures Enabled(c, w, Kill(pid, run))
    ensures pid in Apply(c, w, Kill(pid, run)).procs
    ensures Endangered(Apply(c, w, Kill(pid, run)), pid, run) <==> KillEndangers(w, pid, run)
  {
    hide StopAfter, FailureLimit, Lapsed, Enabled, Apply;
    KillStep(c, w, pid, run);
  }

  // ---- No job is left behind ----

  /** No fault, and no kill of the run. */
  predicate Spared(c: Config, w: World, es: seq<Event>, run: string)
    requires ValidConfig(c) && Runs(c, w, es)
    decreases |es|
  {
    es == [] || (Faultless(c, w, es[0]) && !KillOf(es[0], run) && Spared(c, Apply(c, w, es[0]), es[1..], run))
  }

  /** No fault, and every kill of the run comes when it endangers nothing. */
  predicate Harmless(c: Config, w: World, es: seq<Event>, pid: nat, run: string)
    requires ValidConfig(c) && Runs(c, w, es)
    decreases |es|
  {
    es == [] ||
    (Faultless(c, w, es[0])
     && (KillOf(es[0], run) && pid in w.procs ==> !KillEndangers(w, pid, run))
     && Harmless(c, Apply(c, w, es[0]), es[1..], pid, run))
  }

  lemma {:induction false} HarmlessNoDanger(c: Config, w: World, es: seq<Event>, pid: nat, run: string)
    requires ValidConfig(c) && Runs(c, w, es) && Harmless(c, w, es, pid, run)
    requires Sole(w, pid) && Kept(w, pid, run) && !Endangered(w, pid, run)
    ensures var v := After(c, w, es); Sole(v, pid) && Kept(v, pid, run) && !Endangered(v, pid, run)
    decreases |es|
  {
    hide Kept, Endangered, KillEndangers, Apply, Enabled;
    if es != [] {
      var e := es[0];
      StepKept(c, w, e, pid, run);
      if KillOf(e, run) {
        assert e == Kill(pid, run) by { ItsProcess(c, w, e); }
        KillEndangersIs(c, w, pid, run);
      } else {
        StepNoDanger(c, w, e, pid, run);
      }
      HarmlessNoDanger(c, Apply(c, w, e), es[1..], pid, run);
    }
  }

  lemma {:induction false} SparedIsHarmless(c: Config, w: World, es: seq<Event>, pid: nat, run: string)
    requires ValidConfig(c) && Runs(c, w, es) && Spared(c, w, es, run)
    ensures Harmless(c, w, es, pid, run)
    decreases |es|
  {
    hide Apply, Enabled, KillEndangers;
    if es != [] {
      SparedIsHarmless(c, Apply(c, w, es[0]), es[1..], pid, run);
    }
  }

  lemma NothingEndangered(start: World, pid: nat, run: string)
    requires Initial(start) && start.procs.Keys == {pid}
    ensures Sole(start, pid) && Kept(start, pid, run) && !Endangered(start, pid, run)
  {
  }

  lemma StrandedIsEndangered(w: World, pid: nat, run: string)
    requires pid in w.procs
    ensures Stranded(w, pid, run) ==> Endangered(w, pid, run)
  {
    hide RecordsKill;
  }

  /**
   With one process, no fault, and kills that endanger nothing, every row in progress is being enqueued,
   queued or in the worker's hands - and will not be left behind by anything but a further kill.
   */
  lemma NoStrandedJob(c: Config, start: World, es: seq<Event>, pid: nat, run: string)
    requires ValidConfig(c) && Initial(start) && start.procs.Keys == {pid}
    requires Runs(c, start, es) && Harmless(c, start, es, pid, run)
    ensures var v := After(c, start, es);
            && Sole(v, pid) && !Endangered(v, pid, run)
            && (ActiveIn(v.rows, run) ==> Accompanied(v.procs[pid], run))
  {
    hide Kept, Endangered, Harmless, Initial;
    NothingEndangered(start, pid, run);
    HarmlessNoDanger(c, start, es, pid, run);
    StrandedIsEndangered(After(c, start, es), pid, run);
  }

  // ---- ... and exactly when one is ----

  /** Some way on without a fault or another kill leaves the job behind. */
  ghost predicate CanStrand(c: Config, w: World, pid: nat, run: string)
    requires ValidConfig(c)
  {
    exists es :: Runs(c, w, es) && Spared(c, w, es, run) && Stranded(After(c, w, es), pid, run)
  }

  lemma {:induction false} MildIsSpared(c: Config, w: World, es: seq<Event>, run: string)
    requires ValidConfig(c) && Runs(c, w, es) && KillFree(es) && FaultFree(es)
    ensures Spared(c, w, es, run)
    decreases |es|
  {
    hide Apply, Enabled;
    if es != [] {
      assert NoFault(es[0]) && !es[0].Kill?;
      assert forall i | 0 <= i < |es[1..]| :: es[1..][i] == es[i + 1];
      MildIsSpared(c, Apply(c, w, es[0]), es[1..], run);
    }
  }

  /** Flagged, with one entry left in the queue, and the worker busy with something else. */
  predicate Doubtful(w: World, pid: nat, run: string) {
    && pid in w.procs && w.procs[pid].alive
    && ActiveIn(w.rows, run) && run in w.procs[pid].killed && multiset(w.procs[pid].queue)[run] == 1
    && w.procs[pid].enq != Claimed(run) && w.procs[pid].enq != Saved(run)
    && (w.procs[pid].work == Idle || w.procs[pid].work.Releasing? || w.procs[pid].work.run != run)
  }

  /** The next move brings the worker nearer to its next queue entry. */
  predicate Nearer(c: Config, w: World, pid: nat, run: string)
    requires ValidConfig(c) && Doubtful(w, pid, run) && w.procs[pid].work != Idle
  {
    var e := NextMove(pid, w.procs[pid].work);
    && Enabled(c, w, e) && NoFault(e) && !e.Kill? && Doubtful(Apply(c, w, e), pid, run)
    && Apply(c, w, e).procs[pid].queue == w.procs[pid].queue
    && Rank(Apply(c, w, e).procs[pid].work) < Rank(w.procs[pid].work)
  }

  lemma MoveOn(c: Config, w: World, pid: nat, run: string)
    requires ValidConfig(c) && Doubtful(w, pid, run) && w.procs[pid].work != Idle
    ensures Nearer(c, w, pid, run)
  {
    var work := w.procs[pid].work;
    hide Nearer, Doubtful;
    if work.Held? || work.Unowned? {
      MoveEntry(c, w, pid, run);
    } else if work.Entered? {
      MoveStart(c, w, pid, run);
    } else if work.Indexing? {
      MoveFinish(c, w, pid, run);
    } else {
      MoveClose(c, w, pid, run);
    }
  }

  lemma MoveEntry(c: Config, w: World, pid: nat, run: string)
    requires ValidConfig(c) && Doubtful(w, pid, run) && (w.procs[pid].work.Held? || w.procs[pid].work.Unowned?)
    ensures Nearer(c, w, pid, run)
  {
    hide StopAfter, FailureLimit, Lapsed, RecordsKill;
  }

  lemma MoveStart(c: Config, w: World, pid: nat, run: string)
    requires ValidConfig(c) && Doubtful(w, pid, run) && w.procs[pid].work.Entered?
    ensures Nearer(c, w, pid, run)
  {
    hide StopAfter, FailureLimit, Lapsed, RecordsKill;
  }

  lemma MoveFinish(c: Config, w: World, pid: nat, run: string)
    requires ValidConfig(c) && Doubtful(w, pid, run) && w.procs[pid].work.Indexing?
    ensures Nearer(c, w, pid, run)
  {
    hide StopAfter, FailureLimit, Lapsed, RecordsKill;
  }

  lemma MoveClose(c: Config, w: World, pid: nat, run: string)
    requires ValidConfig(c) && Doubtful(w, pid, run) && (w.procs[pid].work.Closing? || w.procs[pid].work.Releasing?)
    ensures Nearer(c, w, pid, run)
  {
    hide StopAfter, FailureLimit, Lapsed, RecordsKill;
  }

  lemma TakeAnother(c: Config, w: World, pid: nat, run: string)
    requires ValidConfig(c) && Doubtful(w, pid, run) && w.procs[pid].work == Idle
    ensures Enabled(c, w, Take(pid))
    ensures var v := Apply(c, w, Take(pid));
            && pid in v.procs && |v.procs[pid].queue| < |w.procs[pid].queue|
            && (if w.procs[pid].queue[0] == run then Stranded(v, pid, run) else Doubtful(v, pid, run))
  {
    hide StopAfter;
    var queue := w.procs[pid].queue;
    if queue != [] {
      HeadCounts(queue, run);
    }
    assert run in queue[1..] <==> multiset(queue[1..])[run] > 0;
  }

  /** The worker works its way to the flagged entry, wherever it is, and drops it. */
  lemma {:induction false} ReachAndDrop(c: Config, w: World, es: seq<Event>, pid: nat, run: string)
    returns (more: seq<Event>)
    requires ValidConfig(c) && Runs(c, w, es) && KillFree(es) && FaultFree(es)
    requires Doubtful(After(c, w, es), pid, run)
    ensures Runs(c, w, more) && KillFree(more) && FaultFree(more) && Stranded(After(c, w, more), pid, run)
    decreases |After(c, w, es).procs[pid].queue|, Rank(After(c, w, es).procs[pid].work)
  {
    hide Runs, After, Apply, Enabled, KillFree, FaultFree, Stranded, ActiveIn;
    var v := After(c, w, es);
    if v.procs[pid].work == Idle {
      TakeAnother(c, v, pid, run);
      more := OneMore(c, w, es, Take(pid));
      if v.procs[pid].queue[0] != run {
        more := ReachAndDrop(c, w, more, pid, run);
      }
    } else {
      MoveOn(c, v, pid, run);
      more := OneMore(c, w, es, NextMove(pid, v.procs[pid].work));
      more := ReachAndDrop(c, w, more, pid, run);
    }
  }

  /** An indexing worker sees the flag after a mid-run save, with a status that is over already. */
  lemma StopUnrecorded(c: Config, w: World, pid: nat, run: string) returns (es: seq<Event>)
    requires ValidConfig(c) && Sole(w, pid) && Kept(w, pid, run) && Endangered(w, pid, run) && AtWork(w.procs[pid], run)
    ensures Runs(c, w, es) && KillFree(es) && FaultFree(es) && Stranded(After(c, w, es), pid, run)
  {
    hide StopAfter, FailureLimit, Runs, After, KillFree, FaultFree;
    NothingYet(c, w);
    es := [];
    if RecordsKill(w.procs[pid], run) {
      es := OneMore(c, w, es, Refresh(pid, run));
    }
    es := OneMore(c, w, es, Flush(pid));
    es := OneMore(c, w, es, KillStop(pid));
  }

  /** A worker about to begin sees the flag, with a status that is over already. */
  lemma {:induction false} BeginFlagged(c: Config, w: World, es: seq<Event>, pid: nat, run: string)
    returns (more: seq<Event>)
    requires ValidConfig(c) && Runs(c, w, es) && KillFree(es) && FaultFree(es)
    requires var v := After(c, w, es);
             Sole(v, pid) && Kept(v, pid, run) && Endangered(v, pid, run) && InHands(v.procs[pid].work, run)
    ensures Runs(c, w, more) && KillFree(more) && FaultFree(more) && Stranded(After(c, w, more), pid, run)
    decreases Rank(After(c, w, es).procs[pid].work)
  {
    hide StopAfter, FailureLimit, Runs, After, KillFree, FaultFree, Apply, Enabled;
    var v := After(c, w, es);
    EntryFlagged(c, v, pid, run);
    more := OneMore(c, w, es, NextMove(pid, v.procs[pid].work));
    if !v.procs[pid].work.Entered? {
      more := BeginFlagged(c, w, more, pid, run);
    }
  }

  lemma EntryFlagged(c: Config, w: World, pid: nat, run: string)
    requires ValidConfig(c) && Sole(w, pid) && Kept(w, pid, run) && Endangered(w, pid, run)
    requires InHands(w.procs[pid].work, run)
    ensures var e := NextMove(pid, w.procs[pid].work);
            && Enabled(c, w, e) && NoFault(e) && !e.Kill?
            && var v := Apply(c, w, e);
               && Sole(v, pid) && Kept(v, pid, run)
               && (if w.procs[pid].work.Entered? then Stranded(v, pid, run)
                   else Endangered(v, pid, run) && InHands(v.procs[pid].work, run)
                        && Rank(v.procs[pid].work) < Rank(w.procs[pid].work))
  {
    hide StopAfter, FailureLimit;
  }

  lemma EndangeredStrands(c: Config, w: World, pid: nat, run: string) returns (es: seq<Event>)
    requires ValidConfig(c) && Sole(w, pid) && Kept(w, pid, run) && Endangered(w, pid, run)
    ensures Runs(c, w, es) && KillFree(es) && FaultFree(es) && Stranded(After(c, w, es), pid, run)
  {
    hide StopAfter, FailureLimit, Runs, After, KillFree, FaultFree, Kept;
    NothingYet(c, w);
    var p := w.procs[pid];
    if AtWork(p, run) {
      es := StopUnrecorded(c, w, pid, run);
    } else if InHands(p.work, run) {
      es := BeginFlagged(c, w, [], pid, run);
    } else if Entries(p, run) == 0 {
      es := [];
    } else if p.enq == Saved(run) {
      PutCounts(p.queue, run, run);
      es := OneMore(c, w, [], EnqPut(pid));
      es := ReachAndDrop(c, w, es, pid, run);
    } else {
      es := ReachAndDrop(c, w, [], pid, run);
    }
  }

  /** A job can be left behind exactly when it is endangered. */
  lemma StrandsIffEndangered(c: Config, w: World, pid: nat, run: string)
    requires ValidConfig(c) && Sole(w, pid) && Kept(w, pid, run)
    ensures CanStrand(c, w, pid, run) <==> Endangered(w, pid, run)
  {
    hide Kept, Endangered, Runs, After, Stranded, Spared;
    if Endangered(w, pid, run) {
      var es := EndangeredStrands(c, w, pid, run);
      MildIsSpared(c, w, es, run);
    } else {
      forall es | Runs(c, w, es) && Spared(c, w, es, run) ensures !Stranded(After(c, w, es), pid, run) {
        SparedIsHarmless(c, w, es, pid, run);
        HarmlessNoDanger(c, w, es, pid, run);
        StrandedIsEndangered(After(c, w, es), pid, run);
      }
    }
  }

  /**
   A kill can leave the job behind exactly when `KillEndangers` says so before it: wherever in the queue the
   job is, whatever the worker is doing, and whatever happens afterwards short of another kill.
   */
  lemma KillStrandsIff(c: Config, start: World, es: seq<Event>, pid: nat, run: string)
    requires ValidConfig(c) && Initial(start) && start.procs.Keys == {pid}
    requires Runs(c, start, es) && Harmless(c, start, es, pid, run)
    ensures var w := After(c, start, es);
            && pid in w.procs && Enabled(c, w, Kill(pid, run))
            && (CanStrand(c, Apply(c, w, Kill(pid, run)), pid, run) <==> KillEndangers(w, pid, run))
  {
    hide Kept, Endangered, Harmless, Initial, KillEndangers, CanStrand;
    NothingEndangered(start, pid, run);
    HarmlessNoDanger(c, start, es, pid, run);
    var w := After(c, start, es);
    KillEndangersIs(c, w, pid, run);
    StepKept(c, w, Kill(pid, run), pid, run);
    StrandsIffEndangered(c, Apply(c, w, Kill(pid, run)), pid, run);
  }

  // ---- How such kills come about ----

  lemma FinishStep(c: Config, w: World, pid: nat, run: string)
    requires ValidConfig(c) && IndexingRun(w, pid, run) && OwnedIn(w.rows, run, pid)
    ensures Enabled(c, w, Finish(pid, true))
    ensures Apply(c, w, Finish(pid, true))
         == World(w.now, w.rows[run := w.rows[run].(state := Complete)],
                  w.procs[pid := w.procs[pid].(work := Closing(run),
                                               statuses := w.procs[pid].statuses[run := Complete])])
  {
  }

  lemma ClosePopStep(c: Config, w: World, pid: nat)
    requires ValidConfig(c) && pid in w.procs && w.procs[pid].alive && w.procs[pid].work.Closing?
    ensures Enabled(c, w, ClosePop(pid))
    ensures var p := w.procs[pid];
            Apply(c, w, ClosePop(pid)) ==
              w.(procs := w.procs[pid := p.(killed := p.killed - {p.work.run}, work := Releasing(p.work.run))])
  {
  }

  lemma LetGoStep(c: Config, w: World, pid: nat)
    requires ValidConfig(c) && pid in w.procs && w.procs[pid].alive && w.procs[pid].work.Releasing?
    requires OwnedIn(w.rows, w.procs[pid].work.run, pid)
    ensures Enabled(c, w, LetGo(pid))
    ensures var run := w.procs[pid].work.run;
            Apply(c, w, LetGo(pid)) ==
              World(w.now, w.rows[run := w.rows[run].(owner := None, until := Some(w.now))],
                    w.procs[pid := w.procs[pid].(work := Idle)])
  {
  }

  /** A run is posted again after its COMPLETE save, before its worker has come to the release. */
  lemma PostedAgain(c: Config, pid: nat, run: string) returns (es: seq<Event>)
    requires ValidConfig(c)
    ensures var start := World(0, map[], map[pid := NewProc()]);
            && Runs(c, start, es) && FaultFree(es)
            && var v := After(c, start, es);
               && pid in v.procs && v.procs[pid].alive && v.procs[pid].work == Closing(run)
               && v.procs[pid].enq == NoEnq && v.procs[pid].queue == [run]
               && OwnedIn(v.rows, run, pid) && v.rows[run].state == Pending
  {
    hide StopAfter, FailureLimit, Runs, After, Apply, Enabled, FaultFree, KillFree;
    var start := World(0, map[], map[pid := NewProc()]);
    NothingYet(c, start);
    var a := Enqueue(c, start, [], pid, run);
    var b := Begin(c, start, a, pid, run);
    FinishStep(c, After(c, start, b), pid, run);
    var d := OneMore(c, start, b, Finish(pid, true));
    es := Enqueue(c, start, d, pid, run);
  }

  /**
   With one process and no fault at all: a run is re-posted after its COMPLETE save but before its worker's
   release, the release takes the lease of the new claim away, and the job is then killed in the queue.
   */
  lemma RepostThenKillStrands(c: Config, pid: nat, run: string) returns (es: seq<Event>)
    requires ValidConfig(c)
    ensures var start := World(0, map[], map[pid := NewProc()]);
            && Initial(start) && Runs(c, start, es) && FaultFree(es)
            && var v := After(c, start, es);
               && Stranded(v, pid, run) && v.rows[run].state == Pending
               && v.procs[pid].queue == [] && v.procs[pid].work == Idle && v.procs[pid].enq == NoEnq
  {
    hide StopAfter, FailureLimit, Runs, After, Apply, Enabled, FaultFree, KillFree;
    var start := World(0, map[], map[pid := NewProc()]);
    var e := PostedAgain(c, pid, run);
    ClosePopStep(c, After(c, start, e), pid);
    var f := OneMore(c, start, e, ClosePop(pid));
    LetGoStep(c, After(c, start, f), pid);
    var g := OneMore(c, start, f, LetGo(pid));
    es := KillTheHead(c, start, g, pid, run);
  }

  lemma KillTheHead(c: Config, start: World, es: seq<Event>, pid: nat, run: string) returns (more: seq<Event>)
    requires ValidConfig(c) && Runs(c, start, es) && FaultFree(es)
    requires var w := After(c, start, es);
             && pid in w.procs && w.procs[pid].alive && w.procs[pid].work == Idle && w.procs[pid].enq == NoEnq
             && w.procs[pid].queue == [run]
             && run in w.rows && w.rows[run].state == Pending && w.rows[run].owner == None
    ensures Runs(c, start, more) && FaultFree(more)
    ensures var v := After(c, start, more);
            && Stranded(v, pid, run) && v.rows[run].state == Pending
            && v.procs[pid].queue == [] && v.procs[pid].work == Idle && v.procs[pid].enq == NoEnq
  {
    hide StopAfter, FailureLimit, Runs, After, FaultFree, KillFree;
    more := OneMore(c, start, es, Kill(pid, run));
    more := OneMore(c, start, more, Take(pid));
    more := OneMore(c, start, more, LetGo(pid));
  }

  function KillAndStop(pid: nat, run: string): seq<Event> {
    [Kill(pid, run)] + [Flush(pid)] + [KillStop(pid)] + [ClosePop(pid)]
  }

  function KillAndSkip(pid: nat, run: string): seq<Event> {
    [Kill(pid, run)] + [LetGo(pid)] + [EnqPut(pid)] + [Take(pid)] + [LetGo(pid)]
  }

  /** A fault-free run with two kills, both finding the row owned by the process, that leaves the job RUNNING. */
  predicate StrandsOwned(c: Config, start: World, before: seq<Event>, pid: nat, run: string)
    requires ValidConfig(c)
  {
    var second := before + KillAndStop(pid, run);
    var es := second + KillAndSkip(pid, run);
    && KillFree(before) && FaultFree(es)
    && Runs(c, start, before) && OwnedIn(After(c, start, before).rows, run, pid)
    && Runs(c, start, second) && OwnedIn(After(c, start, second).rows, run, pid)
    && Runs(c, start, es) && Stranded(After(c, start, es), pid, run) && After(c, start, es).rows[run].state == Running
  }

  /**
   Owning the row is not enough: a job posted again under its worker is killed while PENDING, a mid-run save
   puts it back to RUNNING, the stopped worker records nothing, and a second kill before the release - of a
   RUNNING row, this process's own - flags the one queue entry that would have run it.
   */
  lemma OwnedKillsStrand(c: Config, pid: nat, run: string) returns (before: seq<Event>)
    requires ValidConfig(c)
    ensures Initial(World(0, map[], map[pid := NewProc()]))
    ensures StrandsOwned(c, World(0, map[], map[pid := NewProc()]), before, pid, run)
  {
    hide StopAfter, FailureLimit, Runs, After, FaultFree, KillFree;
    var start := World(0, map[], map[pid := NewProc()]);
    before := LateSave(c, start, pid, run);
    var second := KillUnderWorker(c, start, before, pid, run);
    var es := KillInRelease(c, start, second, pid, run);
    assert second == before + KillAndStop(pid, run);
    assert es == second + KillAndSkip(pid, run);
  }

  /** Flagged and put back to RUNNING, by a worker that will not record the kill. */
  predicate Unrecorded(w: World, pid: nat, run: string) {
    && IndexingRun(w, pid, run) && run in w.procs[pid].killed && !RecordsKill(w.procs[pid], run)
    && w.procs[pid].enq == Saved(run) && w.procs[pid].queue == []
    && OwnedIn(w.rows, run, pid) && w.rows[run].state == Running
  }

  lemma KillThenFlush(c: Config, start: World, es: seq<Event>, pid: nat, run: string) returns (more: seq<Event>)
    requires ValidConfig(c) && Runs(c, start, es) && FaultFree(es)
    requires var w := After(c, start, es);
             && IndexingRun(w, pid, run) && w.procs[pid].enq == Saved(run) && w.procs[pid].queue == []
             && OwnedIn(w.rows, run, pid) && w.rows[run].state == Pending
    ensures Runs(c, start, more) && FaultFree(more) && more == es + [Kill(pid, run)] + [Flush(pid)]
    ensures Unrecorded(After(c, start, more), pid, run)
  {
    hide StopAfter, FailureLimit, Runs, After, FaultFree, KillFree;
    more := OneMore(c, start, es, Kill(pid, run));
    more := OneMore(c, start, more, Flush(pid));
  }

  lemma KillUnderWorker(c: Config, start: World, es: seq<Event>, pid: nat, run: string) returns (more: seq<Event>)
    requires ValidConfig(c) && Runs(c, start, es) && FaultFree(es)
    requires var w := After(c, start, es);
             && IndexingRun(w, pid, run) && w.procs[pid].enq == Saved(run) && w.procs[pid].queue == []
             && OwnedIn(w.rows, run, pid) && w.rows[run].state == Pending
    ensures Runs(c, start, more) && FaultFree(more)
    ensures more == es + KillAndStop(pid, run)
    ensures InRelease(After(c, start, more), pid, run)
  {
    hide StopAfter, FailureLimit, Runs, After, FaultFree, KillFree;
    more := KillThenFlush(c, start, es, pid, run);
    more := OneMore(c, start, more, KillStop(pid));
    more := OneMore(c, start, more, ClosePop(pid));
  }

  /** The worker about to release a RUNNING row, its next entry on the way into the queue. */
  predicate InRelease(w: World, pid: nat, run: string) {
    && pid in w.procs && w.procs[pid].alive && w.procs[pid].work == Releasing(run)
    && w.procs[pid].enq == Saved(run) && w.procs[pid].queue == []
    && OwnedIn(w.rows, run, pid) && w.rows[run].state == Running
  }

  /** ... then released, flagged, and that entry in the queue. */
  predicate Flagged(w: World, pid: nat, run: string) {
    && pid in w.procs && w.procs[pid].alive && w.procs[pid].work == Idle
    && w.procs[pid].enq == NoEnq && w.procs[pid].queue == [run] && run in w.procs[pid].killed
    && run in w.rows && w.rows[run].state == Running
  }

  lemma KillThenQueue(c: Config, start: World, es: seq<Event>, pid: nat, run: string) returns (more: seq<Event>)
    requires ValidConfig(c) && Runs(c, start, es) && FaultFree(es) && InRelease(After(c, start, es), pid, run)
    ensures Runs(c, start, more) && FaultFree(more)
    ensures more == es + [Kill(pid, run)] + [LetGo(pid)] + [EnqPut(pid)]
    ensures Flagged(After(c, start, more), pid, run)
  {
    hide StopAfter, FailureLimit, Runs, After, FaultFree, KillFree;
    more := OneMore(c, start, es, Kill(pid, run));
    more := OneMore(c, start, more, LetGo(pid));
    more := OneMore(c, start, more, EnqPut(pid));
  }

  lemma KillInRelease(c: Config, start: World, es: seq<Event>, pid: nat, run: string) returns (more: seq<Event>)
    requires ValidConfig(c) && Runs(c, start, es) && FaultFree(es) && InRelease(After(c, start, es), pid, run)
    ensures Runs(c, start, more) && FaultFree(more)
    ensures more == es + KillAndSkip(pid, run)
    ensures Stranded(After(c, start, more), pid, run) && After(c, start, more).rows[run].state == Running
  {
    hide StopAfter, FailureLimit, Runs, After, FaultFree, KillFree;
    more := KillThenQueue(c, start, es, pid, run);
    more := OneMore(c, start, more, Take(pid));
    more := OneMore(c, start, more, LetGo(pid));
  }

  // ---- How executions end ----

  /** A kill does not find the row back at PENDING under its own indexing worker. */
  predicate Timely(w: World, e: Event) {
    e.Kill? && e.pid in w.procs && ActiveIn(w.rows, e.run) ==>
      !(AtWork(w.procs[e.pid], e.run) && w.rows[e.run].state == Pending)
  }

  predicate TimelyRun(c: Config, w: World, es: seq<Event>)
    requires ValidConfig(c) && Runs(c, w, es)
    decreases |es|
  {
    es == [] || (Faultless(c, w, es[0]) && Timely(w, es[0]) && TimelyRun(c, Apply(c, w, es[0]), es[1..]))
  }

  /** An execution owns its row, keeps it in progress, and would record a kill. */
  predicate InOrderly(w: World, pid: nat, run: string)
    requires pid in w.procs
  {
    var p := w.procs[pid];
    && (Executing(p.work) && p.work.run == run ==> OwnedIn(w.rows, run, pid))
    && (AtWork(p, run) ==> ActiveIn(w.rows, run) && (run in p.killed ==> RecordsKill(p, run)))
  }

  lemma EnqueueOrderly(c: Config, w: World, e: Event, pid: nat, run: string)
    requires ValidConfig(c) && Enabled(c, w, e) && (e.EnqClaim? || e.EnqSave? || e.EnqPut?)
    requires Sole(w, pid) && InOrderly(w, pid, run)
    ensures InOrderly(Apply(c, w, e), pid, run)
  {
    hide StopAfter, FailureLimit, Lapsed;
  }

  lemma OutsideOrderly(c: Config, w: World, e: Event, pid: nat, run: string)
    requires ValidConfig(c) && Enabled(c, w, e) && Faultless(c, w, e) && Timely(w, e) && Outside(e)
    requires !e.EnqClaim? && !e.EnqSave? && !e.EnqPut?
    requires Sole(w, pid) && InOrderly(w, pid, run)
    ensures InOrderly(Apply(c, w, e), pid, run)
  {
    hide StopAfter, FailureLimit, Lapsed;
  }

  lemma EntryOrderly(c: Config, w: World, e: Event, pid: nat, run: string)
    requires ValidConfig(c) && Enabled(c, w, e) && (e.Take? || e.CheckOwned? || e.TryAgain? || e.Start?)
    requires Sole(w, pid) && InOrderly(w, pid, run)
    ensures InOrderly(Apply(c, w, e), pid, run)
  {
    hide StopAfter, FailureLimit;
  }

  lemma WorkerOrderly(c: Config, w: World, e: Event, pid: nat, run: string)
    requires ValidConfig(c) && Enabled(c, w, e) && Faultless(c, w, e) && !e.Tick? && !Outside(e)
    requires !e.Take? && !e.CheckOwned? && !e.TryAgain? && !e.Start?
    requires Sole(w, pid) && InOrderly(w, pid, run)
    ensures InOrderly(Apply(c, w, e), pid, run)
  {
    hide StopAfter, FailureLimit;
  }

  lemma StepOrderly(c: Config, w: World, e: Event, pid: nat, run: string)
    requires ValidConfig(c) && Enabled(c, w, e) && Faultless(c, w, e) && Timely(w, e)
    requires Sole(w, pid) && InOrderly(w, pid, run)
    ensures Sole(Apply(c, w, e), pid) && InOrderly(Apply(c, w, e), pid, run)
  {
    if e.Tick? {
      hide Enabled;
    } else {
      assert e.pid == pid by { ItsProcess(c, w, e); }
      StaysSole(c, w, e, pid);
      hide InOrderly, Apply, Enabled;
      if e.EnqClaim? || e.EnqSave? || e.EnqPut? {
        EnqueueOrderly(c, w, e, pid, run);
      } else if e.Take? || e.CheckOwned? || e.TryAgain? || e.Start? {
        EntryOrderly(c, w, e, pid, run);
      } else if Outside(e) {
        OutsideOrderly(c, w, e, pid, run);
      } else {
        WorkerOrderly(c, w, e, pid, run);
      }
    }
  }

  lemma {:induction false} RunOrderly(c: Config, w: World, es: seq<Event>, pid: nat, run: string)
    requires ValidConfig(c) && Runs(c, w, es) && TimelyRun(c, w, es) && Sole(w, pid) && InOrderly(w, pid, run)
    ensures var v := After(c, w, es); Sole(v, pid) && InOrderly(v, pid, run)
    decreases |es|
  {
    hide InOrderly, Apply, Enabled, Timely;
    if es != [] {
      StepOrderly(c, w, es[0], pid, run);
      RunOrderly(c, Apply(c, w, es[0]), es[1..], pid, run);
    }
  }

  /** Whichever way an execution ends, its row is then COMPLETE or FAILED. */
  lemma ExecutionEndsTerminal(c: Config, start: World, es: seq<Event>, e: Event, pid: nat, run: string)
    requires ValidConfig(c) && Initial(start) && start.procs.Keys == {pid}
    requires Runs(c, start, es) && TimelyRun(c, start, es)
    requires var w := After(c, start, es);
             && Enabled(c, w, e) && Faultless(c, w, e) && pid in w.procs && AtWork(w.procs[pid], run)
             && pid in Apply(c, w, e).procs && !AtWork(Apply(c, w, e).procs[pid], run)
    ensures var v := Apply(c, After(c, start, es), e);
            run in v.rows && (v.rows[run].state == Complete || v.rows[run].state == Failed)
  {
    hide Runs, After;
    assert Sole(start, pid) && InOrderly(start, pid, run);
    RunOrderly(c, start, es, pid, run);
    EndIsTerminal(c, After(c, start, es), e, pid, run);
  }

  lemma EndIsTerminal(c: Config, w: World, e: Event, pid: nat, run: string)
    requires ValidConfig(c) && Enabled(c, w, e) && Faultless(c, w, e) && Sole(w, pid) && InOrderly(w, pid, run)
    requires AtWork(w.procs[pid], run) && pid in Apply(c, w, e).procs && !AtWork(Apply(c, w, e).procs[pid], run)
    ensures var v := Apply(c, w, e);
            run in v.rows && (v.rows[run].state == Complete || v.rows[run].state == Failed)
  {
    hide StopAfter, FailureLimit;
  }

  lemma KilledWhilePending(c: Config, w: World, pid: nat, run: string)
    requires ValidConfig(c) && IndexingRun(w, pid, run) && OwnedIn(w.rows, run, pid) && w.rows[run].state == Pending
    ensures Runs(c, w, [Kill(pid, run), Flush(pid), KillStop(pid)])
    ensures var v := After(c, w, [Kill(pid, run), Flush(pid), KillStop(pid)]);
            pid in v.procs && !AtWork(v.procs[pid], run) && run in v.rows && v.rows[run].state == Running
  {
    hide StopAfter, FailureLimit, Runs, After;
    RunsThree(c, w, Kill(pid, run), Flush(pid), KillStop(pid));
  }

  /**
   Where a kill does come then, a run on ends the execution with its row RUNNING; and such a kill can come:
   the worker reaches the old queue entry of a job that lapsed and was posted again, before the new post has
   saved PENDING.
   */
  lemma LateSaveThenKill(c: Config, pid: nat, run: string) returns (before: seq<Event>)
    requires ValidConfig(c)
    ensures var start := World(0, map[], map[pid := NewProc()]);
            && Initial(start) && Runs(c, start, before) && FaultFree(before) && KillFree(before)
            && var w := After(c, start, before);
               && pid in w.procs && AtWork(w.procs[pid], run)
               && OwnedIn(w.rows, run, pid) && w.rows[run].state == Pending
               && Runs(c, w, [Kill(pid, run), Flush(pid), KillStop(pid)])
               && var v := After(c, w, [Kill(pid, run), Flush(pid), KillStop(pid)]);
                  pid in v.procs && !AtWork(v.procs[pid], run) && run in v.rows && v.rows[run].state == Running
  {
    hide StopAfter, FailureLimit, Runs, After, FaultFree, KillFree;
    before := LateSave(c, World(0, map[], map[pid := NewProc()]), pid, run);
    KilledWhilePending(c, After(c, World(0, map[], map[pid := NewProc()]), before), pid, run);
  }
}
